/**
 * Where every message of the TCP server comes from, in every run with arbitrary clients: what is
 * queued, sent or written stems from one accepted request and has not been altered on the way.
 */
module TcpTrace {
  import opened Base
  import opened Messages
  import opened TcpProtocol

  /** Handling a request leaves the queues, the replies and the other connections alone. */
  ghost predicate Framed(s: State, t: State, c: nat)
    requires c < |s.conns|
  {
    && |t.conns| == |s.conns|
    && t.conns == s.conns[c := t.conns[c]]
    && t.conns[c].addr == s.conns[c].addr
    && t.conns[c].queue == s.conns[c].queue
    && t.conns[c].out == s.conns[c].out
    && !t.conns[c].stage.Handling? && !t.conns[c].stage.Unregistered? && !t.conns[c].stage.Closed?
    && t.accepted == s.accepted
    && s.log <= t.log
  }

  lemma IsyncFramed(s: State, c: nat, ticket: nat, src: Id, dst: Id)
    requires c < |s.conns|
    ensures Framed(s, HandleIsync(s, c, ticket, src, dst), c)
  {
  }

  lemma RsyncFramed(s: State, c: nat, ticket: nat, src: Id, dst: Id)
    requires c < |s.conns|
    ensures Framed(s, HandleRsync(s, c, ticket, src, dst), c)
  {
  }

  lemma PingFramed(s: State, c: nat, ticket: nat, src: Id)
    requires c < |s.conns|
    ensures Framed(s, HandlePing(s, c, ticket, src), c)
  {
  }

  lemma HandleFramed(s: State, c: nat, m: Msg)
    requires c < |s.conns|
    ensures Framed(s, HandleRequest(s, c, m), c)
  {
    match m.req.cmd {
      case Some(Ping) => PingFramed(s, c, m.ticket, m.req.id);
      case Some(Isync(dst)) => IsyncFramed(s, c, m.ticket, m.req.id, dst);
      case Some(Rsync(dst)) => RsyncFramed(s, c, m.ticket, m.req.id, dst);
      case _ =>
    }
  }

  /** History only grows. */
  lemma NextExtends(s: State, e: Event)
    requires Enabled(s, e)
    ensures Extends(s, Next(s, e))
  {
    if e.Handle? {
      HandleFramed(s, e.c, s.conns[e.c].stage.m);
    }
  }

  lemma VouchedStays(s: State, t: State, c: nat, id: Id)
    requires Extends(s, t) && Vouched(s, c, id)
    ensures Vouched(t, c, id)
  {
    var k :| 0 <= k < |s.accepted| && s.accepted[k].conn == c && s.accepted[k].req.id == id
             && s.accepted[k].req.cmd.Some? && (s.accepted[k].req.cmd.value.Ping? || s.accepted[k].req.cmd.value.Isync?);
    assert t.accepted[k] == s.accepted[k];
  }

  lemma GenuineStays(s: State, t: State, c: nat, m: Msg)
    requires Extends(s, t) && Genuine(s, c, m)
    ensures Genuine(t, c, m)
    ensures Forwarded(s, c, m) ==> Forwarded(t, c, m)
  {
    assert t.accepted[m.ticket] == s.accepted[m.ticket];
  }

  lemma FaithfulStays(s: State, t: State, c: nat, r: Reply)
    requires Extends(s, t) && Faithful(s, c, r)
    ensures Faithful(t, c, r)
  {
    assert t.accepted[r.ticket] == s.accepted[r.ticket];
    var o := s.accepted[r.ticket];
    if r.resp.cmd.value.Redirect? && r.resp.cmd.value.addr != [] {
      var d :| 0 <= d < |s.conns| && Registered(r.resp.cmd.value.id, d) in s.log
               && s.conns[d].addr == r.resp.cmd.value.addr;
      assert Registered(r.resp.cmd.value.id, d) in t.log && t.conns[d].addr == r.resp.cmd.value.addr;
    }
  }

  lemma StageStays(s: State, t: State, c: nat, g: Stage)
    requires Extends(s, t) && StageTraced(s, c, g)
    ensures StageTraced(t, c, g)
  {
    match g
    case Handling(m) => GenuineStays(s, t, c, m);
    case Sending(peer, m, register) =>
      GenuineStays(s, t, peer.tx, m);
      if register.Some? { VouchedStays(s, t, c, register.value); }
    case Registering(id) => VouchedStays(s, t, c, id);
    case Writing(r) => FaithfulStays(s, t, c, r);
    case _ =>
  }

  /** A connection the step does not touch stays traced. */
  lemma ConnStays(s: State, t: State, c: nat, conn: Conn)
    requires Extends(s, t) && ConnTraced(s, c, conn)
    requires forall k :: Registered(k, c) in t.log ==> Registered(k, c) in s.log
    ensures ConnTraced(t, c, conn)
  {
    StageStays(s, t, c, conn.stage);
    forall k | Registered(k, c) in t.log ensures Vouched(t, c, k) { VouchedStays(s, t, c, k); }
    forall i | 0 <= i < |conn.queue| ensures Genuine(t, c, conn.queue[i]) { GenuineStays(s, t, c, conn.queue[i]); }
    forall i | 0 <= i < |conn.out| ensures Faithful(t, c, conn.out[i]) { FaithfulStays(s, t, c, conn.out[i]); }
  }

  lemma OthersStay(s: State, t: State, touched: int)
    requires Extends(s, t) && Traced(s)
    requires forall d :: 0 <= d < |s.conns| && d != touched ==> t.conns[d] == s.conns[d]
    requires forall k, d :: d != touched && Registered(k, d) in t.log ==> Registered(k, d) in s.log
    ensures forall d :: 0 <= d < |s.conns| && d != touched ==> ConnTraced(t, d, t.conns[d])
  {
    forall d | 0 <= d < |s.conns| && d != touched ensures ConnTraced(t, d, t.conns[d]) {
      ConnStays(s, t, d, s.conns[d]);
    }
  }

  /** One connection changes to another traced content; nothing is registered. */
  lemma ConnChange(s: State, c: nat, conn: Conn, t: State)
    requires Traced(s) && c < |s.conns| && ConnTraced(s, c, conn) && Extends(s, t)
    requires t.conns == s.conns[c := conn] && t.accepted == s.accepted
    requires forall k, d :: Registered(k, d) in t.log ==> Registered(k, d) in s.log
    requires forall k :: k in t.peers ==> k in s.peers && t.peers[k] == s.peers[k]
    ensures Traced(t)
  {
    ConnsChange(s, c, conn, t);
    PeersStay(s, t);
  }

  lemma ConnsChange(s: State, c: nat, conn: Conn, t: State)
    requires Traced(s) && c < |s.conns| && ConnTraced(s, c, conn) && Extends(s, t)
    requires t.conns == s.conns[c := conn]
    requires forall k, d :: Registered(k, d) in t.log ==> Registered(k, d) in s.log
    ensures forall d :: 0 <= d < |t.conns| ==> ConnTraced(t, d, t.conns[d])
  {
    OthersStay(s, t, c);
    ConnStays(s, t, c, conn);
  }

  lemma PeersStay(s: State, t: State)
    requires Traced(s) && Extends(s, t) && forall k :: k in t.peers ==> k in s.peers && t.peers[k] == s.peers[k]
    ensures forall k :: k in t.peers ==> Real(t, t.peers[k]) && Registered(k, t.peers[k].tx) in t.log
  {
  }

  /** Only the stage of one connection changes, and what it may hold is justified. */
  lemma StageChange(s: State, c: nat, g: Stage, t: State)
    requires Traced(s) && c < |s.conns| && !g.Closed? && StageTraced(s, c, g)
    requires t.conns == s.conns[c := s.conns[c].(stage := g)]
    requires t.accepted == s.accepted && t.peers == s.peers && t.log == s.log
    ensures Traced(t)
  {
    assert ConnTraced(s, c, s.conns[c]);
    ConnChange(s, c, s.conns[c].(stage := g), t);
  }

  lemma InsertedConn(s: State, c: nat, id: Id, g: Stage)
    requires Traced(s) && c < |s.conns| && Vouched(s, c, id) && !g.Closed? && StageTraced(s, c, g)
    ensures var t := WithStage(Insert(s, c, id), c, g); Extends(s, t) && ConnTraced(t, c, t.conns[c])
  {
    var t := WithStage(Insert(s, c, id), c, g);
    var conn := t.conns[c];
    assert ConnTraced(s, c, s.conns[c]);
    assert t.log[|s.log|] == Registered(id, c);
    StageStays(s, t, c, g);
    forall k | Registered(k, c) in t.log ensures Vouched(t, c, k) {
      assert Vouched(s, c, k);
      VouchedStays(s, t, c, k);
    }
    forall i | 0 <= i < |conn.queue| ensures Genuine(t, c, conn.queue[i]) { GenuineStays(s, t, c, conn.queue[i]); }
    forall i | 0 <= i < |conn.out| ensures Faithful(t, c, conn.out[i]) { FaithfulStays(s, t, c, conn.out[i]); }
  }

  lemma InsertedPeers(s: State, c: nat, id: Id)
    requires Traced(s) && c < |s.conns|
    ensures var t := Insert(s, c, id);
            forall k :: k in t.peers ==> Real(t, t.peers[k]) && Registered(k, t.peers[k].tx) in t.log
  {
    var t := Insert(s, c, id);
    assert t.log[|s.log|] == Registered(id, c);
  }

  lemma InsertedOthers(s: State, t: State, c: nat, id: Id)
    requires Traced(s) && Extends(s, t) && c < |s.conns| && t.log == s.log + [Registered(id, c)]
    requires |t.conns| == |s.conns| && forall d :: 0 <= d < |s.conns| && d != c ==> t.conns[d] == s.conns[d]
    ensures forall d :: 0 <= d < |s.conns| && d != c ==> ConnTraced(t, d, t.conns[d])
    ensures forall k: Id, d: nat :: Registered(k, d) in t.log ==> d < |t.conns|
  {
    assert forall ev :: ev in t.log <==> ev in s.log || ev == Registered(id, c);
    OthersStay(s, t, c);
  }

  lemma InsertTraced(s: State, c: nat, id: Id, g: Stage)
    requires Traced(s) && c < |s.conns| && Vouched(s, c, id) && !g.Closed? && StageTraced(s, c, g)
    ensures Traced(WithStage(Insert(s, c, id), c, g))
  {
    var t := WithStage(Insert(s, c, id), c, g);
    InsertedConn(s, c, id, g);
    InsertedPeers(s, c, id);
    InsertedOthers(s, t, c, id);
  }

  lemma IsyncTraced(s: State, c: nat, ticket: nat, src: Id, dst: Id)
    requires Traced(s) && c < |s.conns| && !s.conns[c].stage.Closed? && ticket < |s.accepted|
    requires s.accepted[ticket] == Accepted(c, Request(src, Some(Isync(dst))))
    ensures Traced(HandleIsync(s, c, ticket, src, dst))
  {
    var t := HandleIsync(s, c, ticket, src, dst);
    assert Vouched(s, c, src);
    StageChange(s, c, t.conns[c].stage, t);
  }

  /** The answer of an Rsync is the address of a connection that registered as its sender. */
  lemma RedirectFaithful(s: State, c: nat, ticket: nat, src: Id, dst: Id)
    requires Traced(s) && c < |s.conns| && ticket < |s.accepted| && s.accepted[ticket].conn < |s.conns|
    requires s.accepted[ticket].req == Request(src, Some(Rsync(dst)))
    requires dst == s.conns[c].peerId && src in s.peers
    ensures Faithful(s, c, Reply(ticket, Response([], Some(Redirect(src, s.peers[src].addr)))))
  {
    var p := s.peers[src];
    assert ConnTraced(s, c, s.conns[c]);
    assert Real(s, p) && Registered(src, p.tx) in s.log && s.conns[p.tx].addr == p.addr;
  }

  lemma RsyncTraced(s: State, c: nat, ticket: nat, src: Id, dst: Id)
    requires Traced(s) && c < |s.conns| && !s.conns[c].stage.Closed?
    requires ticket < |s.accepted| && s.accepted[ticket].conn < |s.conns|
    requires s.accepted[ticket].req == Request(src, Some(Rsync(dst)))
    ensures Traced(HandleRsync(s, c, ticket, src, dst))
  {
    var t := HandleRsync(s, c, ticket, src, dst);
    var g := t.conns[c].stage;
    if g.Writing? {
      RedirectFaithful(s, c, ticket, src, dst);
      StageChange(s, c, g, t);
    } else if g.Sending? {
      assert Forwarded(s, g.peer.tx, g.m);
      StageChange(s, c, g, t);
    } else {
      StageChange(s, c, Idle, t);
    }
  }

  lemma HandleTraced(s: State, c: nat, m: Msg)
    requires Traced(s) && c < |s.conns| && !s.conns[c].stage.Closed? && Genuine(s, c, m)
    ensures Traced(HandleRequest(s, c, m))
  {
    match m.req.cmd {
      case Some(Ping) =>
        assert s.accepted[m.ticket] == Accepted(c, m.req);
        InsertTraced(s, c, m.req.id, NewReply(m.ticket, Pong));
      case Some(Isync(dst)) => IsyncTraced(s, c, m.ticket, m.req.id, dst);
      case Some(Rsync(dst)) => RsyncTraced(s, c, m.ticket, m.req.id, dst);
      case Some(Fsync(id, addr)) =>
        StageChange(s, c, NewReply(m.ticket, FsyncResp(id, addr)), HandleRequest(s, c, m));
      case _ => StageChange(s, c, Stopped, HandleRequest(s, c, m));
    }
  }

  /** A queue gets one more genuine message. */
  lemma Appended(s: State, c: nat, m: Msg, t: State)
    requires Traced(s) && c < |s.conns| && !s.conns[c].stage.Closed? && |s.conns[c].queue| < QUEUE_LIMIT
    requires Extends(s, t) && t.conns == s.conns[c := s.conns[c].(queue := s.conns[c].queue + [m])]
    requires t.peers == s.peers && t.log == s.log && Genuine(t, c, m)
    requires forall k :: 0 <= k < |t.accepted| ==> t.accepted[k].conn < |t.conns|
    ensures Traced(t)
  {
    OthersStay(s, t, c);
    ConnStays(s, t, c, s.conns[c]);
    ConnAppended(t, c, s.conns[c], m);
  }

  lemma ConnAppended(t: State, c: nat, conn: Conn, m: Msg)
    requires ConnTraced(t, c, conn) && !conn.stage.Closed? && |conn.queue| < QUEUE_LIMIT && Genuine(t, c, m)
    ensures ConnTraced(t, c, conn.(queue := conn.queue + [m]))
  {
  }

  lemma SendTraced(s: State, c: nat)
    requires Traced(s) && Enabled(s, Send(c))
    ensures Traced(Next(s, Send(c)))
  {
    var Sending(peer, m, register) := s.conns[c].stage;
    assert ConnTraced(s, c, s.conns[c]);
    var g := if register.Some? then Registering(register.value) else Idle;
    var d := Deliver(s, peer.tx, m);
    if s.conns[peer.tx].stage.Closed? {
      StageChange(s, c, g, Next(s, Send(c)));
    } else {
      Appended(s, peer.tx, m, d);
      if register.Some? { VouchedStays(s, d, c, register.value); }
      StageChange(d, c, g, Next(s, Send(c)));
    }
  }

  lemma AcceptTraced(s: State, addr: SocketAddr)
    requires Traced(s)
    ensures Traced(Next(s, Accept(addr)))
  {
    OthersStay(s, Next(s, Accept(addr)), -1);
  }

  lemma EnqueueTraced(s: State, c: nat, req: Request)
    requires Traced(s) && Enabled(s, Enqueue(c, req))
    ensures Traced(Next(s, Enqueue(c, req)))
  {
    Appended(s, c, Msg(|s.accepted|, req), Next(s, Enqueue(c, req)));
  }

  /** The steps that only move things about within one connection. */
  lemma LocalTraced(s: State, e: Event)
    requires Traced(s) && Enabled(s, e)
    requires e.Recv? || e.Write? || e.Unregister? || e.Drop? || e.Stop?
    ensures Traced(Next(s, e))
  {
    var t := Next(s, e);
    assert ConnTraced(s, e.c, s.conns[e.c]);
    ConnChange(s, e.c, t.conns[e.c], t);
  }

  /** Every step keeps every message traced to an accepted request. */
  lemma NextTraced(s: State, e: Event)
    requires Traced(s) && Enabled(s, e)
    ensures Traced(Next(s, e))
  {
    if e.Accept? {
      AcceptTraced(s, e.addr);
    } else if e.Enqueue? {
      EnqueueTraced(s, e.c, e.req);
    } else if e.Send? {
      SendTraced(s, e.c);
    } else if e.Handle? || e.Register? {
      assert ConnTraced(s, e.c, s.conns[e.c]);
      if e.Handle? {
        HandleTraced(s, e.c, s.conns[e.c].stage.m);
      } else {
        InsertTraced(s, e.c, s.conns[e.c].stage.id, Idle);
      }
    } else {
      LocalTraced(s, e);
    }
  }

  /** In every state of every run, with arbitrary clients. */
  lemma {:induction false} RunTraced(es: seq<Event>, ss: seq<State>, i: nat)
    requires IsRun(es, ss) && i < |ss|
    ensures Traced(ss[i])
  {
    if i > 0 {
      RunTraced(es, ss, i - 1);
      NextTraced(ss[i - 1], es[i - 1]);
    }
  }
}
