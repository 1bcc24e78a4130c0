/**
 * What the TCP server guarantees to clients that behave as the shipped ones do: where the address
 * in a Redirect comes from; and to clients of which no more is known than that each uses one id:
 * that an Rsync is forwarded at most once.
 */
module TcpProvenance {
  import opened Base
  import opened Messages
  import opened TcpProtocol
  import opened TcpTrace
  import opened TcpLedger

  /** The client of connection c has been written an Fsync for `x`. */
  ghost predicate GotFsync(s: State, c: nat, x: Id)
    requires c < |s.conns|
  {
    exists i :: 0 <= i < |s.conns[c].out| && FsyncFor(s.conns[c].out[i], x)
  }

  predicate FsyncFor(r: Reply, x: Id) {
    r.resp.cmd.Some? && r.resp.cmd.value.FsyncResp? && r.resp.cmd.value.id == x
  }

  /** One non-empty id per connection, no Fsync from clients, an Rsync only as the answer to a
      received Fsync (src/tcp/client.rs read_loop and write_loop). The other allowed request is the
      Bye the server's own reader makes up when reading fails. */
  ghost predicate Polite(s: State, e: Event, who: nat -> Id) {
    e.Enqueue? && e.c < |s.conns| ==>
      || e.req == Request([], Some(Bye))
      || (e.req.id == who(e.c) != [] && e.req.cmd.Some?
          && !e.req.cmd.value.Fsync?
          && (e.req.cmd.value.Rsync? ==> GotFsync(s, e.c, e.req.cmd.value.id)))
  }

  ghost predicate IsPoliteRun(es: seq<Event>, ss: seq<State>, who: nat -> Id) {
    IsRun(es, ss) && forall i {:trigger es[i]} :: 0 <= i < |es| ==> Polite(ss[i], es[i], who)
  }

  ghost predicate PoliteRequest(s: State, a: Accepted, who: nat -> Id) {
    && a.conn < |s.conns| && a.req.cmd.Some? && !a.req.cmd.value.Fsync?
    && (!a.req.cmd.value.Bye? ==> a.req.id == who(a.conn) != [])
    && (a.req.cmd.value.Rsync? ==> GotFsync(s, a.conn, a.req.cmd.value.id))
  }

  ghost predicate AllPolite(s: State, who: nat -> Id) {
    forall k :: 0 <= k < |s.accepted| ==> PoliteRequest(s, s.accepted[k], who)
  }

  lemma PoliteStays(s: State, t: State, a: Accepted, who: nat -> Id)
    requires Extends(s, t) && PoliteRequest(s, a, who)
    ensures PoliteRequest(t, a, who)
  {
    if a.req.cmd.value.Rsync? {
      var i :| 0 <= i < |s.conns[a.conn].out| && FsyncFor(s.conns[a.conn].out[i], a.req.cmd.value.id);
      assert t.conns[a.conn].out[i] == s.conns[a.conn].out[i];
    }
  }

  lemma NextAccepted(s: State, e: Event)
    requires Enabled(s, e)
    ensures Next(s, e).accepted == if e.Enqueue? then s.accepted + [Accepted(e.c, e.req)] else s.accepted
  {
    if e.Handle? {
      HandleFramed(s, e.c, s.conns[e.c].stage.m);
    }
  }

  lemma NextPolite(s: State, e: Event, who: nat -> Id)
    requires Enabled(s, e) && AllPolite(s, who) && Polite(s, e, who)
    ensures AllPolite(Next(s, e), who)
  {
    var t := Next(s, e);
    NextExtends(s, e);
    NextAccepted(s, e);
    forall k | 0 <= k < |t.accepted| ensures PoliteRequest(t, t.accepted[k], who) {
      PoliteStays(s, t, t.accepted[k], who);
    }
  }

  lemma {:induction false} RunPolite(es: seq<Event>, ss: seq<State>, who: nat -> Id, i: nat)
    requires IsPoliteRun(es, ss, who) && i < |ss|
    ensures AllPolite(ss[i], who) && Traced(ss[i])
  {
    RunTraced(es, ss, i);
    if i > 0 {
      RunPolite(es, ss, who, i - 1);
      NextPolite(ss[i - 1], es[i - 1], who);
    }
  }

  /** One id per connection: every accepted request that registers its sender carries it. */
  ghost predicate OneId(s: State, who: nat -> Id) {
    forall k :: 0 <= k < |s.accepted| && s.accepted[k].req.cmd.Some?
                && (s.accepted[k].req.cmd.value.Ping? || s.accepted[k].req.cmd.value.Isync?)
      ==> s.accepted[k].req.id == who(s.accepted[k].conn)
  }

  lemma VouchedIsOwn(s: State, who: nat -> Id, c: nat, id: Id)
    requires OneId(s, who) && Vouched(s, c, id)
    ensures id == who(c)
  {
  }

  /** With one id per connection, a connection registers under that id only, and that is its
      handler's peer_id from then on. */
  lemma RegistersOwnId(s: State, who: nat -> Id, k: Id, c: nat)
    requires Traced(s) && OneId(s, who) && Registered(k, c) in s.log
    ensures c < |s.conns| && k == who(c) == s.conns[c].peerId
  {
    assert ConnTraced(s, c, s.conns[c]);
    VouchedIsOwn(s, who, c, k);
    VouchedIsOwn(s, who, c, s.conns[c].peerId);
  }

  lemma PoliteIsOneId(s: State, who: nat -> Id)
    requires AllPolite(s, who)
    ensures OneId(s, who)
  {
    assert forall i :: 0 <= i < |s.accepted| ==> PoliteRequest(s, s.accepted[i], who);
  }

  /** Polite clients use one id per connection, and it is not empty. */
  lemma PoliteRegistersOwnId(s: State, who: nat -> Id, k: Id, c: nat)
    requires Traced(s) && AllPolite(s, who) && Registered(k, c) in s.log
    ensures c < |s.conns| && k == who(c) == s.conns[c].peerId && k != []
  {
    PoliteIsOneId(s, who);
    RegistersOwnId(s, who, k, c);
    assert ConnTraced(s, c, s.conns[c]) && Vouched(s, c, k);
  }

  /** An Isync naming `t` was accepted from a client whose id is `a`. */
  ghost predicate Asked(s: State, a: Id, t: Id) {
    exists k :: 0 <= k < |s.accepted| && s.accepted[k].req == Request(a, Some(Isync(t)))
  }

  /** An Fsync written to connection d tells it of an Isync that named d's own id. */
  lemma FsyncWasAsked(s: State, who: nat -> Id, d: nat, x: Id)
    requires Traced(s) && AllPolite(s, who) && d < |s.conns| && GotFsync(s, d, x)
    ensures x != [] && Asked(s, x, who(d))
  {
    var i :| 0 <= i < |s.conns[d].out| && FsyncFor(s.conns[d].out[i], x);
    var r := s.conns[d].out[i];
    assert ConnTraced(s, d, s.conns[d]) && Faithful(s, d, r);
    var o := s.accepted[r.ticket];
    assert PoliteRequest(s, o, who);
    PoliteRegistersOwnId(s, who, o.req.cmd.value.id, d);
    assert o.req == Request(x, Some(Isync(who(d))));
  }

  /** End to end: a Redirect with an address, written to connection c in any run with polite
      clients, names an id that an Isync under c's own id asked for, and carries the observed
      address of a connection that registered under that very id. */
  lemma RedirectProvenance(es: seq<Event>, ss: seq<State>, who: nat -> Id, i: nat, c: nat, j: nat)
    requires IsPoliteRun(es, ss, who) && i < |ss| && c < |ss[i].conns| && j < |ss[i].conns[c].out|
    requires var r := ss[i].conns[c].out[j].resp.cmd; r.Some? && r.value.Redirect? && r.value.addr != []
    ensures var s := ss[i];
            var Redirect(id, addr) := s.conns[c].out[j].resp.cmd.value;
            && Asked(s, who(c), id)
            && exists d :: 0 <= d < |s.conns| && who(d) == id && Registered(id, d) in s.log && s.conns[d].addr == addr
  {
    var s := ss[i];
    RunPolite(es, ss, who, i);
    var r := s.conns[c].out[j];
    var Redirect(id, addr) := r.resp.cmd.value;
    assert ConnTraced(s, c, s.conns[c]) && Faithful(s, c, r);
    var o := s.accepted[r.ticket];
    assert PoliteRequest(s, o, who);
    FsyncWasAsked(s, who, o.conn, o.req.cmd.value.id);
    PoliteRegistersOwnId(s, who, o.req.cmd.value.id, c);
    var d :| 0 <= d < |s.conns| && Registered(id, d) in s.log && s.conns[d].addr == addr;
    PoliteRegistersOwnId(s, who, id, d);
  }

  /** If every Isync under an id names `target`, a client with that id is only ever redirected to
      `target`. */
  lemma RedirectedToTarget(es: seq<Event>, ss: seq<State>, who: nat -> Id, i: nat, c: nat, j: nat, target: Id)
    requires IsPoliteRun(es, ss, who) && i < |ss| && c < |ss[i].conns| && j < |ss[i].conns[c].out|
    requires var r := ss[i].conns[c].out[j].resp.cmd; r.Some? && r.value.Redirect? && r.value.addr != []
    requires forall t :: Asked(ss[i], who(c), t) ==> t == target
    ensures var s := ss[i];
            var Redirect(id, addr) := s.conns[c].out[j].resp.cmd.value;
            && id == target
            && exists d :: 0 <= d < |s.conns| && who(d) == target && Registered(target, d) in s.log && s.conns[d].addr == addr
  {
    RedirectProvenance(es, ss, who, i, c, j);
  }

  // ---- an Rsync is forwarded at most once ----

  /** The step is the handling of the Rsync with ticket k, and takes the branch that sends it on. */
  predicate Forwards(s: State, e: Event, k: nat) {
    && e.Handle? && e.c < |s.conns| && s.conns[e.c].stage.Handling?
    && var Msg(ticket, req) := s.conns[e.c].stage.m;
       && ticket == k && req.cmd.Some? && req.cmd.value.Rsync?
       && req.cmd.value.id != s.conns[e.c].peerId && req.cmd.value.id in s.peers
  }

  /** That branch is the one that leaves the handler sending. */
  lemma ForwardsIffSending(s: State, e: Event, k: nat)
    requires e.Handle? && Enabled(s, e) && s.conns[e.c].stage.m.ticket == k
    requires s.conns[e.c].stage.m.req.cmd.Some? && s.conns[e.c].stage.m.req.cmd.value.Rsync?
    ensures e.c < |Next(s, e).conns| && (Forwards(s, e, k) <==> Next(s, e).conns[e.c].stage.Sending?)
    ensures Forwards(s, e, k) ==> Next(s, e).conns[e.c].stage.m == s.conns[e.c].stage.m
  {
  }

  /** A forwarded Rsync names the id of the handler it has reached, so it is not forwarded again. */
  lemma ForwardedStops(s: State, who: nat -> Id, e: Event)
    requires Traced(s) && OneId(s, who) && e.Handle? && Enabled(s, e)
    requires Forwarded(s, e.c, s.conns[e.c].stage.m)
    ensures forall k :: !Forwards(s, e, k)
  {
    var m := s.conns[e.c].stage.m;
    if m.req.cmd.Some? && m.req.cmd.value.Rsync? {
      RegistersOwnId(s, who, m.req.cmd.value.id, e.c);
    }
  }

  /** Wherever ticket k waits or is being worked on, it is a message forwarded to that handler. */
  ghost predicate Hopped(s: State, k: nat) {
    forall c :: 0 <= c < |s.conns| ==> ConnHopped(s, c, s.conns[c], k)
  }

  ghost predicate ConnHopped(s: State, c: nat, conn: Conn, k: nat) {
    && (forall i :: 0 <= i < |conn.queue| && conn.queue[i].ticket == k ==> Forwarded(s, c, conn.queue[i]))
    && (conn.stage.Handling? && conn.stage.m.ticket == k ==> Forwarded(s, c, conn.stage.m))
  }

  lemma ConnHoppedStays(s: State, t: State, c: nat, conn: Conn, k: nat)
    requires Extends(s, t) && ConnHopped(s, c, conn, k)
    ensures ConnHopped(t, c, conn, k)
  {
    forall i | 0 <= i < |conn.queue| && conn.queue[i].ticket == k ensures Forwarded(t, c, conn.queue[i]) {
      GenuineStays(s, t, c, conn.queue[i]);
    }
    if conn.stage.Handling? && conn.stage.m.ticket == k { GenuineStays(s, t, c, conn.stage.m); }
  }

  /** The ways in which a step can change a connection's queue and hand. */
  ghost predicate Shaped(s: State, e: Event, d: nat, conn: Conn, conn': Conn)
    requires Enabled(s, e)
  {
    || (conn'.queue == conn.queue && (conn'.stage == conn.stage || !conn'.stage.Handling?))
    || (e == Recv(d) && conn.queue != [] && conn'.queue == conn.queue[1..] && conn'.stage == Handling(conn.queue[0]))
    || (e.Enqueue? && conn'.queue == conn.queue + [Msg(|s.accepted|, e.req)] && conn'.stage == conn.stage)
    || (e.Send? && s.conns[e.c].stage.peer.tx == d && conn'.queue == conn.queue + [s.conns[e.c].stage.m]
        && (conn'.stage == conn.stage || !conn'.stage.Handling?))
    || (e.Drop? && conn'.queue == [] && !conn'.stage.Handling?)
  }

  lemma StepShaped(s: State, e: Event, d: nat)
    requires Enabled(s, e) && d < |s.conns|
    ensures |Next(s, e).conns| >= |s.conns| && Shaped(s, e, d, s.conns[d], Next(s, e).conns[d])
  {
    if e.Handle? {
      HandleFramed(s, e.c, s.conns[e.c].stage.m);
    }
  }

  lemma ShapedHopped(s: State, t: State, e: Event, d: nat, conn: Conn, conn': Conn, k: nat)
    requires Enabled(s, e) && k < |s.accepted| && Shaped(s, e, d, conn, conn') && ConnHopped(t, d, conn, k)
    requires e.Send? && s.conns[e.c].stage.peer.tx == d ==> Forwarded(t, d, s.conns[e.c].stage.m)
    ensures ConnHopped(t, d, conn', k)
  {
  }

  lemma NextHopped(s: State, e: Event, k: nat)
    requires Traced(s) && Enabled(s, e) && k < |s.accepted| && Hopped(s, k)
    ensures Hopped(Next(s, e), k)
  {
    var t := Next(s, e);
    NextExtends(s, e);
    forall d | 0 <= d < |s.conns| ensures ConnHopped(t, d, t.conns[d], k) {
      ConnNextHopped(s, e, t, d, k);
    }
    NewConns(s, e);
  }

  lemma ConnNextHopped(s: State, e: Event, t: State, d: nat, k: nat)
    requires Traced(s) && Enabled(s, e) && t == Next(s, e) && Extends(s, t) && k < |s.accepted| && Hopped(s, k)
    requires d < |s.conns|
    ensures ConnHopped(t, d, t.conns[d], k)
  {
    assert ConnHopped(s, d, s.conns[d], k);
    ConnHoppedStays(s, t, d, s.conns[d], k);
    StepShaped(s, e, d);
    if e.Send? && s.conns[e.c].stage.peer.tx == d {
      SentIsForwarded(s, e.c, t);
    }
    ShapedHopped(s, t, e, d, s.conns[d], t.conns[d], k);
  }

  lemma SentIsForwarded(s: State, c: nat, t: State)
    requires Traced(s) && c < |s.conns| && s.conns[c].stage.Sending? && Extends(s, t)
    ensures Forwarded(t, s.conns[c].stage.peer.tx, s.conns[c].stage.m)
  {
    assert ConnTraced(s, c, s.conns[c]);
    GenuineStays(s, t, s.conns[c].stage.peer.tx, s.conns[c].stage.m);
  }

  /** A connection that was not there before is empty. */
  lemma NewConns(s: State, e: Event)
    requires Enabled(s, e)
    ensures forall d :: |s.conns| <= d < |Next(s, e).conns| ==>
              Next(s, e).conns[d].queue == [] && Next(s, e).conns[d].stage == Idle
  {
    if e.Handle? {
      HandleFramed(s, e.c, s.conns[e.c].stage.m);
    }
  }

  /** A ticket in the hand of a sender is nowhere else. */
  lemma InHandHopped(t: State, c: nat, k: nat)
    requires Balanced(t, Only(k)) && c < |t.conns| && t.conns[c].stage.Sending? && t.conns[c].stage.m.ticket == k
    ensures Hopped(t, k)
  {
    forall d | 0 <= d < |t.conns| ensures ConnHopped(t, d, t.conns[d], k) {
      InHandNowhereElse(t, c, k, d);
    }
  }

  lemma TicketIssued(s: State, c: nat)
    requires Traced(s) && c < |s.conns| && s.conns[c].stage.Handling?
    ensures s.conns[c].stage.m.ticket < |s.accepted|
  {
    assert ConnTraced(s, c, s.conns[c]);
  }

  lemma ForwardHops(s: State, e: Event, k: nat)
    requires Traced(s) && Forwards(s, e, k) && Balanced(s, Only(k))
    ensures k < |s.accepted| && Hopped(Next(s, e), k)
  {
    TicketIssued(s, e.c);
    ForwardsIffSending(s, e, k);
    NextBalanced(s, e, Only(k));
    InHandHopped(Next(s, e), e.c, k);
  }

  lemma HoppedStep(s: State, e: Event, t: State, k: nat)
    requires Traced(s) && Enabled(s, e) && t == Next(s, e) && k < |s.accepted| && Hopped(s, k)
    ensures k < |t.accepted| && Hopped(t, k)
  {
    NextExtends(s, e);
    NextHopped(s, e, k);
  }

  lemma HoppedOn(es: seq<Event>, ss: seq<State>, i: nat, k: nat)
    requires IsRun(es, ss) && i < |es| && k < |ss[i].accepted| && Hopped(ss[i], k)
    ensures k < |ss[i + 1].accepted| && Hopped(ss[i + 1], k)
  {
    var e := es[i];
    assert Steps(ss[i], e, ss[i + 1]);
    RunTraced(es, ss, i);
    HoppedStep(ss[i], e, ss[i + 1], k);
  }

  lemma {:induction false} HoppedForever(es: seq<Event>, ss: seq<State>, i: nat, j: nat, k: nat)
    requires IsRun(es, ss) && i <= j < |ss| && k < |ss[i].accepted| && Hopped(ss[i], k)
    ensures k < |ss[j].accepted| && Hopped(ss[j], k)
    decreases j
  {
    if i < j {
      HoppedForever(es, ss, i, j - 1, k);
      HoppedOn(es, ss, j - 1, k);
    }
  }

  lemma AfterForward(s: State, e: Event, t: State, k: nat)
    requires Traced(s) && Balanced(s, Only(k)) && Forwards(s, e, k) && Steps(s, e, t)
    ensures k < |t.accepted| && Hopped(t, k)
  {
    ForwardHops(s, e, k);
    NextExtends(s, e);
  }

  lemma NotAgain(s: State, who: nat -> Id, e: Event, k: nat)
    requires Traced(s) && OneId(s, who) && Hopped(s, k)
    ensures !Forwards(s, e, k)
  {
    if Forwards(s, e, k) {
      assert ConnHopped(s, e.c, s.conns[e.c], k);
      ForwardedStops(s, who, e);
    }
  }

  lemma HoppedAfter(es: seq<Event>, ss: seq<State>, i: nat, j: nat, k: nat)
    requires IsRun(es, ss) && i < j < |ss| && Forwards(ss[i], es[i], k)
    ensures Hopped(ss[j], k)
  {
    assert k < |ss[i + 1].accepted| && Hopped(ss[i + 1], k) by {
      assert Traced(ss[i]) && Balanced(ss[i], Only(k)) by {
        RunTraced(es, ss, i);
        RunBalanced(es, ss, i, Only(k));
      }
      var e, t := es[i], ss[i + 1];
      AfterForward(ss[i], e, t, k);
    }
    HoppedForever(es, ss, i + 1, j, k);
  }

  /** In a run with one id per connection no Rsync is forwarded twice, whatever else the clients
      send, whatever entries were replaced and however stale the clones used. */
  lemma ForwardedAtMostOnce(es: seq<Event>, ss: seq<State>, who: nat -> Id, i: nat, j: nat, k: nat)
    requires IsRun(es, ss) && i < j < |es| && OneId(ss[j], who)
    requires Forwards(ss[i], es[i], k)
    ensures !Forwards(ss[j], es[j], k)
  {
    HoppedAfter(es, ss, i, j, k);
    RunTraced(es, ss, j);
    NotAgain(ss[j], who, es[j], k);
  }

  /** In particular in a run with polite clients. */
  lemma PoliteForwardedAtMostOnce(es: seq<Event>, ss: seq<State>, who: nat -> Id, i: nat, j: nat, k: nat)
    requires IsPoliteRun(es, ss, who) && i < j < |es|
    requires Forwards(ss[i], es[i], k)
    ensures !Forwards(ss[j], es[j], k)
  {
    RunPolite(es, ss, who, j);
    PoliteIsOneId(ss[j], who);
    ForwardedAtMostOnce(es, ss, who, i, j, k);
  }
}
