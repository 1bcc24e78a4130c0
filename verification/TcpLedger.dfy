/**
 * Conservation on the TCP server: every accepted request is at every moment in exactly one place,
 * a queue, a handler, a written reply, or the list of spent requests. Stated once for every way of
 * weighing tickets, from which the counts of each kind of message follow.
 */
module TcpLedger {
  import opened Base
  import opened Messages
  import opened Sequences
  import opened TcpProtocol
  import opened TcpTrace

  type Weight = nat -> nat

  function OutTickets(out: seq<Reply>): seq<nat> {
    if out == [] then [] else [out[0].ticket] + OutTickets(out[1..])
  }

  /** What one connection holds: waiting, in hand, and answered. */
  function ConnSum(conn: Conn, w: Weight): nat {
    Total(w, QueueTickets(conn.queue)) + Total(w, StageTickets(conn.stage)) + Total(w, OutTickets(conn.out))
  }

  function Holding(w: Weight): Conn -> nat {
    (conn: Conn) => ConnSum(conn, w)
  }

  /** The weight of the first n tickets. */
  function Issued(n: nat, w: Weight): nat {
    if n == 0 then 0 else Issued(n - 1, w) + w(n - 1)
  }

  ghost predicate Balanced(s: State, w: Weight) {
    Total(Holding(w), s.conns) + Total(w, s.spent) == Issued(|s.accepted|, w)
  }

  // ---- tickets ----

  lemma {:induction false} QueueSnoc(q: seq<Msg>, m: Msg)
    ensures QueueTickets(q + [m]) == QueueTickets(q) + [m.ticket]
  {
    if q != [] {
      assert (q + [m])[1..] == q[1..] + [m];
      QueueSnoc(q[1..], m);
    }
  }

  lemma {:induction false} OutSnoc(out: seq<Reply>, r: Reply)
    ensures OutTickets(out + [r]) == OutTickets(out) + [r.ticket]
  {
    if out != [] {
      assert (out + [r])[1..] == out[1..] + [r];
      OutSnoc(out[1..], r);
    }
  }

  // ---- the invariant ----

  /** The stage moves on with the same tickets. */
  lemma StageKept(s: State, c: nat, t: State, w: Weight)
    requires Balanced(s, w) && c < |s.conns| && c < |t.conns|
    requires t.conns == s.conns[c := t.conns[c]] && t.spent == s.spent && t.accepted == s.accepted
    requires t.conns[c].queue == s.conns[c].queue && t.conns[c].out == s.conns[c].out
    requires StageTickets(t.conns[c].stage) == StageTickets(s.conns[c].stage)
    ensures Balanced(t, w)
  {
    TotalUpdate(Holding(w), s.conns, c, t.conns[c]);
  }

  /** The stage's tickets are handed in. */
  lemma StageSpent(s: State, c: nat, t: State, w: Weight)
    requires Balanced(s, w) && c < |s.conns| && c < |t.conns|
    requires t.conns == s.conns[c := t.conns[c]] && t.accepted == s.accepted
    requires t.spent == s.spent + StageTickets(s.conns[c].stage)
    requires t.conns[c].queue == s.conns[c].queue && t.conns[c].out == s.conns[c].out
    requires StageTickets(t.conns[c].stage) == []
    ensures Balanced(t, w)
  {
    TotalUpdate(Holding(w), s.conns, c, t.conns[c]);
    TotalConcat(w, s.spent, StageTickets(s.conns[c].stage));
  }

  lemma IsyncBalanced(s: State, c: nat, m: Msg, dst: Id, w: Weight)
    requires Balanced(s, w) && c < |s.conns| && s.conns[c].stage == Handling(m)
    ensures Balanced(HandleIsync(s, c, m.ticket, m.req.id, dst), w)
  {
    StageKept(s, c, HandleIsync(s, c, m.ticket, m.req.id, dst), w);
  }

  lemma RsyncBalanced(s: State, c: nat, m: Msg, dst: Id, w: Weight)
    requires Balanced(s, w) && c < |s.conns| && s.conns[c].stage == Handling(m)
    ensures Balanced(HandleRsync(s, c, m.ticket, m.req.id, dst), w)
  {
    var t := HandleRsync(s, c, m.ticket, m.req.id, dst);
    if t.conns[c].stage.Idle? {
      StageSpent(s, c, t, w);
    } else {
      StageKept(s, c, t, w);
    }
  }

  lemma HandleBalanced(s: State, c: nat, m: Msg, w: Weight)
    requires Balanced(s, w) && c < |s.conns| && s.conns[c].stage == Handling(m)
    ensures Balanced(HandleRequest(s, c, m), w)
  {
    match m.req.cmd {
      case Some(Ping) => StageKept(s, c, HandlePing(s, c, m.ticket, m.req.id), w);
      case Some(Isync(dst)) => IsyncBalanced(s, c, m, dst, w);
      case Some(Fsync(id, addr)) => StageKept(s, c, WithStage(s, c, NewReply(m.ticket, FsyncResp(id, addr))), w);
      case Some(Rsync(dst)) => RsyncBalanced(s, c, m, dst, w);
      case _ => StageSpent(s, c, Spend(WithStage(s, c, Stopped), [m.ticket], 0), w);
    }
  }

  lemma DeliverWeight(s: State, tx: nat, m: Msg, w: Weight)
    requires tx < |s.conns| && !s.conns[tx].stage.Closed?
    ensures Total(Holding(w), Deliver(s, tx, m).conns) == Total(Holding(w), s.conns) + w(m.ticket)
  {
    var d := Deliver(s, tx, m);
    TotalUpdate(Holding(w), s.conns, tx, d.conns[tx]);
    QueueSnoc(s.conns[tx].queue, m);
    TotalConcat(w, QueueTickets(s.conns[tx].queue), [m.ticket]);
    assert Total(w, [m.ticket]) == w(m.ticket);
  }

  lemma SendBalanced(s: State, c: nat, w: Weight)
    requires Balanced(s, w) && Enabled(s, Send(c))
    ensures Balanced(Next(s, Send(c)), w)
  {
    var Sending(peer, m, register) := s.conns[c].stage;
    var t := Next(s, Send(c));
    if s.conns[peer.tx].stage.Closed? {
      StageSpent(s, c, t, w);
    } else {
      var d := Deliver(s, peer.tx, m);
      DeliverWeight(s, peer.tx, m, w);
      TotalUpdate(Holding(w), d.conns, c, t.conns[c]);
      assert Total(w, [m.ticket]) == w(m.ticket);
    }
  }

  lemma EnqueueBalanced(s: State, c: nat, req: Request, w: Weight)
    requires Balanced(s, w) && Enabled(s, Enqueue(c, req))
    ensures Balanced(Next(s, Enqueue(c, req)), w)
  {
    var t := Next(s, Enqueue(c, req));
    var m := Msg(|s.accepted|, req);
    TotalUpdate(Holding(w), s.conns, c, t.conns[c]);
    QueueSnoc(s.conns[c].queue, m);
    TotalConcat(w, QueueTickets(s.conns[c].queue), [m.ticket]);
    assert Total(w, [m.ticket]) == w(m.ticket);
  }

  lemma RecvBalanced(s: State, c: nat, w: Weight)
    requires Balanced(s, w) && Enabled(s, Recv(c))
    ensures Balanced(Next(s, Recv(c)), w)
  {
    var first := s.conns[c].queue[0];
    TotalUpdate(Holding(w), s.conns, c, Next(s, Recv(c)).conns[c]);
    assert Total(w, [first.ticket]) == w(first.ticket);
  }

  lemma WriteBalanced(s: State, c: nat, w: Weight)
    requires Balanced(s, w) && Enabled(s, Write(c))
    ensures Balanced(Next(s, Write(c)), w)
  {
    var reply := s.conns[c].stage.reply;
    TotalUpdate(Holding(w), s.conns, c, Next(s, Write(c)).conns[c]);
    OutSnoc(s.conns[c].out, reply);
    TotalConcat(w, OutTickets(s.conns[c].out), [reply.ticket]);
  }

  lemma DropBalanced(s: State, c: nat, w: Weight)
    requires Balanced(s, w) && Enabled(s, Drop(c))
    ensures Balanced(Next(s, Drop(c)), w)
  {
    TotalUpdate(Holding(w), s.conns, c, Next(s, Drop(c)).conns[c]);
    TotalConcat(w, s.spent, QueueTickets(s.conns[c].queue));
  }

  lemma NextBalanced(s: State, e: Event, w: Weight)
    requires Balanced(s, w) && Enabled(s, e)
    ensures Balanced(Next(s, e), w)
  {
    if e.Accept? {
      TotalSnoc(Holding(w), s.conns, Conn(e.addr, [], [], Idle, []));
    } else if e.Enqueue? {
      EnqueueBalanced(s, e.c, e.req, w);
    } else if e.Recv? {
      RecvBalanced(s, e.c, w);
    } else if e.Handle? {
      HandleBalanced(s, e.c, s.conns[e.c].stage.m, w);
    } else if e.Send? {
      SendBalanced(s, e.c, w);
    } else if e.Write? {
      WriteBalanced(s, e.c, w);
    } else if e.Stop? {
      StageSpent(s, e.c, Next(s, e), w);
    } else if e.Drop? {
      DropBalanced(s, e.c, w);
    } else {
      StageKept(s, e.c, Next(s, e), w);
    }
  }

  /** The books balance in every state of every run, under every weight. */
  lemma {:induction false} RunBalanced(es: seq<Event>, ss: seq<State>, i: nat, w: Weight)
    requires IsRun(es, ss) && i < |ss|
    ensures Balanced(ss[i], w)
  {
    if i > 0 {
      RunBalanced(es, ss, i - 1, w);
      NextBalanced(ss[i - 1], es[i - 1], w);
    }
  }

  // ---- what the books say ----

  /** Weighs one ticket. */
  function Only(k: nat): Weight {
    (t: nat) => if t == k then 1 else 0
  }

  lemma {:induction false} IssuedOnly(n: nat, k: nat)
    ensures Issued(n, Only(k)) == if k < n then 1 else 0
  {
    if n > 0 {
      IssuedOnly(n - 1, k);
    }
  }

  /** No message is lost or duplicated: a ticket that was issued is in exactly one place. */
  lemma ExactlyOnce(es: seq<Event>, ss: seq<State>, i: nat, k: nat)
    requires IsRun(es, ss) && i < |ss|
    ensures Total(Holding(Only(k)), ss[i].conns) + Total(Only(k), ss[i].spent) == if k < |ss[i].accepted| then 1 else 0
  {
    RunBalanced(es, ss, i, Only(k));
    IssuedOnly(|ss[i].accepted|, k);
  }

  datatype Kind = Isyncs | Rsyncs

  predicate OfKind(req: Request, kind: Kind) {
    req.cmd.Some? && match kind case Isyncs => req.cmd.value.Isync? case Rsyncs => req.cmd.value.Rsync?
  }

  /** Weighs the tickets of the client requests of one kind. */
  function Counting(accepted: seq<Accepted>, kind: Kind): Weight {
    (t: nat) => if t < |accepted| && OfKind(accepted[t].req, kind) then 1 else 0
  }

  /** The number of accepted client requests of a kind. */
  function Accepteds(accepted: seq<Accepted>, kind: Kind): nat {
    if accepted == [] then 0
    else Accepteds(accepted[..|accepted| - 1], kind) + if OfKind(accepted[|accepted| - 1].req, kind) then 1 else 0
  }

  /** The tickets not yet answered: on queues and in handlers' hands. */
  function Pending(conns: seq<Conn>, w: Weight): nat {
    if conns == [] then 0
    else Total(w, QueueTickets(conns[0].queue)) + Total(w, StageTickets(conns[0].stage)) + Pending(conns[1..], w)
  }

  /** The answer to an Rsync is a Redirect with an address; to an Isync, a Redirect without one or
      an Fsync written to the target. */
  predicate Answers(r: Reply, kind: Kind) {
    r.resp.cmd.Some? && match r.resp.cmd.value
                        case Pong => false
                        case Redirect(_, addr) => (addr == []) == (kind == Isyncs)
                        case FsyncResp(_, _) => kind == Isyncs
  }

  function WrittenOn(out: seq<Reply>, kind: Kind): nat {
    if out == [] then 0 else (if Answers(out[0], kind) then 1 else 0) + WrittenOn(out[1..], kind)
  }

  function Written(conns: seq<Conn>, kind: Kind): nat {
    if conns == [] then 0 else WrittenOn(conns[0].out, kind) + Written(conns[1..], kind)
  }

  predicate NoClientFsync(s: State) {
    forall k :: 0 <= k < |s.accepted| ==> !(s.accepted[k].req.cmd.Some? && s.accepted[k].req.cmd.value.Fsync?)
  }

  lemma {:induction false} IssuedCounting(accepted: seq<Accepted>, n: nat, kind: Kind)
    requires n <= |accepted|
    ensures Issued(n, Counting(accepted, kind)) == Accepteds(accepted[..n], kind)
  {
    if n > 0 {
      assert accepted[..n][..n - 1] == accepted[..n - 1];
      IssuedCounting(accepted, n - 1, kind);
    }
  }

  lemma {:induction false} WrittenWeight(s: State, c: nat, out: seq<Reply>, kind: Kind)
    requires forall i :: 0 <= i < |out| ==> Faithful(s, c, out[i])
    requires kind == Isyncs ==> NoClientFsync(s)
    ensures Total(Counting(s.accepted, kind), OutTickets(out)) == WrittenOn(out, kind)
  {
    if out != [] {
      assert Faithful(s, c, out[0]);
      assert forall i :: 0 <= i < |out[1..]| ==> out[1..][i] == out[i + 1];
      WrittenWeight(s, c, out[1..], kind);
    }
  }

  lemma {:induction false} SplitSum(s: State, n: nat, kind: Kind)
    requires Traced(s) && n <= |s.conns|
    requires kind == Isyncs ==> NoClientFsync(s)
    ensures Total(Holding(Counting(s.accepted, kind)), s.conns[n..]) ==
            Pending(s.conns[n..], Counting(s.accepted, kind)) + Written(s.conns[n..], kind)
    decreases |s.conns| - n
  {
    if n < |s.conns| {
      assert ConnTraced(s, n, s.conns[n]);
      WrittenWeight(s, n, s.conns[n].out, kind);
      assert s.conns[n..][1..] == s.conns[n + 1..];
      SplitSum(s, n + 1, kind);
    }
  }

  /** Conservation by kind, over every run: the accepted Rsyncs are the Redirects with an address
      that were written, plus those still pending, plus those spent; the accepted Isyncs likewise,
      with Fsyncs and empty Redirects for answers, if no client sends an Fsync itself. */
  lemma Conservation(es: seq<Event>, ss: seq<State>, i: nat, kind: Kind)
    requires IsRun(es, ss) && i < |ss|
    requires kind == Isyncs ==> NoClientFsync(ss[i])
    ensures var s := ss[i];
            var w := Counting(s.accepted, kind);
            Accepteds(s.accepted, kind) == Written(s.conns, kind) + Pending(s.conns, w) + Total(w, s.spent)
    ensures forall c :: 0 <= c < |ss[i].conns| ==> |ss[i].conns[c].queue| <= 10
  {
    var s := ss[i];
    RunTraced(es, ss, i);
    RunBalanced(es, ss, i, Counting(s.accepted, kind));
    IssuedCounting(s.accepted, |s.accepted|, kind);
    assert s.accepted[..|s.accepted|] == s.accepted && s.conns[0..] == s.conns;
    SplitSum(s, 0, kind);
    forall c | 0 <= c < |s.conns| ensures |s.conns[c].queue| <= QUEUE_LIMIT { assert ConnTraced(s, c, s.conns[c]); }
  }

  lemma {:induction false} QueueTicketAt(q: seq<Msg>, i: nat)
    requires i < |q|
    ensures |QueueTickets(q)| == |q| && QueueTickets(q)[i] == q[i].ticket
  {
    QueueLength(q);
    if i > 0 {
      QueueTicketAt(q[1..], i - 1);
    }
  }

  lemma {:induction false} QueueLength(q: seq<Msg>)
    ensures |QueueTickets(q)| == |q|
  {
    if q != [] {
      QueueLength(q[1..]);
    }
  }

  /** While one handler has a ticket in hand, it is nowhere else. */
  lemma InHandNowhereElse(s: State, c: nat, k: nat, d: nat)
    requires Balanced(s, Only(k)) && c < |s.conns| && StageTickets(s.conns[c].stage) == [k] && d < |s.conns|
    ensures forall i :: 0 <= i < |s.conns[d].queue| ==> s.conns[d].queue[i].ticket != k
    ensures d != c ==> StageTickets(s.conns[d].stage) != [k]
  {
    var w := Only(k);
    IssuedOnly(|s.accepted|, k);
    assert Total(w, [k]) == 1;
    TotalHas(Holding(w), s.conns, c);
    if d < c { TotalHasTwo(Holding(w), s.conns, d, c); } else if c < d { TotalHasTwo(Holding(w), s.conns, c, d); }
    forall i | 0 <= i < |s.conns[d].queue| ensures s.conns[d].queue[i].ticket != k {
      QueueTicketAt(s.conns[d].queue, i);
      TotalHas(w, QueueTickets(s.conns[d].queue), i);
    }
  }
}
