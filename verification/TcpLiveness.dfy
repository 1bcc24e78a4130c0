/**
 * Runs of the TCP server with polite clients. One in which two of them meet, as they should; one in
 * which a receiver is gone before it is sent to; and two that show what is not promised even to polite
 * clients: an answer can come too early and be dropped, and two handlers can wait for each other.
 */
module TcpLiveness {
  import opened Base
  import opened Messages
  import opened TcpProtocol
  import opened TcpTrace
  import opened TcpProvenance

  ghost predicate Reaches(es: seq<Event>, ss: seq<State>, s: State, who: nat -> Id) {
    IsPoliteRun(es, ss, who) && ss[|es|] == s
  }

  /** A polite run goes on with an enabled, polite event. */
  lemma Go(es: seq<Event>, ss: seq<State>, s: State, who: nat -> Id, e: Event) returns (es': seq<Event>, ss': seq<State>)
    requires Reaches(es, ss, s, who) && Enabled(s, e) && Polite(s, e, who)
    ensures es' == es + [e] && ss' == ss + [Next(s, e)] && Reaches(es', ss', Next(s, e), who)
  {
    es', ss' := es + [e], ss + [Next(s, e)];
    forall i | 0 <= i < |es'| ensures Steps(ss'[i], es'[i], ss'[i + 1]) && Polite(ss'[i], es'[i], who) {
      if i < |es| { assert Steps(ss[i], es[i], ss[i + 1]) && Polite(ss[i], es[i], who); }
    }
  }

  predicate Free(conn: Conn) {
    conn.queue == [] && conn.stage == Idle
  }

  /** Connection c registers under its id with a Ping that is answered. */
  lemma PingCycle(es: seq<Event>, ss: seq<State>, s: State, who: nat -> Id, c: nat)
    returns (es': seq<Event>, ss': seq<State>, t: State)
    requires Reaches(es, ss, s, who) && c < |s.conns| && Free(s.conns[c]) && who(c) != []
    ensures Reaches(es', ss', t, who) && |t.conns| == |s.conns| && t.conns == s.conns[c := t.conns[c]]
    ensures Free(t.conns[c]) && t.conns[c].peerId == who(c) && t.conns[c].addr == s.conns[c].addr
    ensures t.peers == Insert(s, c, who(c)).peers && t.spent == s.spent && t.lost == s.lost
  {
    var e := Enqueue(c, Request(who(c), Some(Ping)));
    var s1 := Next(s, e);
    es', ss' := Go(es, ss, s, who, e);
    var s2 := Next(s1, Recv(c));
    es', ss' := Go(es', ss', s1, who, Recv(c));
    var s3 := Next(s2, Handle(c));
    es', ss' := Go(es', ss', s2, who, Handle(c));
    t := Next(s3, Write(c));
    es', ss' := Go(es', ss', s3, who, Write(c));
  }

  /** The two clients of the runs below. */
  function TwoClients(t: Id, a: Id): nat -> Id {
    (c: nat) => if c == 0 then t else a
  }

  /** Both are connected, and the first has registered. */
  lemma FirstRegistered(x: SocketAddr, y: SocketAddr, t: Id, a: Id) returns (es: seq<Event>, ss: seq<State>, s: State)
    requires t != []
    ensures Reaches(es, ss, s, TwoClients(t, a)) && s.spent == [] && s.lost == 0
    ensures |s.conns| == 2 && Free(s.conns[0]) && s.conns[0].peerId == t && s.conns[1] == Conn(y, [], [], Idle, [])
    ensures s.peers == map[t := PeerState(1, 0, x)]
  {
    var who := TwoClients(t, a);
    var s1 := Next(INIT, Accept(x));
    es, ss := Go([], [INIT], INIT, who, Accept(x));
    var s2 := Next(s1, Accept(y));
    es, ss := Go(es, ss, s1, who, Accept(y));
    es, ss, s := PingCycle(es, ss, s2, who, 0);
  }

  // ---- an answer that comes too early ----

  /** The Fsync for the second client's Isync is on the first one's queue, and the second client is not
      registered yet. */
  predicate FsyncSent(s: State, t: Id, a: Id) {
    && |s.conns| == 2 && s.spent == []
    && s.conns[0].queue != [] && s.conns[0].queue[1..] == [] && s.conns[0].stage == Idle && s.conns[0].peerId == t
    && s.conns[0].queue[0].req.cmd.Some? && s.conns[0].queue[0].req.cmd.value.Fsync?
    && s.conns[0].queue[0].req.cmd.value.id == a
    && s.conns[1].stage == Registering(a) && s.conns[1].queue == [] && s.conns[1].out == [] && a !in s.peers
  }

  lemma IsyncArrives(x: SocketAddr, y: SocketAddr, t: Id, a: Id) returns (es: seq<Event>, ss: seq<State>, s: State)
    requires t != [] && a != [] && t != a
    ensures Reaches(es, ss, s, TwoClients(t, a)) && FsyncSent(s, t, a)
  {
    var who, s0 := TwoClients(t, a), INIT;
    es, ss, s0 := FirstRegistered(x, y, t, a);
    var e := Enqueue(1, Request(a, Some(Isync(t))));
    var s1 := Next(s0, e);
    es, ss := Go(es, ss, s0, who, e);
    var s2 := Next(s1, Recv(1));
    es, ss := Go(es, ss, s1, who, Recv(1));
    var s3 := Next(s2, Handle(1));
    es, ss := Go(es, ss, s2, who, Handle(1));
    s := Next(s3, Send(1));
    es, ss := Go(es, ss, s3, who, Send(1));
  }

  /** The first client has been written the Fsync. */
  predicate FsyncWritten(s: State, t: Id, a: Id) {
    && |s.conns| == 2 && s.spent == [] && Free(s.conns[0]) && s.conns[0].peerId == t
    && s.conns[0].out != [] && FsyncFor(s.conns[0].out[|s.conns[0].out| - 1], a)
    && s.conns[1].stage == Registering(a) && s.conns[1].queue == [] && s.conns[1].out == [] && a !in s.peers
  }

  lemma FsyncArrives(es: seq<Event>, ss: seq<State>, s: State, t: Id, a: Id)
    returns (es': seq<Event>, ss': seq<State>, s': State)
    requires Reaches(es, ss, s, TwoClients(t, a)) && FsyncSent(s, t, a)
    ensures Reaches(es', ss', s', TwoClients(t, a)) && FsyncWritten(s', t, a)
  {
    var who := TwoClients(t, a);
    var s1 := Next(s, Recv(0));
    es', ss' := Go(es, ss, s, who, Recv(0));
    var s2 := Next(s1, Handle(0));
    es', ss' := Go(es', ss', s1, who, Handle(0));
    s' := Next(s2, Write(0));
    es', ss' := Go(es', ss', s2, who, Write(0));
  }

  /** A polite run in which the target's answer is dropped: the Fsync is sent before the source is
      registered, and the Rsync comes back in between. What is left is a source about to register, to
      which nothing has been written and nothing is under way. */
  lemma FastRsyncDropped(x: SocketAddr, y: SocketAddr, t: Id, a: Id) returns (es: seq<Event>, ss: seq<State>, k: nat)
    requires t != [] && a != [] && t != a
    ensures IsPoliteRun(es, ss, TwoClients(t, a))
    ensures var s := ss[|es|];
            && |s.conns| == 2 && Free(s.conns[0]) && s.spent == [k]
            && k < |s.accepted| && s.accepted[k] == Accepted(0, Request(t, Some(Rsync(a))))
            && s.conns[1].stage == Registering(a) && s.conns[1].queue == [] && s.conns[1].out == []
  {
    var who, s := TwoClients(t, a), INIT;
    es, ss, s := IsyncArrives(x, y, t, a);
    es, ss, s := FsyncArrives(es, ss, s, t, a);
    k := |s.accepted|;
    var e := Enqueue(0, Request(t, Some(Rsync(a))));
    assert GotFsync(s, 0, a);
    var s1 := Next(s, e);
    es, ss := Go(es, ss, s, who, e);
    var s2 := Next(s1, Recv(0));
    es, ss := Go(es, ss, s1, who, Recv(0));
    es, ss := Go(es, ss, s2, who, Handle(0));
  }

  // ---- two handlers that wait for each other ----

  /** Two handlers are each sending to the other's full queue. */
  predicate Stuck(s: State, c: nat, d: nat) {
    && c < |s.conns| && d < |s.conns| && c != d
    && s.conns[c].stage.Sending? && s.conns[c].stage.peer.tx == d && |s.conns[c].queue| == QUEUE_LIMIT
    && s.conns[d].stage.Sending? && s.conns[d].stage.peer.tx == c && |s.conns[d].queue| == QUEUE_LIMIT
  }

  /** Neither handler can do anything, nor can its queue take another request. */
  lemma StuckIsStuck(s: State, c: nat, d: nat, e: Event)
    requires Stuck(s, c, d) && Enabled(s, e) && !e.Accept? && (e.c == c || e.c == d)
    ensures e.Stop?
  {
  }

  lemma StuckStays(s: State, e: Event, c: nat, d: nat)
    requires Stuck(s, c, d) && Enabled(s, e) && e != Stop(c) && e != Stop(d)
    ensures Stuck(Next(s, e), c, d)
  {
    if !e.Accept? {
      assert e.c != c && e.c != d;
      if e.Handle? {
        HandleFramed(s, e.c, s.conns[e.c].stage.m);
      }
    }
  }

  /** Nothing else that happens gets them out of it: only the end of one of the connections does. */
  lemma {:induction false} StuckForGood(es: seq<Event>, ss: seq<State>, i: nat, j: nat, c: nat, d: nat)
    requires IsRun(es, ss) && i <= j < |ss| && Stuck(ss[i], c, d)
    requires forall n :: i <= n < j ==> es[n] != Stop(c) && es[n] != Stop(d)
    ensures Stuck(ss[j], c, d)
    decreases j
  {
    if i < j {
      StuckForGood(es, ss, i, j - 1, c, d);
      var e := es[j - 1];
      assert Steps(ss[j - 1], e, ss[j]);
      StuckStays(ss[j - 1], e, c, d);
    }
  }

  /** Pings pile up on a connection's queue. */
  lemma {:induction false} Fill(es: seq<Event>, ss: seq<State>, s: State, who: nat -> Id, c: nat, n: nat)
    returns (es': seq<Event>, ss': seq<State>, t: State)
    requires Reaches(es, ss, s, who) && c < |s.conns| && Live(s.conns[c].stage) && who(c) != []
    requires |s.conns[c].queue| + n <= QUEUE_LIMIT
    ensures Reaches(es', ss', t, who) && |t.conns| == |s.conns|
    ensures t.conns == s.conns[c := s.conns[c].(queue := t.conns[c].queue)]
    ensures |t.conns[c].queue| == |s.conns[c].queue| + n
    decreases n
  {
    if n == 0 {
      es', ss', t := es, ss, s;
    } else {
      var e := Enqueue(c, Request(who(c), Some(Ping)));
      var s1 := Next(s, e);
      es', ss' := Go(es, ss, s, who, e);
      es', ss', t := Fill(es', ss', s1, who, c, n - 1);
    }
  }

  /** Both clients have registered and asked for each other, and both handlers are sending the Fsync. */
  lemma BothSending(x: SocketAddr, y: SocketAddr, t: Id, a: Id) returns (es: seq<Event>, ss: seq<State>, s: State)
    requires t != [] && a != [] && t != a
    ensures Reaches(es, ss, s, TwoClients(t, a)) && |s.conns| == 2
    ensures s.conns[0].stage.Sending? && s.conns[0].stage.peer.tx == 1 && s.conns[0].queue == []
    ensures s.conns[1].stage.Sending? && s.conns[1].stage.peer.tx == 0 && s.conns[1].queue == []
  {
    var who, s0 := TwoClients(t, a), INIT;
    es, ss, s0 := FirstRegistered(x, y, t, a);
    es, ss, s0 := PingCycle(es, ss, s0, who, 1);
    assert s0.peers[t].tx == 0 && s0.peers[a].tx == 1;
    es, ss, s0 := StartsSending(es, ss, s0, who, 0, a);
    es, ss, s := StartsSending(es, ss, s0, who, 1, t);
  }

  /** The client of connection c asks for a registered target, and its handler looks it up. */
  lemma StartsSending(es: seq<Event>, ss: seq<State>, s: State, who: nat -> Id, c: nat, target: Id)
    returns (es': seq<Event>, ss': seq<State>, t: State)
    requires Reaches(es, ss, s, who) && c < |s.conns| && Free(s.conns[c]) && who(c) != [] && target in s.peers
    ensures Reaches(es', ss', t, who) && |t.conns| == |s.conns| && t.conns == s.conns[c := t.conns[c]] && t.peers == s.peers
    ensures t.conns[c].stage == Sending(s.peers[target], Msg(|s.accepted|, Request([], Some(Fsync(who(c), s.conns[c].addr)))), Some(who(c)))
    ensures t.conns[c].queue == [] && t.conns[c].out == s.conns[c].out && t.conns[c].addr == s.conns[c].addr
    ensures t.spent == s.spent && t.lost == s.lost
  {
    var e := Enqueue(c, Request(who(c), Some(Isync(target))));
    var s1 := Next(s, e);
    es', ss' := Go(es, ss, s, who, e);
    var s2 := Next(s1, Recv(c));
    es', ss' := Go(es', ss', s1, who, Recv(c));
    t := Next(s2, Handle(c));
    es', ss' := Go(es', ss', s2, who, Handle(c));
  }

  /** A polite run that ends with two handlers waiting for each other. */
  lemma HandlersStuck(x: SocketAddr, y: SocketAddr, t: Id, a: Id) returns (es: seq<Event>, ss: seq<State>)
    requires t != [] && a != [] && t != a
    ensures IsPoliteRun(es, ss, TwoClients(t, a)) && Stuck(ss[|es|], 0, 1)
    ensures |ss[|es|].conns[0].queue| == |ss[|es|].conns[1].queue| == 10
  {
    var who, s := TwoClients(t, a), INIT;
    es, ss, s := BothSending(x, y, t, a);
    es, ss, s := Fill(es, ss, s, who, 0, QUEUE_LIMIT);
    es, ss, s := Fill(es, ss, s, who, 1, QUEUE_LIMIT);
  }

  // ---- as it should be ----

  /** Both clients are registered and the Fsync for the second one's Isync is on the first one's queue. */
  predicate Introduced(s: State, t: Id, a: Id, x: SocketAddr) {
    && |s.conns| == 2 && s.spent == []
    && s.conns[0].queue != [] && s.conns[0].queue[1..] == [] && s.conns[0].stage == Idle && s.conns[0].peerId == t
    && s.conns[0].queue[0].req.cmd.Some? && s.conns[0].queue[0].req.cmd.value.Fsync?
    && s.conns[0].queue[0].req.cmd.value.id == a
    && Free(s.conns[1]) && s.conns[1].out == [] && s.conns[1].peerId == a
    && t in s.peers && s.peers[t].addr == x && a in s.peers && s.peers[a].tx == 1
  }

  lemma Introduce(x: SocketAddr, y: SocketAddr, t: Id, a: Id) returns (es: seq<Event>, ss: seq<State>, s: State)
    requires t != [] && a != [] && t != a
    ensures Reaches(es, ss, s, TwoClients(t, a)) && Introduced(s, t, a, x)
  {
    var who, s0 := TwoClients(t, a), INIT;
    es, ss, s0 := FirstRegistered(x, y, t, a);
    es, ss, s0 := StartsSending(es, ss, s0, who, 1, t);
    var s1 := Next(s0, Send(1));
    es, ss := Go(es, ss, s0, who, Send(1));
    s := Next(s1, Register(1));
    es, ss := Go(es, ss, s1, who, Register(1));
  }

  /** The first client has the Fsync; all is quiet. */
  predicate Informed(s: State, t: Id, a: Id, x: SocketAddr) {
    && |s.conns| == 2 && s.spent == [] && Free(s.conns[0]) && s.conns[0].peerId == t
    && s.conns[0].out != [] && FsyncFor(s.conns[0].out[|s.conns[0].out| - 1], a)
    && Free(s.conns[1]) && s.conns[1].out == [] && s.conns[1].peerId == a
    && t in s.peers && s.peers[t].addr == x && a in s.peers && s.peers[a].tx == 1
  }

  lemma Inform(es: seq<Event>, ss: seq<State>, s: State, t: Id, a: Id, x: SocketAddr)
    returns (es': seq<Event>, ss': seq<State>, s': State)
    requires Reaches(es, ss, s, TwoClients(t, a)) && Introduced(s, t, a, x)
    ensures Reaches(es', ss', s', TwoClients(t, a)) && Informed(s', t, a, x)
  {
    var who := TwoClients(t, a);
    var s1 := Next(s, Recv(0));
    es', ss' := Go(es, ss, s, who, Recv(0));
    var s2 := Next(s1, Handle(0));
    es', ss' := Go(es', ss', s1, who, Handle(0));
    s' := Next(s2, Write(0));
    es', ss' := Go(es', ss', s2, who, Write(0));
  }

  /** The first client's Rsync is on the second one's queue. */
  predicate Answered(s: State, t: Id, a: Id, x: SocketAddr) {
    && |s.conns| == 2 && s.spent == [] && Free(s.conns[0])
    && s.conns[1].queue != [] && s.conns[1].queue[1..] == [] && s.conns[1].queue[0].req == Request(t, Some(Rsync(a)))
    && s.conns[1].stage == Idle && s.conns[1].out == [] && s.conns[1].peerId == a
    && t in s.peers && s.peers[t].addr == x
  }

  lemma Answer(es: seq<Event>, ss: seq<State>, s: State, t: Id, a: Id, x: SocketAddr)
    returns (es': seq<Event>, ss': seq<State>, s': State)
    requires Reaches(es, ss, s, TwoClients(t, a)) && Informed(s, t, a, x) && t != a && t != []
    ensures Reaches(es', ss', s', TwoClients(t, a)) && Answered(s', t, a, x)
  {
    var who := TwoClients(t, a);
    var e := Enqueue(0, Request(t, Some(Rsync(a))));
    assert GotFsync(s, 0, a);
    var s1 := Next(s, e);
    es', ss' := Go(es, ss, s, who, e);
    var s2 := Next(s1, Recv(0));
    es', ss' := Go(es', ss', s1, who, Recv(0));
    var s3 := Next(s2, Handle(0));
    es', ss' := Go(es', ss', s2, who, Handle(0));
    s' := Next(s3, Send(0));
    es', ss' := Go(es', ss', s3, who, Send(0));
  }

  /** Any two polite clients can meet: a run in which the second asks for the first and is written one
      response, the first one's observed address, with nothing discarded on the way. */
  lemma Meeting(x: SocketAddr, y: SocketAddr, t: Id, a: Id) returns (es: seq<Event>, ss: seq<State>)
    requires t != [] && a != [] && t != a
    ensures IsPoliteRun(es, ss, TwoClients(t, a))
    ensures var s := ss[|es|];
            && |s.conns| == 2 && s.spent == [] && Free(s.conns[0]) && Free(s.conns[1])
            && |s.conns[1].out| == 1 && s.conns[1].out[0].resp == Response([], Some(Redirect(t, x)))
  {
    var who, s := TwoClients(t, a), INIT;
    es, ss, s := Introduce(x, y, t, a);
    es, ss, s := Inform(es, ss, s, t, a, x);
    es, ss, s := Answer(es, ss, s, t, a, x);
    var s1 := Next(s, Recv(1));
    es, ss := Go(es, ss, s, who, Recv(1));
    var s2 := Next(s1, Handle(1));
    es, ss := Go(es, ss, s1, who, Handle(1));
    es, ss := Go(es, ss, s2, who, Write(1));
  }

  // ---- a receiver that is gone ----

  /** The first client's connection ends: its handler is cancelled, unregistered and dropped. */
  lemma FirstGone(es: seq<Event>, ss: seq<State>, s: State, who: nat -> Id)
    returns (es': seq<Event>, ss': seq<State>, s': State)
    requires Reaches(es, ss, s, who) && |s.conns| == 2 && Free(s.conns[0]) && s.peers.Keys == {s.conns[0].peerId}
    requires s.peers[s.conns[0].peerId].id == 1
    ensures Reaches(es', ss', s', who) && es' == es + [Stop(0), Unregister(0), Drop(0)]
    ensures |s'.conns| == 2 && s'.conns[1] == s.conns[1] && s'.conns[0].queue == [] && s'.conns[0].stage.Closed?
    ensures s'.peers.Keys == {} && s'.spent == s.spent && s'.lost == s.lost
  {
    var s1 := Next(s, Stop(0));
    es', ss' := Go(es, ss, s, who, Stop(0));
    var s2 := Next(s1, Unregister(0));
    es', ss' := Go(es', ss', s1, who, Unregister(0));
    s' := Next(s2, Drop(0));
    es', ss' := Go(es', ss', s2, who, Drop(0));
  }

  /** The target's connection ends and its receiver is dropped while the source's handler holds a clone of
      its entry: the send is over at once, the Fsync is discarded, and the handler goes on. */
  lemma ReceiverGone(x: SocketAddr, y: SocketAddr, t: Id, a: Id) returns (es: seq<Event>, ss: seq<State>)
    requires t != [] && a != [] && t != a
    ensures IsPoliteRun(es, ss, TwoClients(t, a)) && Drop(0) in es
    ensures var s := ss[|es|];
            && |s.conns| == 2 && |s.spent| == 1 && s.lost == 1 && s.conns[0].queue == []
            && Free(s.conns[1]) && s.conns[1].peerId == a && s.peers.Keys == {a}
  {
    var who, s := TwoClients(t, a), INIT;
    es, ss, s := FirstRegistered(x, y, t, a);
    es, ss, s := StartsSending(es, ss, s, who, 1, t);
    es, ss, s := FirstGone(es, ss, s, who);
    assert es[|es| - 1] == Drop(0);
    var s4 := Next(s, Send(1));
    es, ss := Go(es, ss, s, who, Send(1));
    es, ss := Go(es, ss, s4, who, Register(1));
  }
}
