/**
 * What clients that use several ids on one connection can bring about on the TCP server: map entries
 * that outlive their owners, and an Rsync that is forwarded again. Each has its exact condition and a
 * run in which it happens.
 */
module TcpLimits {
  import opened Base
  import opened Messages
  import opened TcpProtocol
  import opened TcpTrace
  import opened TcpProvenance
  import opened TcpRegistry

  // ---- when an Rsync is forwarded again ----

  /** The key connection c registered last, empty if none. */
  function LastKey(log: seq<RegEvent>, c: nat): Id {
    if log == [] then []
    else
      var last := log[|log| - 1];
      if last.Registered? && last.conn == c then last.key else LastKey(log[..|log| - 1], c)
  }

  /** A handler's peer_id is the key it registered last. */
  ghost predicate Named(s: State) {
    forall c: nat :: (c < |s.conns| ==> s.conns[c].peerId == LastKey(s.log, c)) && (c >= |s.conns| ==> LastKey(s.log, c) == [])
  }

  lemma LastKeyAfter(log: seq<RegEvent>, ev: RegEvent, c: nat)
    ensures LastKey(log + [ev], c) == if ev.Registered? && ev.conn == c then ev.key else LastKey(log, c)
  {
    assert (log + [ev])[..|log|] == log;
  }

  lemma InsertNamed(s: State, c: nat, id: Id)
    requires Named(s) && c < |s.conns|
    ensures Named(Insert(s, c, id))
  {
    forall d: nat { LastKeyAfter(s.log, Registered(id, c), d); }
  }

  /** A step that registers nobody. */
  lemma NamedStays(s: State, t: State)
    requires Named(s) && |s.conns| <= |t.conns| && forall c: nat :: LastKey(t.log, c) == LastKey(s.log, c)
    requires forall c :: 0 <= c < |s.conns| ==> t.conns[c].peerId == s.conns[c].peerId
    requires forall c :: |s.conns| <= c < |t.conns| ==> t.conns[c].peerId == []
    ensures Named(t)
  {
  }

  lemma HandleNamed(s: State, c: nat, m: Msg)
    requires Named(s) && c < |s.conns|
    ensures Named(HandleRequest(s, c, m))
  {
    var t := HandleRequest(s, c, m);
    if m.req.cmd == Some(Ping) {
      InsertNamed(s, c, m.req.id);
      NamedStays(Insert(s, c, m.req.id), t);
    } else {
      HandleKeepsRegistry(s, c, m);
      HandleFramed(s, c, m);
      NamedStays(s, t);
    }
  }

  lemma NextNamed(s: State, e: Event)
    requires Named(s) && Enabled(s, e)
    ensures Named(Next(s, e))
  {
    if e.Handle? {
      HandleNamed(s, e.c, s.conns[e.c].stage.m);
    } else if e.Register? {
      InsertNamed(s, e.c, s.conns[e.c].stage.id);
      NamedStays(Insert(s, e.c, s.conns[e.c].stage.id), Next(s, e));
    } else {
      if e.Unregister? {
        forall c: nat { LastKeyAfter(s.log, TornDown(s.conns[e.c].peerId, e.c), c); }
      }
      NamedStays(s, Next(s, e));
    }
  }

  lemma {:induction false} RunNamed(es: seq<Event>, ss: seq<State>, i: nat)
    requires IsRun(es, ss) && i < |ss|
    ensures Named(ss[i])
  {
    if i > 0 {
      RunNamed(es, ss, i - 1);
      NextNamed(ss[i - 1], es[i - 1]);
    }
  }

  /** A forwarded Rsync that comes up for handling is for a handler that has registered the key it
      names; it is forwarded again exactly if that handler has registered another key since and the
      log has the named key present. */
  lemma ForwardedAgainIff(es: seq<Event>, ss: seq<State>, i: nat, j: nat, k: nat, c: nat, dst: Id)
    requires IsRun(es, ss) && i < j < |es| && Forwards(ss[i], es[i], k)
    requires es[j] == Handle(c) && c < |ss[j].conns| && ss[j].conns[c].stage.Handling?
    requires var m := ss[j].conns[c].stage.m; m.ticket == k && m.req.cmd == Some(Rsync(dst))
    ensures Registered(dst, c) in ss[j].log
    ensures Forwards(ss[j], es[j], k) <==> LastKey(ss[j].log, c) != dst && Present(ss[j].log, dst)
  {
    HoppedAfter(es, ss, i, j, k);
    RunNamed(es, ss, j);
    RunMatchesLog(es, ss, j);
    assert KeyMatches(ss[j], dst);
    ReachedRegistrar(ss[j], c, k, dst);
  }

  lemma ReachedRegistrar(s: State, c: nat, k: nat, dst: Id)
    requires Hopped(s, k) && c < |s.conns| && s.conns[c].stage.Handling?
    requires s.conns[c].stage.m.ticket == k && s.conns[c].stage.m.req.cmd == Some(Rsync(dst))
    ensures Registered(dst, c) in s.log
  {
    assert ConnHopped(s, c, s.conns[c], k);
  }

  // ---- runs in which it happens ----

  ghost predicate Reaches(es: seq<Event>, ss: seq<State>, s: State) {
    IsRun(es, ss) && ss[|es|] == s
  }

  /** A run goes on with an enabled event. */
  lemma Go(es: seq<Event>, ss: seq<State>, s: State, e: Event) returns (es': seq<Event>, ss': seq<State>)
    requires Reaches(es, ss, s) && Enabled(s, e)
    ensures es' == es + [e] && ss' == ss + [Next(s, e)] && Reaches(es', ss', Next(s, e))
  {
    es', ss' := es + [e], ss + [Next(s, e)];
    forall i | 0 <= i < |es'| ensures Steps(ss'[i], es'[i], ss'[i + 1]) {
      if i < |es| { assert Steps(ss[i], es[i], ss[i + 1]); }
    }
  }

  /** The only connection registers `id` with a Ping that is answered. */
  lemma PingCycle(es: seq<Event>, ss: seq<State>, s: State, id: Id) returns (es': seq<Event>, ss': seq<State>, t: State)
    requires Reaches(es, ss, s) && |s.conns| == 1 && s.conns[0].queue == [] && s.conns[0].stage == Idle
    ensures |es'| == |es| + 4 && Reaches(es', ss', t)
    ensures |t.conns| == 1 && t.conns[0].queue == [] && t.conns[0].stage == Idle
    ensures t.conns[0].peerId == id && t.conns[0].addr == s.conns[0].addr
    ensures t.peers == Insert(s, 0, id).peers
  {
    var e1 := Enqueue(0, Request(id, Some(Ping)));
    var s1 := Next(s, e1);
    es', ss' := Go(es, ss, s, e1);
    var s2 := Next(s1, Recv(0));
    es', ss' := Go(es', ss', s1, Recv(0));
    var s3 := Next(s2, Handle(0));
    es', ss' := Go(es', ss', s2, Handle(0));
    t := Next(s3, Write(0));
    es', ss' := Go(es', ss', s3, Write(0));
  }

  /** One connection pings under two ids. */
  lemma TwoIds(addr: SocketAddr, a: Id, b: Id) returns (es: seq<Event>, ss: seq<State>, s: State)
    requires a != b
    ensures |es| == 9 && Reaches(es, ss, s)
    ensures |s.conns| == 1 && s.conns[0].queue == [] && s.conns[0].stage == Idle && s.conns[0].peerId == b
    ensures s.peers == map[a := PeerState(1, 0, addr), b := PeerState(1, 0, addr)]
  {
    var s1 := Next(INIT, Accept(addr));
    es, ss := Go([], [INIT], INIT, Accept(addr));
    var s2;
    es, ss, s2 := PingCycle(es, ss, s1, a);
    es, ss, s := PingCycle(es, ss, s2, b);
  }

  /** A connection that has pinged under two ids ends: the entry under the first one stays. */
  lemma StaleEntry(addr: SocketAddr, a: Id, b: Id) returns (es: seq<Event>, ss: seq<State>)
    requires a != b
    ensures IsRun(es, ss) && |es| == 11
    ensures var s := ss[11]; |s.conns| == 1 && Gone(s.conns[0].stage) && a in s.peers && s.peers[a].tx == 0 && b !in s.peers
  {
    var s;
    es, ss, s := TwoIds(addr, a, b);
    var s1 := Next(s, Stop(0));
    es, ss := Go(es, ss, s, Stop(0));
    es, ss := Go(es, ss, s1, Unregister(0));
  }

  /** The only handler holds an Rsync, ticket k, for key `a`: its own entry, but not its peer_id. */
  predicate Circling(s: State, a: Id, k: nat) {
    && |s.conns| == 1 && s.conns[0].queue == [] && s.conns[0].stage.Handling? && s.conns[0].peerId != a
    && s.conns[0].stage.m.ticket == k && s.conns[0].stage.m.req.cmd == Some(Rsync(a))
    && a in s.peers && s.peers[a].tx == 0
  }

  predicate ForwardsAt(es: seq<Event>, ss: seq<State>, i: nat, k: nat) {
    i < |es| && i < |ss| && Forwards(ss[i], es[i], k)
  }

  function Turn(n: nat): nat { 11 + 3 * n }

  /** The handler forwards it to its own queue and takes it off again. */
  lemma OnceRound(es: seq<Event>, ss: seq<State>, s: State, a: Id, k: nat) returns (es': seq<Event>, ss': seq<State>, t: State)
    requires Reaches(es, ss, s) && Circling(s, a, k)
    ensures |es'| == |es| + 3 && es <= es' && ss <= ss' && Reaches(es', ss', t) && Circling(t, a, k)
    ensures ForwardsAt(es', ss', |es|, k)
  {
    var s1 := Next(s, Handle(0));
    es', ss' := Go(es, ss, s, Handle(0));
    var s2 := Next(s1, Send(0));
    es', ss' := Go(es', ss', s1, Send(0));
    t := Next(s2, Recv(0));
    es', ss' := Go(es', ss', s2, Recv(0));
  }

  lemma CirclingStarts(addr: SocketAddr, a: Id, b: Id, src: Id) returns (es: seq<Event>, ss: seq<State>, s: State, k: nat)
    requires a != b
    ensures |es| == 11 && Reaches(es, ss, s) && Circling(s, a, k)
  {
    var s9;
    es, ss, s9 := TwoIds(addr, a, b);
    k := |s9.accepted|;
    var e := Enqueue(0, Request(src, Some(Rsync(a))));
    var s10 := Next(s9, e);
    es, ss := Go(es, ss, s9, e);
    s := Next(s10, Recv(0));
    es, ss := Go(es, ss, s10, Recv(0));
  }

  /** A connection that has pinged under two ids sends one Rsync that names the first: its handler
      finds its own old entry and forwards the request to itself, again and again. For every n there
      is a run in which the request is forwarded n times. */
  lemma {:induction false} ForwardedAgainAndAgain(addr: SocketAddr, a: Id, b: Id, src: Id, n: nat)
    returns (es: seq<Event>, ss: seq<State>, s: State, k: nat)
    requires a != b
    ensures |es| == Turn(n) && Reaches(es, ss, s) && Circling(s, a, k)
    ensures forall i: nat :: i < n ==> ForwardsAt(es, ss, Turn(i), k)
  {
    if n == 0 {
      es, ss, s, k := CirclingStarts(addr, a, b, src);
    } else {
      var es0, ss0, s0;
      es0, ss0, s0, k := ForwardedAgainAndAgain(addr, a, b, src, n - 1);
      es, ss, s := OnceRound(es0, ss0, s0, a, k);
      forall i: nat | i < n ensures ForwardsAt(es, ss, Turn(i), k) {
        if i < n - 1 { assert ForwardsAt(es0, ss0, Turn(i), k); }
      }
    }
  }
}
