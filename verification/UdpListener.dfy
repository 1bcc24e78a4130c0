/**
 * src/udp/client.rs: the event loop that Listener::listen spawns.
 */
module UdpListener {
  import opened Base
  import opened Messages
  import opened UdpRegistry
  import opened UdpNetwork
  import opened UdpPoll
  import opened Sequences

  const KEEPALIVE: Time := 10 * SECOND

  /** The jitter added to a ping's time stamp is below half the interval. */
  const JITTER: Time := KEEPALIVE / 2

  /** The readings of the clock around one server's ping in one pass of the loop: the check whether
      it is due, the send, and the stamp, to which the jitter is added. Without a ping the last two
      are not made. */
  datatype Turn = Turn(checked: Time, sent: Time, stamped: Time, jitter: Time)

  /** A stamp may lie in the future, and elapsed() is then zero. */
  predicate Due(pingTime: Option<Time>, t: Turn) {
    pingTime == None || t.checked > pingTime.value + KEEPALIVE
  }

  function AfterTurn(pingTime: Option<Time>, t: Turn): Option<Time> {
    if Due(pingTime, t) then Some(t.stamped + t.jitter) else pingTime
  }

  /** What recv on a ready socket can yield. */
  datatype Recv = WouldBlock | RecvError | Garbled | Received(resp: Response)

  /** A datagram on the socket of server i: to the server, or to a peer. */
  datatype Sent = Sent(i: nat, req: Request, peer: Option<SocketAddr>)

  /** The reaction to what one socket yields: an Fsync for this listener is answered to the server
      and, if its address parses, to the peer. */
  function Answers(my: Id, parse: AddrParser, i: nat, recv: Recv): seq<Sent> {
    if recv.Received? && Reaction(my, recv.resp).Some? then
      var rsync := Reaction(my, recv.resp).value;
      var addr := parse(recv.resp.cmd.value.addr);
      [Sent(i, rsync, None)] + if addr.Some? then [Sent(i, rsync, addr)] else []
    else []
  }

  predicate IsPong(my: Id, recv: Recv) {
    recv.Received? && recv.resp.id == my && recv.resp.cmd == Some(Pong)
  }

  /** The pings of one pass to the first n servers. */
  function PingsBelow(my: Id, pingTimes: seq<Option<Time>>, turns: seq<Turn>, n: nat): seq<Sent>
    requires n <= |turns| == |pingTimes|
  {
    if n == 0 then []
    else PingsBelow(my, pingTimes, turns, n - 1)
         + if Due(pingTimes[n - 1], turns[n - 1]) then [Sent(n - 1, Request(my, Some(Ping)), None)] else []
  }

  /** The answers of one pass through the first n sockets. */
  function AnswersBelow(my: Id, parse: AddrParser, ready: seq<bool>, recvs: seq<Recv>, n: nat): seq<Sent>
    requires n <= |ready| == |recvs|
  {
    if n == 0 then []
    else AnswersBelow(my, parse, ready, recvs, n - 1)
         + if ready[n - 1] then Answers(my, parse, n - 1, recvs[n - 1]) else []
  }

  /** One pass of the loop: each server's turn, the outcome of the poll, what a recv on each socket
      would yield after it, and the reading of the clock if that is a Pong. */
  datatype Pass = Pass(turns: seq<Turn>, report: seq<Report>, outcome: Option<nat>, recvs: seq<Recv>, nows: seq<Time>)

  predicate PassFor(p: Pass, n: nat) {
    && |p.turns| == n && |p.report| == n && |p.recvs| == n && |p.nows| == n
    && (p.outcome == Some(0) ==> forall i :: 0 <= i < n ==> !Readable(p.report[i]))
  }

  predicate PassesFor(passes: seq<Pass>, n: nat) {
    forall k :: 0 <= k < |passes| ==> PassFor(passes[k], n)
  }

  /** One server's turns. */
  function Column(passes: seq<Pass>, n: nat, i: nat): (turns: seq<Turn>)
    requires PassesFor(passes, n) && i < n
    ensures |turns| == |passes| && forall k :: 0 <= k < |passes| ==> turns[k] == passes[k].turns[i]
  {
    seq(|passes|, k requires 0 <= k < |passes| => assert PassFor(passes[k], n); passes[k].turns[i])
  }

  /** ping_times after the given passes. */
  function TimesAfter(passes: seq<Pass>, n: nat): (times: seq<Option<Time>>)
    requires PassesFor(passes, n)
    ensures |times| == n && forall i :: 0 <= i < n ==> times[i] == PingTime(Column(passes, n, i), |passes|)
  {
    seq(n, i requires 0 <= i < n => PingTime(Column(passes, n, i), |passes|))
  }

  /** The sockets a poll reports readable, of those that have not failed. */
  function Ready(failed: seq<bool>, p: Pass): (ready: seq<bool>)
    requires |failed| == |p.report|
    ensures |ready| == |failed|
    ensures forall i :: 0 <= i < |ready| ==> (ready[i] <==> p.outcome.Some? && !failed[i] && Readable(p.report[i]))
  {
    seq(|failed|, i requires 0 <= i < |failed| => p.outcome.Some? && !failed[i] && Readable(p.report[i]))
  }

  /** failed_servers after the given passes: those on which a recv has failed. */
  function FailedAfter(passes: seq<Pass>, n: nat): (failed: seq<bool>)
    requires PassesFor(passes, n)
    ensures |failed| == n
  {
    if passes == [] then seq(n, _ => false)
    else
      var failed, p := FailedAfter(passes[..|passes| - 1], n), passes[|passes| - 1];
      assert PassFor(p, n);
      seq(n, i requires 0 <= i < n => failed[i] || (Ready(failed, p)[i] && p.recvs[i].RecvError?))
  }

  /** What the last of the given passes sends. */
  function LastSends(my: Id, parse: AddrParser, passes: seq<Pass>, n: nat): seq<Sent>
    requires PassesFor(passes, n) && passes != []
  {
    var init, p := passes[..|passes| - 1], passes[|passes| - 1];
    assert PassFor(p, n);
    PingsBelow(my, TimesAfter(init, n), p.turns, n)
    + AnswersBelow(my, parse, Ready(FailedAfter(init, n), p), p.recvs, n)
  }

  /** Everything sent in the given passes, in order. */
  function SendsAfter(my: Id, parse: AddrParser, passes: seq<Pass>, n: nat): seq<Sent>
    requires PassesFor(passes, n)
  {
    if passes == [] then []
    else SendsAfter(my, parse, passes[..|passes| - 1], n) + LastSends(my, parse, passes, n)
  }

  /** When the latest Pong came from each server, if these are the results of one pass. */
  function Pongs(my: Id, before: seq<Option<Time>>, ready: seq<bool>, recvs: seq<Recv>, nows: seq<Time>): seq<Option<Time>>
    requires |before| == |ready| == |recvs| == |nows|
  {
    seq(|before|, i requires 0 <= i < |before| => if ready[i] && IsPong(my, recvs[i]) then Some(nows[i]) else before[i])
  }

  /** last_pong after the given passes. */
  function PongsAfter(my: Id, before: seq<Option<Time>>, passes: seq<Pass>, n: nat): (pongs: seq<Option<Time>>)
    requires PassesFor(passes, n) && |before| == n
    ensures |pongs| == n
  {
    if passes == [] then before
    else
      var init, p := passes[..|passes| - 1], passes[|passes| - 1];
      assert PassFor(p, n);
      Pongs(my, PongsAfter(my, before, init, n), Ready(FailedAfter(init, n), p), p.recvs, p.nows)
  }

  lemma OneMorePong(my: Id, before: seq<Option<Time>>, passes: seq<Pass>, p: Pass, n: nat)
    requires PassesFor(passes, n) && PassFor(p, n) && |before| == n
    ensures PassesFor(passes + [p], n)
    ensures PongsAfter(my, before, passes + [p], n) ==
            Pongs(my, PongsAfter(my, before, passes, n), Ready(FailedAfter(passes, n), p), p.recvs, p.nows)
  {
    assert (passes + [p])[..|passes|] == passes;
  }

  /** The state of the loop after the given passes. */
  ghost predicate AtPass(
      my: Id, parse: AddrParser, passes: seq<Pass>, n: nat, times: seq<Option<Time>>, failed: seq<bool>, out: seq<Sent>)
    requires PassesFor(passes, n)
  {
    times == TimesAfter(passes, n) && failed == FailedAfter(passes, n) && out == SendsAfter(my, parse, passes, n)
  }

  lemma PassDone(
      my: Id, parse: AddrParser, passes: seq<Pass>, p: Pass, n: nat,
      times: seq<Option<Time>>, failed: seq<bool>, out: seq<Sent>,
      times': seq<Option<Time>>, failed': seq<bool>, out': seq<Sent>)
    requires PassesFor(passes, n) && PassFor(p, n) && AtPass(my, parse, passes, n, times, failed, out)
    requires |times'| == n && |failed'| == n
    requires forall i :: 0 <= i < n ==> times'[i] == AfterTurn(times[i], p.turns[i])
    requires forall i :: 0 <= i < n ==> (failed'[i] <==> failed[i] || (Ready(failed, p)[i] && p.recvs[i].RecvError?))
    requires out' == out + (PingsBelow(my, times, p.turns, n) + AnswersBelow(my, parse, Ready(failed, p), p.recvs, n))
    ensures PassesFor(passes + [p], n) && AtPass(my, parse, passes + [p], n, times', failed', out')
  {
    OneMore(my, parse, passes, p, n);
  }

  /** One more pass. */
  lemma OneMore(my: Id, parse: AddrParser, passes: seq<Pass>, p: Pass, n: nat)
    requires PassesFor(passes, n) && PassFor(p, n)
    ensures PassesFor(passes + [p], n)
    ensures forall i :: 0 <= i < n ==> TimesAfter(passes + [p], n)[i] == AfterTurn(TimesAfter(passes, n)[i], p.turns[i])
    ensures forall i :: 0 <= i < n ==>
              (FailedAfter(passes + [p], n)[i] <==>
               FailedAfter(passes, n)[i] || (Ready(FailedAfter(passes, n), p)[i] && p.recvs[i].RecvError?))
    ensures SendsAfter(my, parse, passes + [p], n) ==
            SendsAfter(my, parse, passes, n)
            + (PingsBelow(my, TimesAfter(passes, n), p.turns, n)
               + AnswersBelow(my, parse, Ready(FailedAfter(passes, n), p), p.recvs, n))
  {
    assert (passes + [p])[..|passes|] == passes;
    forall i | 0 <= i < n ensures TimesAfter(passes + [p], n)[i] == AfterTurn(TimesAfter(passes, n)[i], p.turns[i]) {
      assert Column(passes + [p], n, i)[..|passes|] == Column(passes, n, i);
      PingTimePrefix(Column(passes + [p], n, i), |passes|, |passes|);
    }
  }

  lemma {:induction false} PingTimePrefix(turns: seq<Turn>, k: nat, end: nat)
    requires k <= end <= |turns|
    ensures PingTime(turns[..end], k) == PingTime(turns, k)
  {
    if k > 0 {
      PingTimePrefix(turns, k - 1, end);
    }
  }

  lemma {:induction false} NothingReady(my: Id, parse: AddrParser, ready: seq<bool>, recvs: seq<Recv>, n: nat)
    requires n <= |ready| == |recvs| && forall i :: 0 <= i < n ==> !ready[i]
    ensures AnswersBelow(my, parse, ready, recvs, n) == []
  {
    if n > 0 {
      NothingReady(my, parse, ready, recvs, n - 1);
    }
  }

  /** What has been sent, the failed flags and the latest Pongs, with the first n sockets handled. */
  ghost predicate SentBelow(
      my: Id, parse: AddrParser, before: seq<Sent>, out: seq<Sent>, ready: seq<bool>, recvs: seq<Recv>, n: nat)
  {
    n <= |ready| == |recvs| && out == before + AnswersBelow(my, parse, ready, recvs, n)
  }

  ghost predicate FailedBelow(before: seq<bool>, failed: seq<bool>, ready: seq<bool>, recvs: seq<Recv>, n: nat) {
    && |before| == |failed| == |ready| == |recvs|
    && forall j :: 0 <= j < |failed| ==> (failed[j] <==> before[j] || (j < n && ready[j] && recvs[j].RecvError?))
  }

  ghost predicate PongsBelow(
      my: Id, before: seq<Option<Time>>, pongs: seq<Option<Time>>, ready: seq<bool>, recvs: seq<Recv>, nows: seq<Time>, n: nat)
  {
    && |before| == |pongs| == |ready| == |recvs| == |nows|
    && forall j :: 0 <= j < |pongs| ==>
         pongs[j] == if j < n && ready[j] && IsPong(my, recvs[j]) then Some(nows[j]) else before[j]
  }

  lemma SentStep(my: Id, parse: AddrParser, before: seq<Sent>, out: seq<Sent>, ready: seq<bool>, recvs: seq<Recv>, i: nat)
    requires i < |ready| && SentBelow(my, parse, before, out, ready, recvs, i)
    ensures SentBelow(my, parse, before, if ready[i] then out + Answers(my, parse, i, recvs[i]) else out, ready, recvs, i + 1)
  {
    Associates(before, AnswersBelow(my, parse, ready, recvs, i), Answers(my, parse, i, recvs[i]));
    assert out + [] == out;
  }

  lemma FailedStep(before: seq<bool>, failed: seq<bool>, ready: seq<bool>, recvs: seq<Recv>, i: nat)
    requires i < |failed| && FailedBelow(before, failed, ready, recvs, i)
    ensures FailedBelow(before, if ready[i] && recvs[i].RecvError? then failed[i := true] else failed, ready, recvs, i + 1)
  {
  }

  lemma PongsStep(
      my: Id, before: seq<Option<Time>>, pongs: seq<Option<Time>>, ready: seq<bool>, recvs: seq<Recv>, nows: seq<Time>, i: nat)
    requires i < |pongs| && PongsBelow(my, before, pongs, ready, recvs, nows, i)
    ensures PongsBelow(my, before, if ready[i] && IsPong(my, recvs[i]) then pongs[i := Some(nows[i])] else pongs,
                       ready, recvs, nows, i + 1)
  {
  }

  class Loop {
    const myId: Id
    const parse: AddrParser
    var pingTimes: seq<Option<Time>>
    var failed: seq<bool>
    var lastPong: seq<Option<Time>>
    var out: seq<Sent>

    ghost predicate Valid()
      reads this
    {
      |pingTimes| == |failed| == |lastPong|
    }

    constructor (myId: Id, parse: AddrParser, servers: nat)
      ensures Valid() && this.myId == myId && this.parse == parse
      ensures pingTimes == lastPong == seq(servers, _ => None) && failed == seq(servers, _ => false) && out == []
    {
      this.myId, this.parse := myId, parse;
      pingTimes, failed, lastPong := seq(servers, _ => None), seq(servers, _ => false), seq(servers, _ => None);
      out := [];
    }

    /** The first half of a pass: a ping to every server whose time has come, failed or not. */
    method SendPings(turns: seq<Turn>)
      requires Valid() && |turns| == |pingTimes|
      modifies this`pingTimes, this`out
      ensures Valid() && |pingTimes| == |turns|
      ensures forall i :: 0 <= i < |turns| ==> pingTimes[i] == AfterTurn(old(pingTimes[i]), turns[i])
      ensures out == old(out) + PingsBelow(myId, old(pingTimes), turns, |turns|)
    {
      for i := 0 to |turns|
        invariant |pingTimes| == |turns|
        invariant forall j :: 0 <= j < i ==> pingTimes[j] == AfterTurn(old(pingTimes[j]), turns[j])
        invariant forall j :: i <= j < |turns| ==> pingTimes[j] == old(pingTimes[j])
        invariant out == old(out) + PingsBelow(myId, old(pingTimes), turns, i)
      {
        if Due(pingTimes[i], turns[i]) {
          out := out + [Sent(i, Request(myId, Some(Ping)), None)];
          pingTimes := pingTimes[i := Some(turns[i].stamped + turns[i].jitter)];
        }
      }
    }

    /** What is done with the result of one recv. */
    method HandleRecv(i: nat, recv: Recv, now: Time)
      requires Valid() && i < |failed|
      modifies this`failed, this`lastPong, this`out
      ensures Valid() && out == old(out) + Answers(myId, parse, i, recv)
      ensures failed == if recv.RecvError? then old(failed)[i := true] else old(failed)
      ensures lastPong == if IsPong(myId, recv) then old(lastPong)[i := Some(now)] else old(lastPong)
    {
      match recv {
        case WouldBlock =>
        case Garbled =>
        case RecvError => failed := failed[i := true];
        case Received(resp) =>
          if resp.id == myId {
            match resp.cmd {
              case Some(Pong) => lastPong := lastPong[i := Some(now)];
              case Some(FsyncResp(source, addr)) =>
                var rsync := Request(myId, Some(Rsync(source)));
                out := out + [Sent(i, rsync, None)];
                var peer := parse(addr);
                if peer.Some? {
                  out := out + [Sent(i, rsync, peer)];
                }
              case _ =>
            }
          }
      }
    }

    /** The second half: one recv on each ready socket. */
    method HandleReady(ready: seq<bool>, recvs: seq<Recv>, nows: seq<Time>)
      requires Valid() && |ready| == |recvs| == |nows| == |failed|
      modifies this`failed, this`lastPong, this`out
      ensures Valid() && |failed| == |ready|
      ensures out == old(out) + AnswersBelow(myId, parse, ready, recvs, |ready|)
      ensures forall i :: 0 <= i < |ready| ==> (failed[i] <==> old(failed[i]) || (ready[i] && recvs[i].RecvError?))
      ensures lastPong == Pongs(myId, old(lastPong), ready, recvs, nows)
    {
      for i := 0 to |ready|
        invariant Valid() && |failed| == |ready|
        invariant SentBelow(myId, parse, old(out), out, ready, recvs, i)
        invariant FailedBelow(old(failed), failed, ready, recvs, i)
        invariant PongsBelow(myId, old(lastPong), lastPong, ready, recvs, nows, i)
      {
        SentStep(myId, parse, old(out), out, ready, recvs, i);
        FailedStep(old(failed), failed, ready, recvs, i);
        PongsStep(myId, old(lastPong), lastPong, ready, recvs, nows, i);
        if ready[i] {
          HandleRecv(i, recvs[i], nows[i]);
        }
      }
    }

    /** One pass of the event loop. */
    method OnePass(p: Pass)
      requires Valid() && PassFor(p, |failed|)
      modifies this
      ensures Valid() && |failed| == |p.turns|
      ensures forall i :: 0 <= i < |failed| ==> pingTimes[i] == AfterTurn(old(pingTimes[i]), p.turns[i])
      ensures forall i :: 0 <= i < |failed| ==>
                (failed[i] <==> old(failed[i]) || (Ready(old(failed), p)[i] && p.recvs[i].RecvError?))
      ensures out == old(out) + (PingsBelow(myId, old(pingTimes), p.turns, |p.turns|)
                                 + AnswersBelow(myId, parse, Ready(old(failed), p), p.recvs, |p.turns|))
      ensures lastPong == Pongs(myId, old(lastPong), Ready(old(failed), p), p.recvs, p.nows)
    {
      ghost var n := |p.turns|;
      ghost var out0, pings := out, PingsBelow(myId, pingTimes, p.turns, n);
      SendPings(p.turns);
      ghost var expected := Ready(failed, p);
      var ready := PollSockets(failed, p.report, p.outcome);
      if ready == None {
        NothingReady(myId, parse, expected, p.recvs, n);
        assert lastPong == Pongs(myId, lastPong, expected, p.recvs, p.nows);
        return;
      }
      assert ready.value == expected;
      HandleReady(ready.value, p.recvs, p.nows);
      Associates(out0, pings, AnswersBelow(myId, parse, expected, p.recvs, n));
    }

    /** The event loop, for as many passes as are made before it is told to exit. */
    method Run(passes: seq<Pass>)
      requires Valid() && PassesFor(passes, |failed|) && out == []
      requires forall i :: 0 <= i < |failed| ==> pingTimes[i] == None && !failed[i]
      modifies this
      ensures Valid() && |failed| == old(|failed|)
      ensures pingTimes == TimesAfter(passes, |failed|)
      ensures failed == FailedAfter(passes, |failed|)
      ensures out == SendsAfter(myId, parse, passes, |failed|)
      ensures lastPong == PongsAfter(myId, old(lastPong), passes, |failed|)
    {
      ghost var n := |failed|;
      assert passes[..|passes|] == passes;
      for k := 0 to |passes|
        invariant Valid() && |failed| == n
        invariant AtPass(myId, parse, passes[..k], n, pingTimes, failed, out)
        invariant lastPong == PongsAfter(myId, old(lastPong), passes[..k], n)
      {
        ghost var times0, failed0, out0 := pingTimes, failed, out;
        assert passes[..k + 1] == passes[..k] + [passes[k]];
        OneMorePong(myId, old(lastPong), passes[..k], passes[k], n);
        OnePass(passes[k]);
        PassDone(myId, parse, passes[..k], passes[k], n, times0, failed0, out0, pingTimes, failed, out);
      }
    }
  }

  // ---- what a whole run sends ----

  lemma OnePing(my: Id, times: seq<Option<Time>>, turns: seq<Turn>, n: nat, x: Sent)
    requires n < |turns| == |times|
    ensures multiset(PingsBelow(my, times, turns, n + 1))[x] ==
            multiset(PingsBelow(my, times, turns, n))[x]
            + if Due(times[n], turns[n]) && x == Sent(n, Request(my, Some(Ping)), None) then 1 else 0
  {
    var last := if Due(times[n], turns[n]) then [Sent(n, Request(my, Some(Ping)), None)] else [];
    CountConcat(PingsBelow(my, times, turns, n), last, x);
  }

  /** How often x is among the pings below k, and where it comes in. */
  function PingCount(my: Id, times: seq<Option<Time>>, turns: seq<Turn>, x: Sent): nat -> nat
    requires |turns| == |times|
  {
    (k: nat) => if k <= |turns| then multiset(PingsBelow(my, times, turns, k))[x] else 0
  }

  function PingHit(my: Id, times: seq<Option<Time>>, turns: seq<Turn>, x: Sent): nat -> bool
    requires |turns| == |times|
  {
    (k: nat) => k < |turns| && Due(times[k], turns[k]) && x == Sent(k, Request(my, Some(Ping)), None)
  }

  lemma PingStep(my: Id, times: seq<Option<Time>>, turns: seq<Turn>, x: Sent, k: nat)
    requires k < |turns| == |times|
    ensures CountsAt(PingCount(my, times, turns, x), PingHit(my, times, turns, x), k)
    ensures PingHit(my, times, turns, x)(k) ==> k == x.i
  {
    OnePing(my, times, turns, k, x);
  }

  lemma PingsCount(my: Id, times: seq<Option<Time>>, turns: seq<Turn>, n: nat, x: Sent)
    requires n <= |turns| == |times|
    ensures multiset(PingsBelow(my, times, turns, n))[x] ==
            if x.i < n && Due(times[x.i], turns[x.i]) && x == Sent(x.i, Request(my, Some(Ping)), None) then 1 else 0
  {
    var c, hit := PingCount(my, times, turns, x), PingHit(my, times, turns, x);
    forall k: nat | k < n ensures CountsAt(c, hit, k) && (hit(k) ==> k == x.i) { PingStep(my, times, turns, x, k); }
    CountUp(c, hit, x.i, n);
  }

  /** The datagram is one of the answers to what recv yielded: an Rsync for the source of an Fsync that is
      addressed to this listener, to the server, or to the peer at the address given. */
  predicate AnswersFsync(my: Id, parse: AddrParser, recv: Recv, x: Sent) {
    match recv
    case Received(Response(id, Some(FsyncResp(source, addr)))) =>
      id == my && x.req == Request(my, Some(Rsync(source))) && (x.peer == None || x.peer == parse(addr))
    case _ => false
  }

  lemma AnswersOnce(my: Id, parse: AddrParser, i: nat, recv: Recv, x: Sent)
    ensures multiset(Answers(my, parse, i, recv))[x] == if x.i == i && AnswersFsync(my, parse, recv, x) then 1 else 0
  {
  }

  lemma OneAnswer(my: Id, parse: AddrParser, ready: seq<bool>, recvs: seq<Recv>, n: nat, x: Sent)
    requires n < |ready| == |recvs|
    ensures multiset(AnswersBelow(my, parse, ready, recvs, n + 1))[x] ==
            multiset(AnswersBelow(my, parse, ready, recvs, n))[x]
            + if ready[n] && x.i == n && AnswersFsync(my, parse, recvs[n], x) then 1 else 0
  {
    AnswersOnce(my, parse, n, recvs[n], x);
    var last := if ready[n] then Answers(my, parse, n, recvs[n]) else [];
    CountConcat(AnswersBelow(my, parse, ready, recvs, n), last, x);
  }

  function AnswerCount(my: Id, parse: AddrParser, ready: seq<bool>, recvs: seq<Recv>, x: Sent): nat -> nat
    requires |ready| == |recvs|
  {
    (k: nat) => if k <= |ready| then multiset(AnswersBelow(my, parse, ready, recvs, k))[x] else 0
  }

  function AnswerHit(my: Id, parse: AddrParser, ready: seq<bool>, recvs: seq<Recv>, x: Sent): nat -> bool
    requires |ready| == |recvs|
  {
    (k: nat) => k < |ready| && ready[k] && x.i == k && AnswersFsync(my, parse, recvs[k], x)
  }

  lemma AnswerStep(my: Id, parse: AddrParser, ready: seq<bool>, recvs: seq<Recv>, x: Sent, k: nat)
    requires k < |ready| == |recvs|
    ensures CountsAt(AnswerCount(my, parse, ready, recvs, x), AnswerHit(my, parse, ready, recvs, x), k)
    ensures AnswerHit(my, parse, ready, recvs, x)(k) ==> k == x.i
  {
    OneAnswer(my, parse, ready, recvs, k, x);
  }

  lemma AnswersCount(my: Id, parse: AddrParser, ready: seq<bool>, recvs: seq<Recv>, n: nat, x: Sent)
    requires n <= |ready| == |recvs|
    ensures multiset(AnswersBelow(my, parse, ready, recvs, n))[x] ==
            if x.i < n && ready[x.i] && AnswersFsync(my, parse, recvs[x.i], x) then 1 else 0
  {
    var c, hit := AnswerCount(my, parse, ready, recvs, x), AnswerHit(my, parse, ready, recvs, x);
    forall k: nat | k < n ensures CountsAt(c, hit, k) && (hit(k) ==> k == x.i) { AnswerStep(my, parse, ready, recvs, x, k); }
    CountUp(c, hit, x.i, n);
  }

  /** One more pass sends its datagrams after those of the passes before: any one of them as often as there
      are a Ping and an answer that it is. */
  lemma SendsOfPass(my: Id, parse: AddrParser, passes: seq<Pass>, n: nat, x: Sent)
    requires PassesFor(passes, n) && passes != []
    ensures var init, p := passes[..|passes| - 1], passes[|passes| - 1];
            && PassesFor(init, n) && PassFor(p, n)
            && SendsAfter(my, parse, passes, n) == SendsAfter(my, parse, init, n) + LastSends(my, parse, passes, n)
            && multiset(LastSends(my, parse, passes, n))[x] ==
               multiset(PingsBelow(my, TimesAfter(init, n), p.turns, n))[x]
               + multiset(AnswersBelow(my, parse, Ready(FailedAfter(init, n), p), p.recvs, n))[x]
  {
    var init, p := passes[..|passes| - 1], passes[|passes| - 1];
    assert PassFor(p, n);
    CountConcat(PingsBelow(my, TimesAfter(init, n), p.turns, n),
                AnswersBelow(my, parse, Ready(FailedAfter(init, n), p), p.recvs, n), x);
  }

  /** Of all that is not an Rsync, a pass sends exactly one Ping to each server whose turn in that pass is
      due, failed or not. */
  lemma PingsOfPass(my: Id, parse: AddrParser, passes: seq<Pass>, n: nat, x: Sent)
    requires PassesFor(passes, n) && passes != [] && !IsRsync(x.req)
    ensures multiset(LastSends(my, parse, passes, n))[x] ==
            if x.i < n && x == Sent(x.i, Request(my, Some(Ping)), None) && Pings(Column(passes, n, x.i), |passes| - 1)
            then 1 else 0
  {
    var init, p := passes[..|passes| - 1], passes[|passes| - 1];
    SendsOfPass(my, parse, passes, n, x);
    PingsCount(my, TimesAfter(init, n), p.turns, n, x);
    AnswersCount(my, parse, Ready(FailedAfter(init, n), p), p.recvs, n, x);
    if x.i < n {
      assert Column(passes, n, x.i)[..|init|] == Column(init, n, x.i);
      PingTimePrefix(Column(passes, n, x.i), |init|, |init|);
    }
  }

  /** For each socket that is readable and has not failed, if what it yields is an Fsync addressed to this
      listener, whatever its source, a pass sends exactly one Rsync to the server and one to the peer if
      its address parses; and no other. */
  lemma RsyncsOfPass(my: Id, parse: AddrParser, passes: seq<Pass>, n: nat, x: Sent)
    requires PassesFor(passes, n) && passes != [] && IsRsync(x.req)
    ensures var init, p := passes[..|passes| - 1], passes[|passes| - 1];
            && PassesFor(init, n) && PassFor(p, n)
            && multiset(LastSends(my, parse, passes, n))[x] ==
               if x.i < n && p.outcome.Some? && p.report[x.i] == Some(true) && !FailedAfter(init, n)[x.i]
                  && AnswersFsync(my, parse, p.recvs[x.i], x) then 1 else 0
  {
    var init, p := passes[..|passes| - 1], passes[|passes| - 1];
    SendsOfPass(my, parse, passes, n, x);
    PingsCount(my, TimesAfter(init, n), p.turns, n, x);
    AnswersCount(my, parse, Ready(FailedAfter(init, n), p), p.recvs, n, x);
  }

  /** A server's socket has failed exactly if a recv on it has failed in some pass in which the poll
      succeeded and reported it readable. */
  lemma {:induction false} FailedIff(passes: seq<Pass>, n: nat, i: nat)
    requires PassesFor(passes, n) && i < n
    ensures FailedAfter(passes, n)[i] <==>
            exists k :: 0 <= k < |passes| && PassFor(passes[k], n)
                        && passes[k].outcome.Some? && passes[k].report[i] == Some(true) && passes[k].recvs[i].RecvError?
  {
    if passes != [] {
      var init, p := passes[..|passes| - 1], passes[|passes| - 1];
      FailedIff(init, n, i);
      assert PassFor(p, n);
      assert forall k :: 0 <= k < |init| ==> init[k] == passes[k];
    }
  }

  /** last_pong of a server is the reading of the clock at the latest Pong for this listener that was read
      from it. */
  lemma PongOfPass(my: Id, before: seq<Option<Time>>, passes: seq<Pass>, n: nat, i: nat)
    requires PassesFor(passes, n) && passes != [] && |before| == n && i < n
    ensures PongsAfter(my, before, [], n) == before
    ensures var init, p := passes[..|passes| - 1], passes[|passes| - 1];
            && PassesFor(init, n) && PassFor(p, n)
            && PongsAfter(my, before, passes, n)[i] ==
               if p.outcome.Some? && p.report[i] == Some(true) && !FailedAfter(init, n)[i]
                  && p.recvs[i] == Received(Response(my, Some(Pong)))
               then Some(p.nows[i]) else PongsAfter(my, before, init, n)[i]
  {
    assert PassFor(passes[|passes| - 1], n);
  }

  /** Once a recv on a server's socket has failed, the listener never reads it again. */
  lemma {:induction false} FailedForGood(passes: seq<Pass>, n: nat, k: nat, i: nat)
    requires PassesFor(passes, n) && k <= |passes| && i < n && FailedAfter(passes[..k], n)[i]
    ensures FailedAfter(passes, n)[i]
    ensures k < |passes| ==> !Ready(FailedAfter(passes[..|passes| - 1], n), passes[|passes| - 1])[i]
    decreases |passes|
  {
    if k < |passes| {
      var init := passes[..|passes| - 1];
      assert init[..k] == passes[..k] && PassFor(passes[|passes| - 1], n);
      FailedForGood(init, n, k, i);
    } else {
      assert passes[..k] == passes;
    }
  }

  // ---- the pings to one server, over all passes ----

  /** ping_times[i] before pass k, given server i's turn in each pass. */
  function PingTime(turns: seq<Turn>, k: nat): Option<Time>
    requires k <= |turns|
  {
    if k == 0 then None else AfterTurn(PingTime(turns, k - 1), turns[k - 1])
  }

  /** Pass k sends the server a ping. */
  predicate Pings(turns: seq<Turn>, k: nat)
    requires k < |turns|
  {
    Due(PingTime(turns, k), turns[k])
  }

  /** The clock is monotone, the jitter in range; from one check to the next pass's send takes at
      most d, and from a send to its stamp at most e. */
  ghost predicate Paced(turns: seq<Turn>, d: Time, e: Time) {
    && (forall k :: 0 <= k < |turns| ==>
          turns[k].checked <= turns[k].sent <= turns[k].stamped <= turns[k].sent + e && turns[k].jitter < JITTER)
    && (forall j, k :: 0 <= j < k < |turns| && k == j + 1 ==>
          turns[j].stamped <= turns[k].checked && turns[k].sent <= turns[j].checked + d)
  }

  /** a and b are successive pings. */
  predicate Successive(turns: seq<Turn>, a: nat, b: nat)
  {
    a < b < |turns| && Pings(turns, a) && Pings(turns, b) && forall k :: a < k < b ==> !Pings(turns, k)
  }

  lemma {:induction false} StampHolds(turns: seq<Turn>, a: nat, k: nat)
    requires a < k <= |turns| && Pings(turns, a) && forall j :: a < j < k ==> !Pings(turns, j)
    ensures PingTime(turns, k) == Some(turns[a].stamped + turns[a].jitter)
    decreases k
  {
    if a + 1 < k {
      StampHolds(turns, a, k - 1);
      assert !Pings(turns, k - 1);
    } else {
      assert PingTime(turns, k) == AfterTurn(PingTime(turns, a), turns[a]);
    }
  }

  lemma {:induction false} TurnsOrdered(turns: seq<Turn>, d: Time, e: Time, a: nat, b: nat)
    requires Paced(turns, d, e) && a < b < |turns|
    ensures turns[a].stamped <= turns[b].checked && turns[a].sent <= turns[b].sent
    decreases b
  {
    assert turns[b - 1].stamped <= turns[b].checked;
    if a + 1 < b {
      TurnsOrdered(turns, d, e, a, b - 1);
    }
  }

  /** Successive pings to a server are more than 10 s apart, and less than 15 s plus the duration of
      a pass. */
  lemma PingSpacing(turns: seq<Turn>, d: Time, e: Time, a: nat, b: nat)
    requires Paced(turns, d, e) && Successive(turns, a, b)
    ensures turns[a].sent + 10 * SECOND < turns[b].sent < turns[a].sent + 15 * SECOND + d + e
  {
    StampHolds(turns, a, b);
    assert turns[b].sent <= turns[b - 1].checked + d;
    if a < b - 1 {
      StampHolds(turns, a, b - 1);
      assert !Pings(turns, b - 1);
    }
  }

  /** If the loop is still running that long after a ping, there has been another. */
  lemma NextPing(turns: seq<Turn>, d: Time, e: Time, a: nat) returns (b: nat)
    requires Paced(turns, d, e) && a < |turns| && Pings(turns, a)
    requires turns[|turns| - 1].checked >= turns[a].sent + KEEPALIVE + JITTER + e
    ensures Successive(turns, a, b)
  {
    b := a + 1;
    while !Pings(turns, b)
      invariant a < b < |turns|
      invariant forall k :: a < k < b ==> !Pings(turns, k)
      decreases |turns| - b
    {
      StampHolds(turns, a, b);
      assert b < |turns| - 1;
      b := b + 1;
    }
  }
}
