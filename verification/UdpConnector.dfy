/** src/udp/client.rs: the rounds of Connector::connect, for any behaviour of the sockets and the timer. */
module UdpConnector {
  import opened Base
  import opened Messages
  import opened Sequences
  import opened UdpNetwork
  import opened UdpPoll

  // ---- what the sockets do during connect ----

  /** The result of one recv: an error, bytes that are not a Response, or a Response. */
  datatype Recv = RecvError | Garbled | Received(resp: Response)

  /** One poll, and what a recv on each socket would return after it. */
  datatype Poll = Poll(report: seq<Report>, outcome: Option<nat>, recvs: seq<Recv>)

  predicate PollFor(p: Poll, n: nat) {
    && |p.report| == n && |p.recvs| == n
    && (p.outcome == Some(0) ==> forall i :: 0 <= i < n ==> !Readable(p.report[i]))
  }

  predicate PollsFor(polls: seq<Poll>, n: nat) {
    forall m :: 0 <= m < |polls| ==> PollFor(polls[m], n)
  }

  /** Something to read on one server's socket, at its place in (round, poll, server) order. */
  datatype Slot = Slot(round: nat, poll: nat, server: nat, recv: Recv)

  function PollSlots(r: nat, m: nat, p: Poll, i: nat): seq<Slot>
    requires i <= |p.report| && |p.recvs| == |p.report|
  {
    if i == 0 then []
    else PollSlots(r, m, p, i - 1) + if Readable(p.report[i - 1]) then [Slot(r, m, i - 1, p.recvs[i - 1])] else []
  }

  /** A failing poll ends the round. */
  predicate Broken(polls: seq<Poll>, m: nat)
    requires m <= |polls|
  {
    exists j :: 0 <= j < m && polls[j].outcome == None
  }

  function RoundSlots(r: nat, polls: seq<Poll>, n: nat, m: nat): seq<Slot>
    requires PollsFor(polls, n) && m <= |polls|
  {
    if m == 0 then []
    else RoundSlots(r, polls, n, m - 1)
         + if Broken(polls, m) then [] else PollSlots(r, m - 1, polls[m - 1], n)
  }

  const ROUNDS: nat := 3

  predicate RoundsFor(rounds: seq<seq<Poll>>, n: nat) {
    forall r :: 0 <= r < |rounds| ==> PollsFor(rounds[r], n)
  }

  /** All there is to read in the first r rounds, whoever has failed. */
  function Slots(rounds: seq<seq<Poll>>, n: nat, r: nat): seq<Slot>
    requires r <= |rounds| && RoundsFor(rounds, n)
  {
    if r == 0 then [] else Slots(rounds, n, r - 1) + RoundSlots(r - 1, rounds[r - 1], n, |rounds[r - 1]|)
  }

  /** The server answers that it does not know the target. */
  predicate Denies(my: Id, recv: Recv) {
    recv.Received? && recv.resp.id == my && recv.resp.cmd.Some?
    && recv.resp.cmd.value.Redirect? && recv.resp.cmd.value.addr == []
  }

  /** The address an acceptable answer gives. */
  function Accepted(my: Id, parse: AddrParser, recv: Recv): Option<SocketAddr> {
    if recv.Received? && recv.resp.id == my && recv.resp.cmd.Some?
       && recv.resp.cmd.value.Redirect? && recv.resp.cmd.value.addr != []
    then parse(recv.resp.cmd.value.addr)
    else None
  }

  ghost predicate DeniedBefore(my: Id, slots: seq<Slot>, k: nat, i: nat)
    requires k <= |slots|
  {
    exists j :: 0 <= j < k && slots[j].server == i && Denies(my, slots[j].recv)
  }

  /** The slot is read: its server has not denied the target before. */
  ghost predicate Heeded(my: Id, slots: seq<Slot>, k: nat)
    requires k < |slots|
  {
    !DeniedBefore(my, slots, k, slots[k].server)
  }

  /** Nothing among the first k slots is read and acceptable. */
  ghost predicate NothingYet(my: Id, parse: AddrParser, slots: seq<Slot>, k: nat)
    requires k <= |slots|
  {
    forall j :: 0 <= j < k && Heeded(my, slots, j) ==> Accepted(my, parse, slots[j].recv) == None
  }

  // ---- the slots as a sequence that the loops walk along ----

  lemma {:induction false} PollSlotsPrefix(r: nat, m: nat, p: Poll, i: nat, n: nat)
    requires i <= n <= |p.report| && |p.recvs| == |p.report|
    ensures PollSlots(r, m, p, i) <= PollSlots(r, m, p, n)
    ensures forall j :: 0 <= j < |PollSlots(r, m, p, n)| ==> PollSlots(r, m, p, n)[j].round == r && PollSlots(r, m, p, n)[j].server < n
    decreases n
  {
    if n > 0 {
      PollSlotsPrefix(r, m, p, if i < n then i else n - 1, n - 1);
    }
  }

  lemma {:induction false} RoundSlotsPrefix(r: nat, polls: seq<Poll>, n: nat, m: nat, end: nat)
    requires PollsFor(polls, n) && m <= end <= |polls|
    ensures RoundSlots(r, polls, n, m) <= RoundSlots(r, polls, n, end)
    ensures Broken(polls, m) ==> RoundSlots(r, polls, n, m) == RoundSlots(r, polls, n, end)
    decreases end
  {
    if m < end {
      RoundSlotsPrefix(r, polls, n, m, end - 1);
    }
  }

  lemma {:induction false} RoundSlotsInRange(r: nat, polls: seq<Poll>, n: nat, m: nat)
    requires PollsFor(polls, n) && m <= |polls|
    ensures forall j :: 0 <= j < |RoundSlots(r, polls, n, m)| ==> RoundSlots(r, polls, n, m)[j].server < n
    decreases m
  {
    if m > 0 {
      RoundSlotsInRange(r, polls, n, m - 1);
      PollSlotsPrefix(r, m - 1, polls[m - 1], n, n);
    }
  }

  lemma {:induction false} SlotsPrefix(rounds: seq<seq<Poll>>, n: nat, r: nat, end: nat)
    requires r <= end <= |rounds| && RoundsFor(rounds, n)
    ensures Slots(rounds, n, r) <= Slots(rounds, n, end)
    decreases end
  {
    if r < end {
      SlotsPrefix(rounds, n, r, end - 1);
    }
  }

  lemma {:induction false} SlotsInRange(rounds: seq<seq<Poll>>, n: nat, r: nat)
    requires r <= |rounds| && RoundsFor(rounds, n)
    ensures forall j :: 0 <= j < |Slots(rounds, n, r)| ==> Slots(rounds, n, r)[j].server < n
    decreases r
  {
    if r > 0 {
      SlotsInRange(rounds, n, r - 1);
      RoundSlotsInRange(r - 1, rounds[r - 1], n, |rounds[r - 1]|);
    }
  }

  // ---- the loops of connect ----

  /** The failed servers after passing the given slots. */
  function FailedAfter(my: Id, n: nat, seen: seq<Slot>): (failed: seq<bool>)
    ensures |failed| == n
  {
    if seen == [] then seq(n, _ => false)
    else
      var failed, last := FailedAfter(my, n, seen[..|seen| - 1]), seen[|seen| - 1];
      if last.server < n && Denies(my, last.recv) then failed[last.server := true] else failed
  }

  /** None of the given slots was read, by a server not failed by then, and acceptable. */
  predicate Quiet(my: Id, parse: AddrParser, n: nat, seen: seq<Slot>) {
    seen == [] ||
    var init, last := seen[..|seen| - 1], seen[|seen| - 1];
    && Quiet(my, parse, n, init)
    && (last.server < n && !FailedAfter(my, n, init)[last.server] ==> Accepted(my, parse, last.recv) == None)
  }

  lemma ScanSnoc(my: Id, parse: AddrParser, n: nat, seen: seq<Slot>, slot: Slot)
    requires slot.server < n
    ensures var failed := FailedAfter(my, n, seen);
            && FailedAfter(my, n, seen + [slot]) == (if Denies(my, slot.recv) then failed[slot.server := true] else failed)
            && (Quiet(my, parse, n, seen + [slot]) <==>
                Quiet(my, parse, n, seen) && (failed[slot.server] || Accepted(my, parse, slot.recv) == None))
  {
    assert (seen + [slot])[..|seen|] == seen;
  }

  /** When every server has failed, whatever else arrives changes nothing. */
  lemma {:induction false} AllFailed(my: Id, parse: AddrParser, n: nat, seen: seq<Slot>, more: seq<Slot>)
    requires AllTrue(FailedAfter(my, n, seen)) && forall j :: 0 <= j < |more| ==> more[j].server < n
    ensures FailedAfter(my, n, seen + more) == FailedAfter(my, n, seen)
    ensures Quiet(my, parse, n, seen + more) <==> Quiet(my, parse, n, seen)
    decreases |more|
  {
    if more == [] {
      assert seen + more == seen;
    } else {
      var init, last := more[..|more| - 1], more[|more| - 1];
      AllFailed(my, parse, n, seen, init);
      ScanSnoc(my, parse, n, seen + init, last);
      assert seen + more == (seen + init) + [last];
    }
  }

  lemma {:induction false} FailedMeansDenied(my: Id, n: nat, seen: seq<Slot>, k: nat, i: nat)
    requires k <= |seen| && i < n
    ensures FailedAfter(my, n, seen[..k])[i] <==> DeniedBefore(my, seen, k, i)
  {
    if k > 0 {
      FailedMeansDenied(my, n, seen, k - 1, i);
      assert seen[..k][..k - 1] == seen[..k - 1];
    }
  }

  lemma {:induction false} QuietMeansNothing(my: Id, parse: AddrParser, n: nat, seen: seq<Slot>, k: nat)
    requires k <= |seen| && forall j :: 0 <= j < |seen| ==> seen[j].server < n
    ensures Quiet(my, parse, n, seen[..k]) <==> NothingYet(my, parse, seen, k)
  {
    if k > 0 {
      QuietMeansNothing(my, parse, n, seen, k - 1);
      FailedMeansDenied(my, n, seen, k - 1, seen[k - 1].server);
      NothingNext(my, parse, seen, k - 1);
      assert seen[..k][..k - 1] == seen[..k - 1];
    }
  }

  lemma NothingNext(my: Id, parse: AddrParser, slots: seq<Slot>, k: nat)
    requires k < |slots|
    ensures NothingYet(my, parse, slots, k + 1) <==>
            NothingYet(my, parse, slots, k) && (Heeded(my, slots, k) ==> Accepted(my, parse, slots[k].recv) == None)
  {
  }

  /** The acceptable answer that ends connect. */
  predicate Finds(my: Id, parse: AddrParser, failed: seq<bool>, at: Slot, addr: SocketAddr) {
    at.server < |failed| && !failed[at.server] && Accepted(my, parse, at.recv) == Some(addr)
  }

  lemma AppendPrefix(a: seq<Slot>, b: seq<Slot>, c: seq<Slot>)
    requires b <= c
    ensures a + b <= a + c
  {
  }

  /** After passing the given slots the failed servers are these, and nothing acceptable was read. */
  ghost predicate Settled(my: Id, parse: AddrParser, n: nat, seen: seq<Slot>, failed: seq<bool>) {
    failed == FailedAfter(my, n, seen) && Quiet(my, parse, n, seen)
  }

  /** What reading one socket does to its failed flag. */
  function Mark(my: Id, failed: seq<bool>, i: nat, read: bool, recv: Recv): seq<bool>
    requires i < |failed|
  {
    if read && Denies(my, recv) then failed[i := true] else failed
  }

  /** Passing one socket of a poll, unless it ends the search. */
  lemma PassSocket(my: Id, parse: AddrParser, n: nat, seen0: seq<Slot>, r: nat, m: nat, p: Poll, i: nat, failed: seq<bool>)
    requires PollFor(p, n) && i < n && Settled(my, parse, n, seen0 + PollSlots(r, m, p, i), failed)
    requires Readable(p.report[i]) && !failed[i] ==> Accepted(my, parse, p.recvs[i]) == None
    ensures Settled(my, parse, n, seen0 + PollSlots(r, m, p, i + 1),
                    Mark(my, failed, i, Readable(p.report[i]) && !failed[i], p.recvs[i]))
  {
    var slot := Slot(r, m, i, p.recvs[i]);
    if Readable(p.report[i]) {
      Associates(seen0, PollSlots(r, m, p, i), [slot]);
      ScanSnoc(my, parse, n, seen0 + PollSlots(r, m, p, i), slot);
      assert failed[i] ==> failed[i := true] == failed;
    } else {
      assert PollSlots(r, m, p, i) + [] == PollSlots(r, m, p, i);
    }
  }

  lemma FoundSlot(seen0: seq<Slot>, r: nat, m: nat, p: Poll, i: nat, n: nat)
    requires PollFor(p, n) && i < n && Readable(p.report[i])
    ensures seen0 + PollSlots(r, m, p, i) + [Slot(r, m, i, p.recvs[i])] <= seen0 + PollSlots(r, m, p, n)
  {
    Associates(seen0, PollSlots(r, m, p, i), [Slot(r, m, i, p.recvs[i])]);
    PollSlotsPrefix(r, m, p, i + 1, n);
    AppendPrefix(seen0, PollSlots(r, m, p, i + 1), PollSlots(r, m, p, n));
  }

  /** The inner loop: one recv on each ready socket. */
  method ReadReady(my: Id, parse: AddrParser, r: nat, ghost m: nat, p: Poll, ready: seq<bool>, failed0: seq<bool>, ghost seen0: seq<Slot>)
    returns (failed: seq<bool>, found: Option<SocketAddr>, ghost seen: seq<Slot>, ghost at: Slot)
    requires PollFor(p, |failed0|) && |ready| == |failed0| && Settled(my, parse, |failed0|, seen0, failed0)
    requires forall i :: 0 <= i < |failed0| ==> (ready[i] <==> !failed0[i] && Readable(p.report[i]))
    ensures |failed| == |failed0| && Settled(my, parse, |failed0|, seen, failed)
    ensures found == None ==> seen == seen0 + PollSlots(r, m, p, |failed0|)
    ensures found.Some? ==> seen + [at] <= seen0 + PollSlots(r, m, p, |failed0|) && Finds(my, parse, failed, at, found.value)
    ensures found.Some? ==> at.round == r
  {
    ghost var n := |failed0|;
    failed, found, at := failed0, None, Slot(0, 0, 0, RecvError);
    assert seen0 + [] == seen0;
    for i := 0 to |failed0|
      invariant |failed| == n && Settled(my, parse, n, seen0 + PollSlots(r, m, p, i), failed)
      invariant forall j :: i <= j < n ==> failed[j] == failed0[j]
    {
      if !ready[i] {
        PassSocket(my, parse, n, seen0, r, m, p, i, failed);
        continue;
      }
      var over, denied := None, false;
      match p.recvs[i] {
        case RecvError =>
        case Garbled =>
        case Received(resp) =>
          if resp.id == my {
            match resp.cmd {
              case Some(Redirect(_, addr)) =>
                if addr != [] { over := parse(addr); } else { denied := true; }
              case _ =>
            }
          }
      }
      if over.Some? {
        FoundSlot(seen0, r, m, p, i, n);
        return failed, over, seen0 + PollSlots(r, m, p, i), Slot(r, m, i, p.recvs[i]);
      }
      PassSocket(my, parse, n, seen0, r, m, p, i, failed);
      if denied {
        failed := failed[i := true];
      }
    }
    seen := seen0 + PollSlots(r, m, p, |failed0|);
  }

  lemma PollSucceeds(r: nat, polls: seq<Poll>, n: nat, m: nat, seen0: seq<Slot>)
    requires PollsFor(polls, n) && m < |polls| && !Broken(polls, m) && polls[m].outcome.Some?
    ensures !Broken(polls, m + 1)
    ensures seen0 + RoundSlots(r, polls, n, m + 1) == (seen0 + RoundSlots(r, polls, n, m)) + PollSlots(r, m, polls[m], n)
    ensures seen0 + RoundSlots(r, polls, n, m + 1) <= seen0 + RoundSlots(r, polls, n, |polls|)
  {
    Associates(seen0, RoundSlots(r, polls, n, m), PollSlots(r, m, polls[m], n));
    RoundSlotsPrefix(r, polls, n, m + 1, |polls|);
    AppendPrefix(seen0, RoundSlots(r, polls, n, m + 1), RoundSlots(r, polls, n, |polls|));
  }

  /** A failing poll leaves nothing more to read in the round. */
  lemma PollFails(r: nat, polls: seq<Poll>, n: nat, m: nat)
    requires PollsFor(polls, n) && m < |polls| && polls[m].outcome == None
    ensures RoundSlots(r, polls, n, m) == RoundSlots(r, polls, n, |polls|)
  {
    assert Broken(polls, m + 1);
    RoundSlotsPrefix(r, polls, n, m + 1, |polls|);
    assert RoundSlots(r, polls, n, m) + [] == RoundSlots(r, polls, n, m);
  }

  lemma RoundOver(my: Id, parse: AddrParser, n: nat, r: nat, polls: seq<Poll>, m: nat, seen0: seq<Slot>, failed: seq<bool>)
    requires PollsFor(polls, n) && m <= |polls| && AllTrue(failed)
    requires Settled(my, parse, n, seen0 + RoundSlots(r, polls, n, m), failed)
    ensures Settled(my, parse, n, seen0 + RoundSlots(r, polls, n, |polls|), failed)
  {
    RoundSlotsPrefix(r, polls, n, m, |polls|);
    RoundSlotsInRange(r, polls, n, |polls|);
    SkipRest(my, parse, n, seen0, RoundSlots(r, polls, n, m), RoundSlots(r, polls, n, |polls|));
  }

  /** The state of a round before poll m. */
  ghost predicate AtPoll(my: Id, parse: AddrParser, n: nat, r: nat, polls: seq<Poll>, m: nat, seen0: seq<Slot>, failed: seq<bool>)
    requires PollsFor(polls, n) && m <= |polls|
  {
    |failed| == n && Settled(my, parse, n, seen0 + RoundSlots(r, polls, n, m), failed) && !Broken(polls, m)
  }

  /** How a round ends: with everything in it passed, or at an acceptable answer. */
  ghost predicate RoundEnds(
      my: Id, parse: AddrParser, n: nat, r: nat, polls: seq<Poll>, seen0: seq<Slot>,
      failed: seq<bool>, found: Option<SocketAddr>, seen: seq<Slot>, at: Slot)
    requires PollsFor(polls, n)
  {
    && |failed| == n && Settled(my, parse, n, seen, failed)
    && (found == None ==> seen == seen0 + RoundSlots(r, polls, n, |polls|))
    && (found.Some? ==> seen + [at] <= seen0 + RoundSlots(r, polls, n, |polls|) && Finds(my, parse, failed, at, found.value))
    && (found.Some? ==> at.round == r)
  }

  /** One turn of the middle loop. */
  method OnePoll(my: Id, parse: AddrParser, r: nat, polls: seq<Poll>, m: nat, failed0: seq<bool>, ghost seen0: seq<Slot>)
    returns (over: bool, failed: seq<bool>, found: Option<SocketAddr>, ghost seen: seq<Slot>, ghost at: Slot)
    requires PollsFor(polls, |failed0|) && m < |polls| && AtPoll(my, parse, |failed0|, r, polls, m, seen0, failed0)
    ensures !over ==> AtPoll(my, parse, |failed0|, r, polls, m + 1, seen0, failed)
    ensures over ==> RoundEnds(my, parse, |failed0|, r, polls, seen0, failed, found, seen, at)
  {
    ghost var n := |failed0|;
    failed, found, at := failed0, None, Slot(0, 0, 0, RecvError);
    seen := seen0 + RoundSlots(r, polls, n, |polls|);
    if AllTrue(failed) {
      RoundOver(my, parse, n, r, polls, m, seen0, failed);
      return true, failed, found, seen, at;
    }
    var p := polls[m];
    var ready := PollSockets(failed, p.report, p.outcome);
    if ready == None {
      PollFails(r, polls, n, m);
      return true, failed, found, seen, at;
    }
    PollSucceeds(r, polls, n, m, seen0);
    failed, found, seen, at := ReadReady(my, parse, r, m, p, ready.value, failed, seen0 + RoundSlots(r, polls, n, m));
    over := found.Some?;
    if over {
      PrefixTransitive(seen + [at], seen0 + RoundSlots(r, polls, n, m + 1), seen0 + RoundSlots(r, polls, n, |polls|));
    }
  }

  /** The middle loop: polls until the round's time is up, a poll fails, or every server has failed. */
  method RunRound(my: Id, parse: AddrParser, r: nat, polls: seq<Poll>, failed0: seq<bool>, ghost seen0: seq<Slot>)
    returns (failed: seq<bool>, found: Option<SocketAddr>)
    requires PollsFor(polls, |failed0|) && Settled(my, parse, |failed0|, seen0, failed0)
    ensures exists seen, at :: RoundEnds(my, parse, |failed0|, r, polls, seen0, failed, found, seen, at)
  {
    ghost var n := |failed0|;
    failed := failed0;
    assert seen0 + [] == seen0;
    for m := 0 to |polls|
      invariant |failed| == n && AtPoll(my, parse, n, r, polls, m, seen0, failed)
    {
      var over;
      ghost var seen, at;
      over, failed, found, seen, at := OnePoll(my, parse, r, polls, m, failed, seen0);
      if over {
        return;
      }
    }
    found := None;
    assert RoundEnds(my, parse, n, r, polls, seen0, failed, None,
                     seen0 + RoundSlots(r, polls, n, |polls|), Slot(0, 0, 0, RecvError));
  }

  lemma PrefixTransitive(a: seq<Slot>, b: seq<Slot>, c: seq<Slot>)
    requires a <= b <= c
    ensures a <= c
  {
  }

  lemma SkipRest(my: Id, parse: AddrParser, n: nat, seen0: seq<Slot>, done: seq<Slot>, all: seq<Slot>)
    requires AllTrue(FailedAfter(my, n, seen0 + done)) && done <= all
    requires forall j :: 0 <= j < |all| ==> all[j].server < n
    ensures FailedAfter(my, n, seen0 + all) == FailedAfter(my, n, seen0 + done)
    ensures Quiet(my, parse, n, seen0 + all) <==> Quiet(my, parse, n, seen0 + done)
  {
    var more := all[|done|..];
    AllFailed(my, parse, n, seen0 + done, more);
    assert (seen0 + done) + more == seen0 + all;
  }

  lemma NoMore(my: Id, parse: AddrParser, n: nat, seen: seq<Slot>, slots: seq<Slot>)
    requires AllTrue(FailedAfter(my, n, seen)) && Quiet(my, parse, n, seen) && seen <= slots
    requires forall j :: 0 <= j < |slots| ==> slots[j].server < n
    ensures FailedAfter(my, n, slots) == FailedAfter(my, n, seen) && Quiet(my, parse, n, slots)
  {
    assert [] + seen == seen && [] + slots == slots;
    SkipRest(my, parse, n, [], seen, slots);
  }

  datatype Outcome = Connected(addr: SocketAddr) | SetupError | Failed

  /** The outcome is that of the first slot that is read and acceptable, number `stop`; or there is
      no such slot among all of them. */
  ghost predicate FirstAcceptable(
      my: Id, parse: AddrParser, setup: SocketAddr -> bool, slots: seq<Slot>, stop: nat, out: Outcome)
  {
    && stop <= |slots| && NothingYet(my, parse, slots, stop)
    && (out == Failed ==> stop == |slots|)
    && (out != Failed ==>
          && stop < |slots| && Heeded(my, slots, stop)
          && var addr := Accepted(my, parse, slots[stop].recv);
             addr.Some? && out == if setup(addr.value) then Connected(addr.value) else SetupError)
  }

  /** An Isync went once to each server that had not denied the target in the first k slots, and there
      was one. */
  ghost predicate SentTo(my: Id, n: nat, slots: seq<Slot>, k: nat, servers: seq<nat>) {
    && k <= |slots| && servers != []
    && (forall a, b :: 0 <= a < b < |servers| ==> servers[a] < servers[b])
    && (forall i: nat :: i in servers <==> i < n && !DeniedBefore(my, slots, k, i))
  }

  ghost predicate AllSent(my: Id, n: nat, rounds: seq<seq<Poll>>, slots: seq<Slot>, sends: seq<seq<nat>>)
    requires RoundsFor(rounds, n) && |sends| <= |rounds|
  {
    sends == [] ||
    var init := sends[..|sends| - 1];
    AllSent(my, n, rounds, slots, init) && SentTo(my, n, slots, |Slots(rounds, n, |init|)|, sends[|init|])
  }

  lemma {:induction false} AllSentMeans(my: Id, n: nat, rounds: seq<seq<Poll>>, slots: seq<Slot>, sends: seq<seq<nat>>)
    requires RoundsFor(rounds, n) && |sends| <= |rounds| && AllSent(my, n, rounds, slots, sends)
    ensures forall q :: 0 <= q < |sends| ==> SentTo(my, n, slots, |Slots(rounds, n, q)|, sends[q])
  {
    if sends != [] {
      var init := sends[..|sends| - 1];
      AllSentMeans(my, n, rounds, slots, init);
      assert forall q :: 0 <= q < |init| ==> init[q] == sends[q];
    }
  }

  lemma SentNext(my: Id, n: nat, rounds: seq<seq<Poll>>, slots: seq<Slot>, sends: seq<seq<nat>>)
    requires RoundsFor(rounds, n) && |sends| < |rounds| && AllSent(my, n, rounds, slots, sends)
    requires Slots(rounds, n, |sends|) <= slots && !AllTrue(FailedAfter(my, n, Slots(rounds, n, |sends|)))
    ensures AllSent(my, n, rounds, slots, sends + [LiveBelow(FailedAfter(my, n, Slots(rounds, n, |sends|)), n)])
  {
    var next := LiveBelow(FailedAfter(my, n, Slots(rounds, n, |sends|)), n);
    SentToLive(my, n, Slots(rounds, n, |sends|), slots);
    assert (sends + [next])[..|sends|] == sends;
  }

  lemma {:induction false} LiveIncreasing(failed: seq<bool>, n: nat)
    requires n <= |failed|
    ensures var live := LiveBelow(failed, n);
            && (forall a :: 0 <= a < |live| ==> live[a] < n)
            && (forall a, b :: 0 <= a < b < |live| ==> live[a] < live[b])
            && (forall i: nat :: i in live <==> i < n && !failed[i])
  {
    if n > 0 {
      LiveIncreasing(failed, n - 1);
      var live := LiveBelow(failed, n - 1);
      assert !failed[n - 1] ==> LiveBelow(failed, n) == live + [n - 1] && (live + [n - 1])[|live|] == n - 1;
      assert failed[n - 1] ==> LiveBelow(failed, n) == live;
    }
  }

  lemma SentToLive(my: Id, n: nat, seen: seq<Slot>, slots: seq<Slot>)
    requires seen <= slots && !AllTrue(FailedAfter(my, n, seen))
    ensures SentTo(my, n, slots, |seen|, LiveBelow(FailedAfter(my, n, seen), n))
  {
    LiveIncreasing(FailedAfter(my, n, seen), n);
    assert slots[..|seen|] == seen;
    forall i: nat | i < n ensures FailedAfter(my, n, seen)[i] <==> DeniedBefore(my, slots, |seen|, i) {
      FailedMeansDenied(my, n, slots, |seen|, i);
    }
  }

  lemma FailedExactly(my: Id, n: nat, seen: seq<Slot>, slots: seq<Slot>)
    requires seen <= slots
    ensures forall i :: 0 <= i < n ==> (FailedAfter(my, n, seen)[i] <==> DeniedBefore(my, slots, |seen|, i))
  {
    assert slots[..|seen|] == seen;
    forall i | 0 <= i < n ensures FailedAfter(my, n, seen)[i] <==> DeniedBefore(my, slots, |seen|, i) {
      FailedMeansDenied(my, n, slots, |seen|, i);
    }
  }

  lemma StoppedAt(my: Id, parse: AddrParser, setup: SocketAddr -> bool, n: nat,
                  seen: seq<Slot>, at: Slot, addr: SocketAddr, slots: seq<Slot>)
    requires Quiet(my, parse, n, seen) && Finds(my, parse, FailedAfter(my, n, seen), at, addr) && seen + [at] <= slots
    requires forall j :: 0 <= j < |slots| ==> slots[j].server < n
    ensures seen <= slots
    ensures FirstAcceptable(my, parse, setup, slots, |seen|, if setup(addr) then Connected(addr) else SetupError)
  {
    assert (seen + [at])[|seen|] == at && slots[..|seen|] == seen;
    QuietMeansNothing(my, parse, n, slots, |seen|);
    FailedMeansDenied(my, n, slots, |seen|, at.server);
  }

  lemma NoneFound(my: Id, parse: AddrParser, setup: SocketAddr -> bool, n: nat, slots: seq<Slot>)
    requires Quiet(my, parse, n, slots) && forall j :: 0 <= j < |slots| ==> slots[j].server < n
    ensures FirstAcceptable(my, parse, setup, slots, |slots|, Failed)
  {
    assert slots[..|slots|] == slots;
    QuietMeansNothing(my, parse, n, slots, |slots|);
  }

  /** What connect promises: the outcome of the first acceptable answer; the servers that have
      denied the target by then, and no others, are marked failed; each round an Isync went to each
      server not failed at its start; on success the rounds are those up to the answer's; and it gives
      up only after three rounds, or at the start of the first round that finds all failed. */
  ghost predicate Refines(
      my: Id, n: nat, parse: AddrParser, setup: SocketAddr -> bool, rounds: seq<seq<Poll>>,
      out: Outcome, failed: seq<bool>, sends: seq<seq<nat>>, stop: nat)
    requires RoundsFor(rounds, n)
  {
    var slots := Slots(rounds, n, |rounds|);
    && FirstAcceptable(my, parse, setup, slots, stop, out)
    && |failed| == n
    && (forall i :: 0 <= i < n ==> (failed[i] <==> DeniedBefore(my, slots, stop, i)))
    && |sends| <= |rounds|
    && (forall q :: 0 <= q < |sends| ==> SentTo(my, n, slots, |Slots(rounds, n, q)|, sends[q]))
    && (out == Failed ==> |sends| == |rounds| || AllTrue(failed))
    && (out != Failed ==> |sends| == slots[stop].round + 1)
    && (out == Failed && |sends| < |rounds| ==>
          var k := |Slots(rounds, n, |sends|)|;
          k <= |slots| && forall i :: 0 <= i < n ==> DeniedBefore(my, slots, k, i))
  }

  /** The state of connect at the start of round r. */
  ghost predicate AtRound(my: Id, n: nat, parse: AddrParser, rounds: seq<seq<Poll>>, r: nat, failed: seq<bool>, sends: seq<seq<nat>>)
    requires RoundsFor(rounds, n) && r <= |rounds|
  {
    && Settled(my, parse, n, Slots(rounds, n, r), failed)
    && |sends| == r
    && AllSent(my, n, rounds, Slots(rounds, n, |rounds|), sends)
  }

  lemma RoundStarts(my: Id, n: nat, parse: AddrParser, rounds: seq<seq<Poll>>, r: nat, failed: seq<bool>, sends: seq<seq<nat>>)
    requires RoundsFor(rounds, n) && r < |rounds| && AtRound(my, n, parse, rounds, r, failed, sends) && !AllTrue(failed)
    ensures AllSent(my, n, rounds, Slots(rounds, n, |rounds|), sends + [LiveBelow(failed, n)])
  {
    SlotsPrefix(rounds, n, r, |rounds|);
    SentNext(my, n, rounds, Slots(rounds, n, |rounds|), sends);
  }

  lemma FoundInSlots(
      my: Id, n: nat, parse: AddrParser, setup: SocketAddr -> bool, failed: seq<bool>,
      seen: seq<Slot>, at: Slot, addr: SocketAddr, slots: seq<Slot>)
    requires failed == FailedAfter(my, n, seen) && Quiet(my, parse, n, seen) && Finds(my, parse, failed, at, addr)
    requires seen + [at] <= slots && forall j :: 0 <= j < |slots| ==> slots[j].server < n
    ensures FirstAcceptable(my, parse, setup, slots, |seen|, if setup(addr) then Connected(addr) else SetupError)
    ensures |failed| == n && |seen| < |slots| && slots[|seen|] == at
    ensures forall i :: 0 <= i < n ==> (failed[i] <==> DeniedBefore(my, slots, |seen|, i))
  {
    StoppedAt(my, parse, setup, n, seen, at, addr, slots);
    FailedExactly(my, n, seen, slots);
    assert slots[|seen|] == (seen + [at])[|seen|];
  }

  lemma EndsFound(
      my: Id, n: nat, parse: AddrParser, setup: SocketAddr -> bool, rounds: seq<seq<Poll>>, r: nat,
      failed: seq<bool>, sends: seq<seq<nat>>, seen: seq<Slot>, at: Slot, addr: SocketAddr)
    requires RoundsFor(rounds, n) && r < |rounds| && |sends| == r + 1
    requires failed == FailedAfter(my, n, seen) && Quiet(my, parse, n, seen) && Finds(my, parse, failed, at, addr)
    requires seen + [at] <= Slots(rounds, n, r + 1) && at.round == r
    requires AllSent(my, n, rounds, Slots(rounds, n, |rounds|), sends)
    ensures Refines(my, n, parse, setup, rounds, if setup(addr) then Connected(addr) else SetupError, failed, sends, |seen|)
  {
    var slots := Slots(rounds, n, |rounds|);
    SeenInAll(rounds, n, r, seen + [at]);
    FoundInSlots(my, n, parse, setup, failed, seen, at, addr, slots);
    AllSentMeans(my, n, rounds, slots, sends);
    FoundRefines(my, n, parse, setup, rounds, failed, sends, |seen|, addr, slots);
  }

  lemma SeenInAll(rounds: seq<seq<Poll>>, n: nat, r: nat, seen: seq<Slot>)
    requires RoundsFor(rounds, n) && r < |rounds| && seen <= Slots(rounds, n, r + 1)
    ensures seen <= Slots(rounds, n, |rounds|)
    ensures forall j :: 0 <= j < |Slots(rounds, n, |rounds|)| ==> Slots(rounds, n, |rounds|)[j].server < n
  {
    SlotsPrefix(rounds, n, r + 1, |rounds|);
    SlotsInRange(rounds, n, |rounds|);
    PrefixTransitive(seen, Slots(rounds, n, r + 1), Slots(rounds, n, |rounds|));
  }

  lemma FoundRefines(
      my: Id, n: nat, parse: AddrParser, setup: SocketAddr -> bool, rounds: seq<seq<Poll>>,
      failed: seq<bool>, sends: seq<seq<nat>>, stop: nat, addr: SocketAddr, slots: seq<Slot>)
    requires RoundsFor(rounds, n) && slots == Slots(rounds, n, |rounds|)
    requires FirstAcceptable(my, parse, setup, slots, stop, if setup(addr) then Connected(addr) else SetupError)
    requires |failed| == n && stop < |slots| && |sends| == slots[stop].round + 1 && |sends| <= |rounds|
    requires forall i :: 0 <= i < n ==> (failed[i] <==> DeniedBefore(my, slots, stop, i))
    requires forall q :: 0 <= q < |sends| ==> SentTo(my, n, slots, |Slots(rounds, n, q)|, sends[q])
    ensures Refines(my, n, parse, setup, rounds, if setup(addr) then Connected(addr) else SetupError, failed, sends, stop)
  {
  }

  lemma EndsFailed(
      my: Id, n: nat, parse: AddrParser, setup: SocketAddr -> bool, rounds: seq<seq<Poll>>, r: nat,
      failed: seq<bool>, sends: seq<seq<nat>>)
    requires RoundsFor(rounds, n) && r <= |rounds| && AtRound(my, n, parse, rounds, r, failed, sends)
    requires r == |rounds| || AllTrue(failed)
    ensures Refines(my, n, parse, setup, rounds, Failed, failed, sends, |Slots(rounds, n, |rounds|)|)
  {
    var slots := Slots(rounds, n, |rounds|);
    SlotsPrefix(rounds, n, r, |rounds|);
    SlotsInRange(rounds, n, |rounds|);
    if r < |rounds| {
      NoMore(my, parse, n, Slots(rounds, n, r), slots);
      FailedExactly(my, n, Slots(rounds, n, r), slots);
    }
    NoneFound(my, parse, setup, n, slots);
    FailedExactly(my, n, slots, slots);
    AllSentMeans(my, n, rounds, slots, sends);
  }

  /**
   * Connector::connect, given what each poll and recv of each round yields. `setup` says whether the
   * local socket for a peer can be made. `sends` lists, round by round, the servers an Isync was
   * sent to; `stop` is the number of slots passed before the end.
   */
  method Connect(my: Id, n: nat, parse: AddrParser, setup: SocketAddr -> bool, rounds: seq<seq<Poll>>)
    returns (out: Outcome, failed: seq<bool>, sends: seq<seq<nat>>)
    requires |rounds| == ROUNDS && RoundsFor(rounds, n)
    ensures exists stop :: Refines(my, n, parse, setup, rounds, out, failed, sends, stop)
  {
    failed, sends := seq(n, _ => false), [];
    for r := 0 to |rounds|
      invariant AtRound(my, n, parse, rounds, r, failed, sends)
    {
      if AllTrue(failed) {
        EndsFailed(my, n, parse, setup, rounds, r, failed, sends);
        return Failed, failed, sends;
      }
      RoundStarts(my, n, parse, rounds, r, failed, sends);
      sends := sends + [LiveBelow(failed, n)];
      var found;
      failed, found := RunRound(my, parse, r, rounds[r], failed, Slots(rounds, n, r));
      ghost var seen, at :| RoundEnds(my, parse, n, r, rounds[r], Slots(rounds, n, r), failed, found, seen, at);
      if found.Some? {
        EndsFound(my, n, parse, setup, rounds, r, failed, sends, seen, at, found.value);
        return if setup(found.value) then Connected(found.value) else SetupError, failed, sends;
      }
    }
    EndsFailed(my, n, parse, setup, rounds, |rounds|, failed, sends);
    return Failed, failed, sends;
  }

  /** How many Isyncs go to server i. */
  function Isyncs(sends: seq<seq<nat>>, i: nat): nat {
    Total((servers: seq<nat>) => multiset(servers)[i], sends)
  }

  lemma {:induction false} OnceEach(servers: seq<nat>, i: nat)
    requires forall a, b :: 0 <= a < b < |servers| ==> servers[a] < servers[b]
    ensures multiset(servers)[i] <= 1
  {
    if servers != [] {
      var init, last := servers[..|servers| - 1], servers[|servers| - 1];
      assert servers == init + [last];
      OnceEach(init, i);
    }
  }

  lemma {:induction false} AtMostOneEach(sends: seq<seq<nat>>, i: nat)
    requires forall q :: 0 <= q < |sends| ==> multiset(sends[q])[i] <= 1
    ensures Isyncs(sends, i) <= |sends|
  {
    if sends != [] {
      assert forall q :: 0 <= q < |sends[1..]| ==> sends[1..][q] == sends[q + 1];
      AtMostOneEach(sends[1..], i);
    }
  }

  /** Over all the rounds a server is sent at most three Isyncs, and none in a round that starts after
      it has denied the target. */
  lemma SendsBounded(
      my: Id, n: nat, parse: AddrParser, setup: SocketAddr -> bool, rounds: seq<seq<Poll>>,
      out: Outcome, failed: seq<bool>, sends: seq<seq<nat>>, stop: nat, i: nat)
    requires |rounds| == ROUNDS && RoundsFor(rounds, n) && Refines(my, n, parse, setup, rounds, out, failed, sends, stop)
    ensures Isyncs(sends, i) <= 3
    ensures forall q, p :: 0 <= p <= q < |sends| && DeniedBefore(my, Slots(rounds, n, |rounds|), |Slots(rounds, n, p)|, i) ==>
              i !in sends[q]
  {
    var slots := Slots(rounds, n, |rounds|);
    forall q | 0 <= q < |sends| ensures multiset(sends[q])[i] <= 1 {
      assert SentTo(my, n, slots, |Slots(rounds, n, q)|, sends[q]);
      OnceEach(sends[q], i);
    }
    AtMostOneEach(sends, i);
    forall q, p | 0 <= p <= q < |sends| && DeniedBefore(my, slots, |Slots(rounds, n, p)|, i) ensures i !in sends[q] {
      assert SentTo(my, n, slots, |Slots(rounds, n, q)|, sends[q]);
      SlotsPrefix(rounds, n, p, q);
    }
  }

  /** Every Response read from server i's socket is one that server i sent. */
  ghost predicate HearsServers(slots: seq<Slot>, net: Net) {
    forall k :: 0 <= k < |slots| && slots[k].recv.Received? ==>
      slots[k].server < |net.servers| && slots[k].recv.resp in net.servers[slots[k].server].sent
  }

  /** The parser reads back the addresses the servers have observed as they printed them. */
  ghost predicate ReadsBack(parse: AddrParser, net: Net) {
    forall j, r :: 0 <= j < |net.servers| && r in net.servers[j].seen ==> parse(r.1) == Some(r.1)
  }

  /** The whole way: if every Isync under a connector's id names `target`, the address its connect
      arrives at, over a lossy, duplicating and reordering network and whatever its sockets do, is
      one a server saw on an Rsync that the target's listener sent in answer to an Fsync for it. */
  lemma ConnectReachesTarget(
      servers: nat, es: seq<Event>, ns: seq<Net>, i: nat,
      my: Id, n: nat, parse: AddrParser, setup: SocketAddr -> bool, rounds: seq<seq<Poll>>,
      addr: SocketAddr, failed: seq<bool>, sends: seq<seq<nat>>, stop: nat, target: Id)
    requires IsRun(servers, es, ns) && i < |ns| && RoundsFor(rounds, n)
    requires Refines(my, n, parse, setup, rounds, Connected(addr), failed, sends, stop)
    requires HearsServers(Slots(rounds, n, |rounds|), ns[i])
    requires ReadsBack(parse, ns[i])
    requires forall t :: Request(my, Some(Isync(t))) in ns[i].requests ==> t == target
    ensures exists j :: ListenersAddress(ns[i], j, my, target, addr)
  {
    var slot := Slots(rounds, n, |rounds|)[stop];
    var resp := slot.recv.resp;
    var text := resp.cmd.value.addr;
    OfferedIsTargets(servers, es, ns, i, slot.server, resp, my, text);
    assert ListenersAddress(ns[i], slot.server, my, resp.cmd.value.id, text);
    assert (Request(resp.cmd.value.id, Some(Rsync(my))), text) in ns[i].servers[slot.server].seen;
  }
}
