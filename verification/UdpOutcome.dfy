/**
 * What Connector::connect comes to, told by what its sockets yield and nothing else: which answer it
 * takes, which servers it gives up, and whom it asks.
 */
module UdpOutcome {
  import opened Base
  import opened Messages
  import opened UdpConnector
  import opened UdpPoll
  import opened Sequences

  /** There is something to read: no poll of the round has failed so far, and this one reports the socket
      readable. */
  ghost predicate Available(rounds: seq<seq<Poll>>, n: nat, x: Slot)
    requires RoundsFor(rounds, n)
  {
    && x.round < |rounds| && x.poll < |rounds[x.round]| && x.server < n
    && PollFor(rounds[x.round][x.poll], n)
    && (forall j :: 0 <= j <= x.poll ==> rounds[x.round][j].outcome.Some?)
    && rounds[x.round][x.poll].report[x.server] == Some(true)
    && x.recv == rounds[x.round][x.poll].recvs[x.server]
  }

  /** By round, then poll, then server. */
  predicate Before(x: Slot, y: Slot) {
    || x.round < y.round
    || (x.round == y.round && x.poll < y.poll)
    || (x.round == y.round && x.poll == y.poll && x.server < y.server)
  }

  ghost predicate Sorted(slots: seq<Slot>) {
    forall a, b :: 0 <= a < b < |slots| ==> Before(slots[a], slots[b])
  }

  lemma SortedConcat(a: seq<Slot>, b: seq<Slot>)
    requires Sorted(a) && Sorted(b) && forall i, j :: 0 <= i < |a| && 0 <= j < |b| ==> Before(a[i], b[j])
    ensures Sorted(a + b)
  {
  }

  // ---- the slots are what is available, in order ----

  lemma {:induction false} PollSlotsExact(r: nat, m: nat, p: Poll, i: nat)
    requires i <= |p.report| && |p.recvs| == |p.report|
    ensures Sorted(PollSlots(r, m, p, i))
    ensures forall x :: x in PollSlots(r, m, p, i) <==>
              x.round == r && x.poll == m && x.server < i && p.report[x.server] == Some(true) && x.recv == p.recvs[x.server]
  {
    if i > 0 {
      PollSlotsExact(r, m, p, i - 1);
      var init := PollSlots(r, m, p, i - 1);
      var last := if Readable(p.report[i - 1]) then [Slot(r, m, i - 1, p.recvs[i - 1])] else [];
      forall a, b | 0 <= a < |init| && 0 <= b < |last| ensures Before(init[a], last[b]) {
        assert init[a] in init;
      }
      SortedConcat(init, last);
    }
  }

  /** Available in round r, with the polls of the round given, before poll m. */
  ghost predicate InRound(r: nat, polls: seq<Poll>, n: nat, m: nat, x: Slot)
    requires PollsFor(polls, n) && m <= |polls|
  {
    && x.round == r && x.poll < m && x.server < n && PollFor(polls[x.poll], n)
    && (forall j :: 0 <= j <= x.poll ==> polls[j].outcome.Some?)
    && polls[x.poll].report[x.server] == Some(true) && x.recv == polls[x.poll].recvs[x.server]
  }

  ghost predicate AreInRound(slots: seq<Slot>, r: nat, polls: seq<Poll>, n: nat, m: nat)
    requires PollsFor(polls, n) && m <= |polls|
  {
    Sorted(slots) && forall x :: x in slots <==> InRound(r, polls, n, m, x)
  }

  lemma NextPoll(init: seq<Slot>, r: nat, polls: seq<Poll>, n: nat, m: nat)
    requires PollsFor(polls, n) && m < |polls| && AreInRound(init, r, polls, n, m)
    ensures AreInRound(init + if Broken(polls, m + 1) then [] else PollSlots(r, m, polls[m], n), r, polls, n, m + 1)
  {
    assert PollFor(polls[m], n);
    PollSlotsExact(r, m, polls[m], n);
    if Broken(polls, m + 1) {
      assert init + [] == init;
    } else {
      var last := PollSlots(r, m, polls[m], n);
      forall a, b | 0 <= a < |init| && 0 <= b < |last| ensures Before(init[a], last[b]) {
        assert init[a] in init && last[b] in last;
      }
      SortedConcat(init, last);
    }
  }

  lemma {:induction false} RoundSlotsExact(r: nat, polls: seq<Poll>, n: nat, m: nat)
    requires PollsFor(polls, n) && m <= |polls|
    ensures AreInRound(RoundSlots(r, polls, n, m), r, polls, n, m)
  {
    if m > 0 {
      var init := RoundSlots(r, polls, n, m - 1);
      RoundSlotsExact(r, polls, n, m - 1);
      NextPoll(init, r, polls, n, m - 1);
    }
  }

  /** The given slots are what is available in the first r rounds, in order. */
  ghost predicate AreAvailable(slots: seq<Slot>, rounds: seq<seq<Poll>>, n: nat, r: nat)
    requires RoundsFor(rounds, n)
  {
    Sorted(slots) && forall x :: x in slots <==> x.round < r && Available(rounds, n, x)
  }

  lemma NextRound(init: seq<Slot>, last: seq<Slot>, rounds: seq<seq<Poll>>, n: nat, r: nat)
    requires r < |rounds| && RoundsFor(rounds, n) && AreAvailable(init, rounds, n, r)
    requires AreInRound(last, r, rounds[r], n, |rounds[r]|)
    ensures AreAvailable(init + last, rounds, n, r + 1)
  {
    forall a, b | 0 <= a < |init| && 0 <= b < |last| ensures Before(init[a], last[b]) {
      assert init[a] in init && last[b] in last;
    }
    SortedConcat(init, last);
    forall x ensures x in init + last <==> x.round < r + 1 && Available(rounds, n, x) {
      if x.round == r {
        assert Available(rounds, n, x) <==> InRound(r, rounds[r], n, |rounds[r]|, x);
      }
    }
  }

  lemma OneMoreRound(rounds: seq<seq<Poll>>, n: nat, r: nat)
    requires r < |rounds| && RoundsFor(rounds, n) && AreAvailable(Slots(rounds, n, r), rounds, n, r)
    ensures AreAvailable(Slots(rounds, n, r + 1), rounds, n, r + 1)
  {
    var polls := rounds[r];
    var last := RoundSlots(r, polls, n, |polls|);
    RoundSlotsExact(r, polls, n, |polls|);
    NextRound(Slots(rounds, n, r), last, rounds, n, r);
  }

  ghost function SlotsAreAvailable(rounds: seq<seq<Poll>>, n: nat): nat -> bool
    requires RoundsFor(rounds, n)
  {
    (q: nat) => q <= |rounds| && AreAvailable(Slots(rounds, n, q), rounds, n, q)
  }

  lemma RoundCarries(rounds: seq<seq<Poll>>, n: nat, q: nat)
    requires q < |rounds| && RoundsFor(rounds, n)
    ensures Carries(SlotsAreAvailable(rounds, n), q)
  {
    if SlotsAreAvailable(rounds, n)(q) {
      OneMoreRound(rounds, n, q);
    }
  }

  lemma SlotsExact(rounds: seq<seq<Poll>>, n: nat, r: nat)
    requires r <= |rounds| && RoundsFor(rounds, n)
    ensures AreAvailable(Slots(rounds, n, r), rounds, n, r)
  {
    var p := SlotsAreAvailable(rounds, n);
    forall q: nat | q < r ensures Carries(p, q) { RoundCarries(rounds, n, q); }
    Throughout(p, 0, r);
  }

  // ---- answers ----

  /** The answer gives address `a`, under whatever id. */
  ghost predicate Gives(my: Id, parse: AddrParser, recv: Recv, a: SocketAddr) {
    exists id: Id, addr: Text ::
      recv == Received(Response(my, Some(Redirect(id, addr)))) && addr != [] && parse(addr) == Some(a)
  }

  /** The answer says that the target is not known. */
  ghost predicate SaysUnknown(my: Id, recv: Recv) {
    exists id: Id :: recv == Received(Response(my, Some(Redirect(id, []))))
  }

  lemma AnswersMean(my: Id, parse: AddrParser, recv: Recv)
    ensures Denies(my, recv) <==> SaysUnknown(my, recv)
    ensures forall a :: Accepted(my, parse, recv) == Some(a) <==> Gives(my, parse, recv, a)
  {
    if recv.Received? && recv.resp.id == my && recv.resp.cmd.Some? && recv.resp.cmd.value.Redirect? {
      var Redirect(id, addr) := recv.resp.cmd.value;
      assert recv == Received(Response(my, Some(Redirect(id, addr))));
    }
  }

  /** Server i has said so in something available before x. */
  ghost predicate Unknown(rounds: seq<seq<Poll>>, n: nat, my: Id, i: nat, x: Slot)
    requires RoundsFor(rounds, n)
  {
    exists y :: Available(rounds, n, y) && y.server == i && Before(y, x) && SaysUnknown(my, y.recv)
  }

  /** Server i has said so in an earlier round than q. */
  ghost predicate UnknownBy(rounds: seq<seq<Poll>>, n: nat, my: Id, i: nat, q: nat)
    requires RoundsFor(rounds, n)
  {
    exists y :: Available(rounds, n, y) && y.server == i && y.round < q && SaysUnknown(my, y.recv)
  }

  ghost predicate Acceptable(rounds: seq<seq<Poll>>, n: nat, my: Id, parse: AddrParser, x: Slot, a: SocketAddr)
    requires RoundsFor(rounds, n)
  {
    Available(rounds, n, x) && Gives(my, parse, x.recv, a) && !Unknown(rounds, n, my, x.server, x)
  }

  /** The slots before one of them are those that are available before it. */
  lemma DeniedThenUnknown(slots: seq<Slot>, rounds: seq<seq<Poll>>, n: nat, my: Id, parse: AddrParser, k: nat, i: nat)
    requires RoundsFor(rounds, n) && AreAvailable(slots, rounds, n, |rounds|) && k < |slots| && DeniedBefore(my, slots, k, i)
    ensures Unknown(rounds, n, my, i, slots[k])
  {
    var j :| 0 <= j < k && slots[j].server == i && Denies(my, slots[j].recv);
    AnswersMean(my, parse, slots[j].recv);
    assert slots[j] in slots;
  }

  lemma UnknownThenDenied(slots: seq<Slot>, rounds: seq<seq<Poll>>, n: nat, my: Id, parse: AddrParser, k: nat, i: nat)
    requires RoundsFor(rounds, n) && AreAvailable(slots, rounds, n, |rounds|) && k < |slots|
    requires Unknown(rounds, n, my, i, slots[k])
    ensures DeniedBefore(my, slots, k, i)
  {
    var y :| Available(rounds, n, y) && y.server == i && Before(y, slots[k]) && SaysUnknown(my, y.recv);
    AnswersMean(my, parse, y.recv);
    assert y in slots;
    var j :| 0 <= j < |slots| && slots[j] == y;
    assert j < k;
  }

  lemma DeniedMeansUnknown(rounds: seq<seq<Poll>>, n: nat, my: Id, parse: AddrParser, k: nat, i: nat)
    requires RoundsFor(rounds, n) && k < |Slots(rounds, n, |rounds|)|
    ensures var slots := Slots(rounds, n, |rounds|);
            DeniedBefore(my, slots, k, i) <==> Unknown(rounds, n, my, i, slots[k])
  {
    var slots := Slots(rounds, n, |rounds|);
    SlotsExact(rounds, n, |rounds|);
    if DeniedBefore(my, slots, k, i) {
      DeniedThenUnknown(slots, rounds, n, my, parse, k, i);
    }
    if Unknown(rounds, n, my, i, slots[k]) {
      UnknownThenDenied(slots, rounds, n, my, parse, k, i);
    }
  }

  /** The slots of the first q rounds are those that are available in them. */
  lemma DeniedInPart(
      part: seq<Slot>, slots: seq<Slot>, rounds: seq<seq<Poll>>, n: nat, my: Id, parse: AddrParser, q: nat, i: nat)
    requires RoundsFor(rounds, n) && AreAvailable(part, rounds, n, q) && part <= slots
    ensures DeniedBefore(my, slots, |part|, i) <==> UnknownBy(rounds, n, my, i, q)
  {
    if DeniedBefore(my, slots, |part|, i) {
      var j :| 0 <= j < |part| && slots[j].server == i && Denies(my, slots[j].recv);
      AnswersMean(my, parse, slots[j].recv);
      assert part[j] in part;
    }
    if UnknownBy(rounds, n, my, i, q) {
      var y :| Available(rounds, n, y) && y.server == i && y.round < q && SaysUnknown(my, y.recv);
      AnswersMean(my, parse, y.recv);
      assert y in part;
      var j :| 0 <= j < |part| && part[j] == y;
      assert slots[j] == y;
    }
  }

  lemma DeniedByRound(rounds: seq<seq<Poll>>, n: nat, my: Id, parse: AddrParser, q: nat, i: nat)
    requires RoundsFor(rounds, n) && q <= |rounds|
    ensures var slots, k := Slots(rounds, n, |rounds|), |Slots(rounds, n, q)|;
            k <= |slots| && (DeniedBefore(my, slots, k, i) <==> UnknownBy(rounds, n, my, i, q))
  {
    SlotsExact(rounds, n, q);
    SlotsPrefix(rounds, n, q, |rounds|);
    DeniedInPart(Slots(rounds, n, q), Slots(rounds, n, |rounds|), rounds, n, my, parse, q, i);
  }

  /** A slot is read and acceptable exactly if it is acceptable as an answer. */
  lemma AcceptableSlot(rounds: seq<seq<Poll>>, n: nat, my: Id, parse: AddrParser, k: nat, a: SocketAddr)
    requires RoundsFor(rounds, n) && k < |Slots(rounds, n, |rounds|)|
    ensures var slots := Slots(rounds, n, |rounds|);
            Heeded(my, slots, k) && Accepted(my, parse, slots[k].recv) == Some(a) <==>
            Acceptable(rounds, n, my, parse, slots[k], a)
  {
    var slots := Slots(rounds, n, |rounds|);
    SlotsExact(rounds, n, |rounds|);
    assert slots[k] in slots;
    AnswersMean(my, parse, slots[k].recv);
    DeniedMeansUnknown(rounds, n, my, parse, k, slots[k].server);
  }

  /** Whatever is acceptable comes no earlier than where connect stopped. */
  lemma NoneEarlier(
      my: Id, n: nat, parse: AddrParser, setup: SocketAddr -> bool, rounds: seq<seq<Poll>>,
      out: Outcome, failed: seq<bool>, sends: seq<seq<nat>>, stop: nat, x: Slot, a: SocketAddr)
    requires RoundsFor(rounds, n) && Refines(my, n, parse, setup, rounds, out, failed, sends, stop)
    requires Acceptable(rounds, n, my, parse, x, a)
    ensures out != Failed && stop < |Slots(rounds, n, |rounds|)| && !Before(x, Slots(rounds, n, |rounds|)[stop])
  {
    SlotsExact(rounds, n, |rounds|);
    var k := IndexOf(Slots(rounds, n, |rounds|), rounds, n, x);
    AcceptableSlot(rounds, n, my, parse, k, a);
    assert k >= stop;
    NotBefore(Slots(rounds, n, |rounds|), stop, k);
  }

  lemma IndexOf(slots: seq<Slot>, rounds: seq<seq<Poll>>, n: nat, x: Slot) returns (k: nat)
    requires RoundsFor(rounds, n) && AreAvailable(slots, rounds, n, |rounds|) && Available(rounds, n, x)
    ensures k < |slots| && slots[k] == x && Sorted(slots)
  {
    assert x in slots;
    k :| 0 <= k < |slots| && slots[k] == x;
  }

  lemma NotBefore(slots: seq<Slot>, j: nat, k: nat)
    requires Sorted(slots) && j <= k < |slots|
    ensures !Before(slots[k], slots[j])
  {
  }

  /** connect takes an answer exactly if there is an acceptable one: for its own id, with an address that
      parses, under any id, from a server that has not said before that it does not know the target. */
  lemma FailsIff(
      my: Id, n: nat, parse: AddrParser, setup: SocketAddr -> bool, rounds: seq<seq<Poll>>,
      out: Outcome, failed: seq<bool>, sends: seq<seq<nat>>, stop: nat)
    requires RoundsFor(rounds, n) && Refines(my, n, parse, setup, rounds, out, failed, sends, stop)
    ensures out == Failed <==> forall x, a :: !Acceptable(rounds, n, my, parse, x, a)
  {
    var slots := Slots(rounds, n, |rounds|);
    if out != Failed {
      var a := Accepted(my, parse, slots[stop].recv).value;
      AcceptableSlot(rounds, n, my, parse, stop, a);
    } else {
      forall x, a ensures !Acceptable(rounds, n, my, parse, x, a) {
        if Acceptable(rounds, n, my, parse, x, a) {
          NoneEarlier(my, n, parse, setup, rounds, out, failed, sends, stop, x, a);
        }
      }
    }
  }

  /** It is then the first one, by round, poll and server; the servers marked failed are those that have
      said before it that they do not know the target; and no round after it is started. */
  lemma TakesFirst(
      my: Id, n: nat, parse: AddrParser, setup: SocketAddr -> bool, rounds: seq<seq<Poll>>,
      out: Outcome, failed: seq<bool>, sends: seq<seq<nat>>, stop: nat) returns (x: Slot, a: SocketAddr)
    requires RoundsFor(rounds, n) && Refines(my, n, parse, setup, rounds, out, failed, sends, stop) && out != Failed
    ensures Acceptable(rounds, n, my, parse, x, a) && out == if setup(a) then Connected(a) else SetupError
    ensures forall y, b :: Acceptable(rounds, n, my, parse, y, b) ==> !Before(y, x)
    ensures forall i :: 0 <= i < n ==> (failed[i] <==> Unknown(rounds, n, my, i, x))
    ensures |sends| == x.round + 1
  {
    var slots := Slots(rounds, n, |rounds|);
    x, a := slots[stop], Accepted(my, parse, slots[stop].recv).value;
    AcceptableSlot(rounds, n, my, parse, stop, a);
    forall y, b | Acceptable(rounds, n, my, parse, y, b) ensures !Before(y, x) {
      NoneEarlier(my, n, parse, setup, rounds, out, failed, sends, stop, y, b);
    }
    forall i: nat | i < n ensures failed[i] <==> Unknown(rounds, n, my, i, x) {
      DeniedMeansUnknown(rounds, n, my, parse, stop, i);
    }
  }

  /** In the rounds it starts, connect asks each server once that has not said in an earlier round that it
      does not know the target, and no other; if it fails, it has started all rounds, or all servers have
      said so by the first one it has not. */
  lemma AsksExactly(
      my: Id, n: nat, parse: AddrParser, setup: SocketAddr -> bool, rounds: seq<seq<Poll>>,
      out: Outcome, failed: seq<bool>, sends: seq<seq<nat>>, stop: nat, q: nat, i: nat)
    requires RoundsFor(rounds, n) && Refines(my, n, parse, setup, rounds, out, failed, sends, stop)
    ensures q < |sends| ==>
              && sends[q] != [] && multiset(sends[q])[i] <= 1
              && (i in sends[q] <==> i < n && !UnknownBy(rounds, n, my, i, q))
    ensures |sends| <= |rounds|
    ensures out == Failed && |sends| < |rounds| && i < n ==> UnknownBy(rounds, n, my, i, |sends|)
    ensures out == Failed && i < n ==> (failed[i] <==> UnknownBy(rounds, n, my, i, |rounds|))
  {
    var slots := Slots(rounds, n, |rounds|);
    if q < |sends| {
      assert SentTo(my, n, slots, |Slots(rounds, n, q)|, sends[q]);
      DeniedByRound(rounds, n, my, parse, q, i);
      OnceEach(sends[q], i);
    }
    DeniedByRound(rounds, n, my, parse, |sends|, i);
    DeniedByRound(rounds, n, my, parse, |rounds|, i);
  }
}
