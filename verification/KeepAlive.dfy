/**
 * The listener's keep-alive against the server's expiry: a listener that keeps pinging is never
 * collected, although pings are jittered and some are lost.
 */
module KeepAlive {
  import opened Base
  import opened Messages
  import opened UdpRegistry
  import opened UdpListener
  import opened Sequences
  import UdpServer

  /** When a log entry happened; a collection compares with 60 s before. */
  function When(ev: LogEntry): int {
    match ev case Got(_, _, now) => now case Collected(expire) => expire + LIFETIME
  }

  ghost predicate InTimeOrder(log: seq<LogEntry>) {
    forall i, j :: 0 <= i < j < |log| ==> When(log[i]) <= When(log[j])
  }

  predicate IsPingOf(ev: LogEntry, k: Id) {
    ev.Got? && ev.req == Request(k, Some(Ping))
  }

  /** The server receives the ping of pass x, at most D after it was sent. */
  ghost predicate Delivered(log: seq<LogEntry>, k: Id, t: Turn, D: Time) {
    exists i :: 0 <= i < |log| && IsPingOf(log[i], k) && t.sent <= When(log[i]) <= t.sent + D
  }

  /** Of three successive pings at least one is delivered. */
  ghost predicate NoThreeLost(log: seq<LogEntry>, k: Id, turns: seq<Turn>, D: Time) {
    forall a: nat, b: nat, c: nat :: Successive(turns, a, b) && Successive(turns, b, c) ==>
      Delivered(log, k, turns[a], D) || Delivered(log, k, turns[b], D) || Delivered(log, k, turns[c], D)
  }

  /** The listener `k` uses its id alone: it pings from its first pass on, never says Bye, and is
      still running at every collection. */
  ghost predicate Listening(log: seq<LogEntry>, k: Id, turns: seq<Turn>) {
    && turns != []
    && (forall i :: 0 <= i < |log| && log[i].Got? && log[i].req.id == k ==>
          log[i].req.cmd != Some(Bye) && turns[0].sent <= log[i].now)
    && (forall i :: 0 <= i < |log| && log[i].Collected? ==> When(log[i]) <= turns[|turns| - 1].checked)
  }

  /** The last ping sent no later than t. */
  lemma LastPingBy(turns: seq<Turn>, t: Time) returns (a: nat)
    requires turns != [] && turns[0].sent <= t
    ensures a < |turns| && Pings(turns, a) && turns[a].sent <= t
    ensures forall b :: a < b < |turns| && Pings(turns, b) ==> t < turns[b].sent
  {
    a := 0;
    var k := 1;
    while k < |turns|
      invariant a < k <= |turns| && Pings(turns, a) && turns[a].sent <= t
      invariant forall b :: a < b < k && Pings(turns, b) ==> t < turns[b].sent
    {
      if Pings(turns, k) && turns[k].sent <= t {
        a := k;
      }
      k := k + 1;
    }
  }

  /** The three pings after any moment t are sent within 60 s of t, with D to spare. */
  lemma ThreePings(turns: seq<Turn>, d: Time, e: Time, D: Time, t: Time) returns (b1: nat, b2: nat, b3: nat)
    requires Paced(turns, d, e) && 3 * (d + e) + D < 15 * SECOND
    requires turns != [] && turns[0].sent <= t && t + LIFETIME <= turns[|turns| - 1].checked
    ensures Successive(turns, b1, b2) && Successive(turns, b2, b3)
    ensures t < turns[b1].sent && turns[b1].sent <= turns[b2].sent <= turns[b3].sent && turns[b3].sent + D < t + LIFETIME
  {
    var a := LastPingBy(turns, t);
    b1 := NextPing(turns, d, e, a);
    PingSpacing(turns, d, e, a, b1);
    b2 := NextPing(turns, d, e, b1);
    PingSpacing(turns, d, e, b1, b2);
    b3 := NextPing(turns, d, e, b2);
    PingSpacing(turns, d, e, b2, b3);
  }

  /** After any moment t, one of the next three pings reaches the server within 60 s of t. */
  lemma DeliveredSoon(log: seq<LogEntry>, k: Id, turns: seq<Turn>, d: Time, e: Time, D: Time, t: Time) returns (i: nat)
    requires Paced(turns, d, e) && NoThreeLost(log, k, turns, D) && 3 * (d + e) + D < 15 * SECOND
    requires turns != [] && turns[0].sent <= t && t + LIFETIME <= turns[|turns| - 1].checked
    ensures i < |log| && IsPingOf(log[i], k) && t < When(log[i]) < t + LIFETIME
  {
    var b1, b2, b3 := ThreePings(turns, d, e, D, t);
    var x := if Delivered(log, k, turns[b1], D) then b1 else if Delivered(log, k, turns[b2], D) then b2 else b3;
    assert Delivered(log, k, turns[x], D);
    i :| 0 <= i < |log| && IsPingOf(log[i], k) && turns[x].sent <= When(log[i]) <= turns[x].sent + D;
  }

  /** The server's log, the listener's passes, and a network that is not too bad: a pass takes at
      most d, the lag between a ping and its time stamp is at most e, no three pings in a row are
      lost, and delivery takes at most D. */
  ghost predicate Healthy(log: seq<LogEntry>, k: Id, turns: seq<Turn>, d: Time, e: Time, D: Time) {
    && InTimeOrder(log) && Listening(log, k, turns) && Paced(turns, d, e) && NoThreeLost(log, k, turns, D)
    && 3 * (d + e) + D < 15 * SECOND
  }

  /** Within 60 s of a touch there is another. */
  lemma TouchedBetween(
      log: seq<LogEntry>, k: Id, turns: seq<Turn>, d: Time, e: Time, D: Time, i: nat, g: nat) returns (j: nat)
    requires Healthy(log, k, turns, d, e, D) && i < |log| && g < |log| && log[g].Collected? && Touches(log, i, k)
    requires log[i].now + LIFETIME <= When(log[g])
    ensures i < j < g && Touches(log, j, k)
  {
    j := DeliveredSoon(log, k, turns, d, e, D, log[i].now);
    assert When(log[i]) < When(log[j]) < When(log[g]);
  }

  /** A collection leaves a listening, registered peer in place. */
  lemma SurvivesCollection(log: seq<LogEntry>, k: Id, turns: seq<Turn>, d: Time, e: Time, D: Time, g: nat)
    requires Healthy(log, k, turns, d, e, D)
    requires g < |log| && log[g].Collected? && k in ClientsAfter(log[..g])
    ensures k in ClientsAfter(log[..g + 1])
  {
    RegistryRefinesLog(log, g, k);
    AfterOneMore(log, g);
    var m := ClientsAfter(log[..g]);
    var i :| 0 <= i < g && Current(log, g, k, i) && m[k] == Client(log[i].addr, log[i].now);
    if log[i].now + LIFETIME <= When(log[g]) {
      var j := TouchedBetween(log, k, turns, d, e, D, i, g);
      assert false;
    }
  }

  lemma SurvivesEntry(log: seq<LogEntry>, k: Id, turns: seq<Turn>, d: Time, e: Time, D: Time, n: nat)
    requires Healthy(log, k, turns, d, e, D)
    requires n < |log| && k in ClientsAfter(log[..n])
    ensures k in ClientsAfter(log[..n + 1])
  {
    if log[n].Collected? {
      SurvivesCollection(log, k, turns, d, e, D, n);
    } else {
      AfterOneMore(log, n);
      RequestKeeps(ClientsAfter(log[..n]), log[n], k);
    }
  }

  /** k is in the map after m entries. */
  function Listed(log: seq<LogEntry>, k: Id): nat -> bool {
    (m: nat) => m <= |log| && k in ClientsAfter(log[..m])
  }

  lemma ListedCarries(log: seq<LogEntry>, k: Id, turns: seq<Turn>, d: Time, e: Time, D: Time, m: nat)
    requires Healthy(log, k, turns, d, e, D) && m < |log|
    ensures Carries(Listed(log, k), m)
  {
    if k in ClientsAfter(log[..m]) {
      SurvivesEntry(log, k, turns, d, e, D, m);
    }
  }

  /** Once registered, a listener that keeps pinging stays registered, through every request and every
      collection. */
  lemma NeverDropped(
      log: seq<LogEntry>, k: Id, turns: seq<Turn>, d: Time, e: Time, D: Time, since: nat, n: nat)
    requires Healthy(log, k, turns, d, e, D)
    requires since <= n <= |log| && k in ClientsAfter(log[..since])
    ensures k in ClientsAfter(log[..n])
  {
    forall m: nat | since <= m < n ensures Carries(Listed(log, k), m) {
      ListedCarries(log, k, turns, d, e, D, m);
    }
    Throughout(Listed(log, k), since, n);
  }

  /** No request but its own Bye takes a peer out of the map. */
  lemma RequestKeeps(m: Clients, ev: LogEntry, k: Id)
    requires ev.Got? && k in m && !(ev.req.id == k && ev.req.cmd == Some(Bye))
    ensures k in Apply(m, ev)
  {
  }

  // ---- for the server's own runs ----

  lemma {:induction false} LogInTimeOrder(start: Time, passes: seq<UdpServer.Pass>)
    requires UdpServer.Timed(start, passes)
    ensures var log := UdpServer.After(start, passes).log;
            && InTimeOrder(log)
            && forall i :: 0 <= i < |log| ==> When(log[i]) <= UdpServer.LastReading(start, passes)
  {
    if passes != [] {
      LogInTimeOrder(start, passes[..|passes| - 1]);
    }
  }

  /** The same in terms of the server's loop: a listener in the map after some number of passes is in
      the map after every later pass. */
  lemma ListenerStays(
      start: Time, passes: seq<UdpServer.Pass>, k: Id, turns: seq<Turn>, d: Time, e: Time, D: Time, n: nat)
    requires UdpServer.Timed(start, passes) && n <= |passes|
    requires var log := UdpServer.After(start, passes).log;
             Listening(log, k, turns) && Paced(turns, d, e) && NoThreeLost(log, k, turns, D)
    requires 3 * (d + e) + D < 15 * SECOND
    requires k in UdpServer.After(start, passes[..n]).clients
    ensures k in UdpServer.After(start, passes).clients
  {
    var a, b := UdpServer.After(start, passes[..n]), UdpServer.After(start, passes);
    UdpServer.AfterIsLog(start, passes[..n]);
    UdpServer.AfterIsLog(start, passes);
    LogPrefix(start, passes, n);
    LogInTimeOrder(start, passes);
    KeptBetween(a, b, k, turns, d, e, D);
  }

  lemma KeptBetween(a: UdpServer.Registry, b: UdpServer.Registry, k: Id, turns: seq<Turn>, d: Time, e: Time, D: Time)
    requires UdpServer.Logged(a) && UdpServer.Logged(b) && a.log <= b.log
    requires Healthy(b.log, k, turns, d, e, D) && k in a.clients
    ensures k in b.clients
  {
    EarlierClients(a, b);
    NeverDropped(b.log, k, turns, d, e, D, |a.log|, |b.log|);
  }

  lemma EarlierClients(a: UdpServer.Registry, b: UdpServer.Registry)
    requires UdpServer.Logged(a) && UdpServer.Logged(b) && a.log <= b.log
    ensures a.clients == ClientsAfter(b.log[..|a.log|]) && b.clients == ClientsAfter(b.log[..|b.log|])
  {
    assert b.log[..|a.log|] == a.log && b.log[..|b.log|] == b.log;
  }

  lemma {:induction false} LogPrefix(start: Time, passes: seq<UdpServer.Pass>, n: nat)
    requires n <= |passes|
    ensures UdpServer.After(start, passes[..n]).log <= UdpServer.After(start, passes).log
    decreases |passes|
  {
    if n < |passes| {
      var init := passes[..|passes| - 1];
      LogPrefix(start, init, n);
      assert init[..n] == passes[..n];
    } else {
      assert passes[..n] == passes;
    }
  }
}
