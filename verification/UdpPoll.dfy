/** src/udp/client.rs: poll_sockets, which the connector and the listener share. */
module UdpPoll {
  import opened Base

  predicate AllTrue(failed: seq<bool>) {
    forall i :: 0 <= i < |failed| ==> failed[i]
  }

  /** The sockets below n that have not failed, in order. */
  function LiveBelow(failed: seq<bool>, n: nat): (live: seq<nat>)
    requires n <= |failed|
  {
    if n == 0 then [] else LiveBelow(failed, n - 1) + if failed[n - 1] then [] else [n - 1]
  }

  lemma {:induction false} LiveSlot(failed: seq<bool>, i: nat, n: nat)
    requires i < n <= |failed| && !failed[i]
    ensures var live := LiveBelow(failed, n); |LiveBelow(failed, i)| < |live| && live[|LiveBelow(failed, i)|] == i
    decreases n
  {
    if i < n - 1 {
      LiveSlot(failed, i, n - 1);
    }
  }

  /** What the kernel reports for a descriptor: None if it has event bits it does not know. */
  type Report = Option<bool>

  predicate Readable(r: Report) { r == Some(true) }

  /**
   * The poll covers only the sockets that have not failed, so its results come back compacted.
   * `report` is what the kernel has for each socket, `outcome` the value of the call: the number of
   * descriptors with events, or None if it fails. The result is None when the call fails.
   */
  method PollSockets(failed: seq<bool>, report: seq<Report>, outcome: Option<nat>) returns (r: Option<seq<bool>>)
    requires |report| == |failed|
    requires outcome == Some(0) ==> forall i :: 0 <= i < |failed| && !failed[i] ==> !Readable(report[i])
    ensures r == None <==> outcome == None && !AllTrue(failed)
    ensures r.Some? ==> |r.value| == |failed|
    ensures r.Some? ==> forall i :: 0 <= i < |failed| ==> (r.value[i] <==> !failed[i] && Readable(report[i]))
  {
    var pollFds: seq<nat> := [];
    for i := 0 to |failed|
      invariant pollFds == LiveBelow(failed, i)
      invariant pollFds == [] <==> forall j :: 0 <= j < i ==> failed[j]
      invariant forall k :: 0 <= k < |pollFds| ==> pollFds[k] < |report|
    {
      if !failed[i] {
        pollFds := pollFds + [i];
      }
    }
    if pollFds == [] {
      return Some(seq(|failed|, _ => false));
    }
    if outcome == None {
      return None;
    }
    if outcome.value == 0 {
      return Some(seq(|failed|, _ => false));
    }
    var revents := seq(|pollFds|, k requires 0 <= k < |pollFds| => report[pollFds[k]]);
    var ready := seq(|failed|, _ => false);
    var pollIdx := 0;
    for i := 0 to |failed|
      invariant pollIdx == |LiveBelow(failed, i)|
      invariant |ready| == |failed|
      invariant forall j :: 0 <= j < i ==> (ready[j] <==> !failed[j] && Readable(report[j]))
      invariant forall j :: i <= j < |failed| ==> !ready[j]
    {
      if failed[i] {
        continue;
      }
      LiveSlot(failed, i, |failed|);
      var events := revents[pollIdx];
      if events.Some? {
        ready := ready[i := events.value];
      }
      pollIdx := pollIdx + 1;
    }
    return Some(ready);
  }
}
