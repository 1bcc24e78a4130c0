/**
 * src/udp/server.rs: the receive loop with its timed collections, on an explicit clock.
 */
module UdpServer {
  import opened Base
  import opened Messages
  import opened UdpRegistry

  /**
   * One pass of the loop, with every reading of the clock it makes: what was received (None for a
   * timeout or a datagram that does not parse) and when it was handled, the check against next_gc,
   * and, if the check says so, gc's two readings.
   */
  datatype Pass = Pass(input: Option<(Request, SocketAddr)>, handled: Time, checked: Time, collected: Time, stamped: Time)

  datatype Registry = Registry(clients: Clients, nextGc: Time, log: seq<LogEntry>)

  function Start(start: Time): Registry {
    Registry(map[], start + LIFETIME, [])
  }

  function Receive(r: Registry, p: Pass): Registry {
    match p.input
    case None => r
    case Some((req, addr)) =>
      r.(clients := Handle(r.clients, req, addr, p.handled).0, log := r.log + [Got(req, addr, p.handled)])
  }

  function Collect(r: Registry, p: Pass): Registry {
    var expire := p.collected - LIFETIME;
    Registry(Retain(r.clients, expire), p.stamped + LIFETIME, r.log + [Collected(expire)])
  }

  predicate Collects(r: Registry, p: Pass) {
    p.checked > r.nextGc
  }

  function AfterPass(r: Registry, p: Pass): Registry {
    var r1 := Receive(r, p);
    if Collects(r1, p) then Collect(r1, p) else r1
  }

  function After(start: Time, passes: seq<Pass>): Registry {
    if passes == [] then Start(start)
    else AfterPass(After(start, passes[..|passes| - 1]), passes[|passes| - 1])
  }

  function Sends(r: Registry, p: Pass): seq<Datagram> {
    match p.input case None => [] case Some((req, addr)) => Handle(r.clients, req, addr, p.handled).1
  }

  /** Everything the server sends, in order. */
  function AllSends(start: Time, passes: seq<Pass>): seq<Datagram> {
    if passes == [] then []
    else AllSends(start, passes[..|passes| - 1]) + Sends(After(start, passes[..|passes| - 1]), passes[|passes| - 1])
  }

  predicate InOrder(since: Time, p: Pass) {
    since <= p.handled <= p.checked <= p.collected <= p.stamped
  }

  function LastReading(start: Time, passes: seq<Pass>): Time {
    if passes == [] then start else passes[|passes| - 1].stamped
  }

  /** The clock does not run backwards, within a pass and from one to the next. */
  predicate Timed(start: Time, passes: seq<Pass>) {
    passes == [] ||
    var init := passes[..|passes| - 1];
    Timed(start, init) && InOrder(LastReading(start, init), passes[|passes| - 1])
  }

  /** When a pass is over; without a collection its last two readings are not made. */
  function End(r: Registry, p: Pass): Time {
    if Collects(r, p) then p.stamped else p.checked
  }

  // ---- the object ----

  class Server {
    var clients: Clients
    var nextGc: Time
    var sent: seq<Datagram>
    ghost var log: seq<LogEntry>

    ghost function View(): Registry
      reads this
    {
      Registry(clients, nextGc, log)
    }

    constructor (start: Time)
      ensures View() == Start(start) && sent == []
    {
      clients, nextGc, sent, log := map[], start + LIFETIME, [], [];
    }

    method SendResponse(cmd: RespCmd, id: Id, to: SocketAddr)
      modifies this`sent
      ensures sent == old(sent) + [NewDatagram(cmd, id, to)]
    {
      sent := sent + [NewDatagram(cmd, id, to)];
    }

    method HandlePing(id: Id, addr: SocketAddr, now: Time)
      modifies this`clients, this`sent
      ensures (clients, sent) ==
              (Handle(old(clients), Request(id, Some(Ping)), addr, now).0,
               old(sent) + Handle(old(clients), Request(id, Some(Ping)), addr, now).1)
    {
      clients := clients[id := Client(addr, now)];
      SendResponse(Pong, id, addr);
    }

    /** The target is looked up before the source is entered. */
    method HandleIsync(id: Id, target: Id, addr: SocketAddr, now: Time)
      modifies this`clients, this`sent
      ensures (clients, sent) ==
              (Handle(old(clients), Request(id, Some(Isync(target))), addr, now).0,
               old(sent) + Handle(old(clients), Request(id, Some(Isync(target))), addr, now).1)
    {
      if target in clients {
        var t := clients[target];
        clients := clients[id := Client(addr, now)];
        SendResponse(FsyncResp(id, addr), target, t.addr);
      } else {
        SendResponse(Redirect(target, []), id, addr);
      }
    }

    method HandleRsync(id: Id, target: Id, addr: SocketAddr, now: Time)
      modifies this`sent
      ensures sent == old(sent) + Handle(clients, Request(id, Some(Rsync(target))), addr, now).1
    {
      if target in clients {
        SendResponse(Redirect(id, addr), target, clients[target].addr);
      }
    }

    method HandleRequest(req: Request, addr: SocketAddr, now: Time)
      modifies this`clients, this`sent
      ensures clients == Handle(old(clients), req, addr, now).0
      ensures sent == old(sent) + Handle(old(clients), req, addr, now).1
    {
      match req.cmd {
        case Some(Ping) => HandlePing(req.id, addr, now);
        case Some(Isync(target)) => HandleIsync(req.id, target, addr, now);
        case Some(Rsync(target)) => HandleRsync(req.id, target, addr, now);
        case Some(Bye) => clients := clients - {req.id};
        case _ =>
      }
    }

    /** gc: both readings of the clock are given. */
    method Gc(now: Time, later: Time)
      modifies this`clients, this`nextGc
      ensures clients == Retain(old(clients), now - LIFETIME) && nextGc == later + LIFETIME
    {
      var expire := now - LIFETIME;
      clients := map k | k in clients && expire < clients[k].lastPing :: clients[k];
      nextGc := later + LIFETIME;
    }

    /** run, for as many passes as are given. */
    method Run(start: Time, passes: seq<Pass>)
      requires View() == Start(start) && sent == []
      modifies this
      ensures View() == After(start, passes) && sent == AllSends(start, passes)
    {
      assert passes[..|passes|] == passes;
      for i := 0 to |passes|
        invariant View() == After(start, passes[..i]) && sent == AllSends(start, passes[..i])
      {
        var p := passes[i];
        assert passes[..i + 1][..i] == passes[..i];
        if p.input.Some? {
          HandleRequest(p.input.value.0, p.input.value.1, p.handled);
          log := log + [Got(p.input.value.0, p.input.value.1, p.handled)];
        }
        if p.checked > nextGc {
          Gc(p.collected, p.stamped);
          log := log + [Collected(p.collected - LIFETIME)];
        }
      }
    }
  }

  // ---- the map and its log ----

  lemma OneMoreEntry(log: seq<LogEntry>, ev: LogEntry)
    ensures ClientsAfter(log + [ev]) == Apply(ClientsAfter(log), ev)
  {
    assert (log + [ev])[..|log|] == log;
  }

  // ---- the log, told by what is received and by the clock alone ----

  /** When the next collection is due: 60 s after the start, or after the end of the last one, which took
      place in the last pass whose check came later than it was due. */
  function Deadline(start: Time, passes: seq<Pass>): Time {
    if passes == [] then start + 60 * SECOND
    else
      var due, p := Deadline(start, passes[..|passes| - 1]), passes[|passes| - 1];
      if p.checked > due then p.stamped + 60 * SECOND else due
  }

  /** One entry for each request received, and one for each collection, in order. */
  function Entries(start: Time, passes: seq<Pass>): seq<LogEntry> {
    if passes == [] then []
    else
      var init, p := passes[..|passes| - 1], passes[|passes| - 1];
      Entries(start, init)
      + (if p.input.Some? then [Got(p.input.value.0, p.input.value.1, p.handled)] else [])
      + (if p.checked > Deadline(start, init) then [Collected(p.collected - 60 * SECOND)] else [])
  }

  /** Nothing received is passed over, and nothing else is logged. */
  lemma {:induction false} LogIsEntries(start: Time, passes: seq<Pass>)
    ensures After(start, passes).log == Entries(start, passes) && After(start, passes).nextGc == Deadline(start, passes)
  {
    if passes != [] {
      LogIsEntries(start, passes[..|passes| - 1]);
      var entries := Entries(start, passes[..|passes| - 1]);
      assert entries + [] == entries;
    }
  }

  /** The client map of every run, from its inputs and the clock: k is in it exactly when some request in
      it touched k, with no later Bye from k and no later collection that found it expired. */
  lemma MapIsEntries(start: Time, passes: seq<Pass>, k: Id)
    ensures After(start, passes).clients == ClientsAfter(Entries(start, passes))
    ensures var log := Entries(start, passes);
            && (k in After(start, passes).clients <==> Registered(log, |log|, k))
            && (k in After(start, passes).clients ==>
                  exists i :: 0 <= i < |log| && Current(log, |log|, k, i)
                              && After(start, passes).clients[k] == Client(log[i].addr, log[i].now))
  {
    var log := Entries(start, passes);
    LogIsEntries(start, passes);
    AfterIsLog(start, passes);
    RegistryRefinesLog(log, |log|, k);
    assert log[..|log|] == log;
  }

  /** In particular, the sender of an Isync whose target is known is in the map at the address it came
      from when the pass is over, unless that very pass collects 60 s or more after handling it. */
  lemma IsyncEnters(start: Time, init: seq<Pass>, p: Pass, k: Id, target: Id, addr: SocketAddr)
    requires p.input == Some((Request(k, Some(Isync(target))), addr)) && target in After(start, init).clients
    ensures var m := After(start, init + [p]).clients;
            && (k in m <==> p.checked <= Deadline(start, init) || p.collected < p.handled + 60 * SECOND)
            && (k in m ==> m[k] == Client(addr, p.handled))
  {
    assert (init + [p])[..|init|] == init;
    LogIsEntries(start, init);
  }

  /** Everything sent, pass by pass: what a pass with input sends is what the entries so far account for;
      a pass without sends nothing. */
  lemma SendsAreRouted(start: Time, init: seq<Pass>, p: Pass) returns (out: seq<Datagram>)
    ensures AllSends(start, []) == [] && AllSends(start, init + [p]) == AllSends(start, init) + out
    ensures p.input == None ==> out == []
    ensures p.input.Some? ==>
              var (req, addr) := p.input.value;
              var log := Entries(start, init);
              SentAsLogged(log + [Got(req, addr, p.handled)], |log|, req, addr, out)
  {
    out := Sends(After(start, init), p);
    assert (init + [p])[..|init|] == init;
    if p.input.Some? {
      LogIsEntries(start, init);
      PassRouted(start, init, p);
    }
  }

  ghost predicate Logged(r: Registry) {
    r.clients == ClientsAfter(r.log)
  }

  lemma ReceiveLogged(r: Registry, p: Pass)
    requires Logged(r)
    ensures Logged(Receive(r, p))
  {
    if p.input.Some? {
      OneMoreEntry(r.log, Got(p.input.value.0, p.input.value.1, p.handled));
    }
  }

  lemma CollectLogged(r: Registry, p: Pass)
    requires Logged(r)
    ensures Logged(Collect(r, p))
  {
    OneMoreEntry(r.log, Collected(p.collected - LIFETIME));
  }

  /** The object's map is the one its log accounts for. */
  lemma {:induction false} AfterIsLog(start: Time, passes: seq<Pass>)
    ensures Logged(After(start, passes))
  {
    if passes != [] {
      var r, p := After(start, passes[..|passes| - 1]), passes[|passes| - 1];
      AfterIsLog(start, passes[..|passes| - 1]);
      ReceiveLogged(r, p);
      CollectLogged(Receive(r, p), p);
    }
  }

  /** What a pass sends is what the log so far accounts for. */
  lemma PassRouted(start: Time, init: seq<Pass>, p: Pass)
    requires p.input.Some?
    ensures var log := After(start, init).log;
            var (req, addr) := p.input.value;
            SentAsLogged(log + [Got(req, addr, p.handled)], |log|, req, addr, Sends(After(start, init), p))
  {
    var log := After(start, init).log;
    var (req, addr) := p.input.value;
    var all := log + [Got(req, addr, p.handled)];
    AfterIsLog(start, init);
    assert all[..|log|] == log;
    Routed(all, |log|, req, addr, p.handled);
  }

  // ---- ages ----

  /** No collection takes longer than g. */
  predicate CollectsWithin(passes: seq<Pass>, g: Time) {
    forall i :: 0 <= i < |passes| ==> passes[i].stamped - passes[i].collected <= g
  }

  /** Every entry was touched less than 120 s and one collection before the next collection is due. */
  ghost predicate Young(r: Registry, g: Time) {
    forall k :: k in r.clients ==> r.nextGc < r.clients[k].lastPing + 2 * LIFETIME + g
  }

  lemma PassKeepsYoung(r: Registry, p: Pass, g: Time)
    requires Young(r, g) || r.clients == map[]
    requires p.stamped - p.collected <= g && r.nextGc < p.handled + 2 * LIFETIME + g
    ensures Young(AfterPass(r, p), g)
  {
  }

  lemma {:induction false} RunTimes(start: Time, passes: seq<Pass>, g: Time)
    requires Timed(start, passes) && CollectsWithin(passes, g)
    ensures var r := After(start, passes);
            && Young(r, g)
            && start + LIFETIME <= r.nextGc
            && r.nextGc <= LastReading(start, passes) + LIFETIME
  {
    if passes != [] {
      var init, p := passes[..|passes| - 1], passes[|passes| - 1];
      assert CollectsWithin(init, g) by { assert forall i :: 0 <= i < |init| ==> init[i] == passes[i]; }
      RunTimes(start, init, g);
      PassKeepsYoung(After(start, init), p, g);
    }
  }

  /** At the end of every pass of every run, every entry was touched less than 120 s ago, plus the
      duration of one collection. */
  lemma AgeBound(start: Time, passes: seq<Pass>, g: Time, k: Id)
    requires Timed(start, passes) && CollectsWithin(passes, g) && passes != []
    requires k in After(start, passes).clients
    ensures var r, p := After(start, passes[..|passes| - 1]), passes[|passes| - 1];
            End(Receive(r, p), p) < After(start, passes).clients[k].lastPing + 120 * SECOND + g
  {
    RunTimes(start, passes, g);
  }

  /** A collection removes exactly the entries not touched for 60 s, and the instant it compares
      with is never before the server's start, so the subtraction cannot underflow. */
  lemma CollectionExact(start: Time, passes: seq<Pass>, g: Time, k: Id)
    requires Timed(start, passes) && CollectsWithin(passes, g) && passes != []
    requires var r, p := After(start, passes[..|passes| - 1]), passes[|passes| - 1];
             Collects(Receive(r, p), p) && k in Receive(r, p).clients
    ensures var p := passes[|passes| - 1];
            var before := Receive(After(start, passes[..|passes| - 1]), p).clients;
            && start < p.collected - 60 * SECOND
            && (k in After(start, passes).clients <==> p.collected < before[k].lastPing + 60 * SECOND)
  {
    var init := passes[..|passes| - 1];
    assert CollectsWithin(init, g) by { assert forall i :: 0 <= i < |init| ==> init[i] == passes[i]; }
    RunTimes(start, init, g);
  }
}
