/**
 * The client map of src/udp/server.rs as a function of what the server has received and collected,
 * and its refinement of that log.
 */
module UdpRegistry {
  import opened Base
  import opened Messages

  /** Nanoseconds on the monotone clock. */
  type Time = nat

  const SECOND: Time := 1_000_000_000
  const LIFETIME: Time := 60 * SECOND

  datatype Client = Client(addr: SocketAddr, lastPing: Time)

  type Clients = map<Id, Client>

  datatype Datagram = Datagram(resp: Response, to: SocketAddr)

  function NewDatagram(cmd: RespCmd, id: Id, to: SocketAddr): Datagram {
    Datagram(Response(id, Some(cmd)), to)
  }

  /** What one request does to the map, and the datagrams it makes the server send. */
  function Handle(m: Clients, req: Request, addr: SocketAddr, now: Time): (Clients, seq<Datagram>) {
    match req.cmd
    case Some(Ping) => (m[req.id := Client(addr, now)], [NewDatagram(Pong, req.id, addr)])
    case Some(Isync(target)) =>
      if target in m
      then (m[req.id := Client(addr, now)], [NewDatagram(FsyncResp(req.id, addr), target, m[target].addr)])
      else (m, [NewDatagram(Redirect(target, []), req.id, addr)])
    case Some(Rsync(target)) =>
      if target in m then (m, [NewDatagram(Redirect(req.id, addr), target, m[target].addr)]) else (m, [])
    case Some(Bye) => (m - {req.id}, [])
    case _ => (m, [])
  }

  /** gc's retain: an entry stays if it was touched after `expire`. */
  function Retain(m: Clients, expire: int): Clients {
    map k | k in m && expire < m[k].lastPing :: m[k]
  }

  /** What happens to the map: a request at a time, or a collection. */
  datatype LogEntry = Got(req: Request, addr: SocketAddr, now: Time) | Collected(expire: int)

  function Apply(m: Clients, ev: LogEntry): Clients {
    match ev
    case Got(req, addr, now) => Handle(m, req, addr, now).0
    case Collected(expire) => Retain(m, expire)
  }

  function ClientsAfter(log: seq<LogEntry>): Clients {
    if log == [] then map[] else Apply(ClientsAfter(log[..|log| - 1]), log[|log| - 1])
  }

  // ---- the log's own account of who is registered ----

  /** Entry i is a request that touches k: a Ping from k, or an Isync from k whose target was
      registered at that moment. */
  ghost predicate Touches(log: seq<LogEntry>, i: nat, k: Id): (b: bool)
    requires i < |log|
    ensures b ==> log[i].Got? && log[i].req.id == k
    decreases i, 2
  {
    && log[i].Got? && log[i].req.id == k && log[i].req.cmd.Some?
    && match log[i].req.cmd.value
       case Ping => true
       case Isync(target) => Registered(log, i, target)
       case _ => false
  }

  /** The entry unregisters k if k was last touched at time t. */
  predicate Ends(ev: LogEntry, k: Id, t: Time) {
    match ev
    case Got(req, _, _) => req.id == k && req.cmd == Some(Bye)
    case Collected(expire) => t <= expire
  }

  /** Entry i is k's latest touch among the first n, and nothing since has unregistered k. */
  ghost predicate Current(log: seq<LogEntry>, n: nat, k: Id, i: nat): (b: bool)
    requires i < n <= |log|
    ensures b ==> log[i].Got?
    decreases n, 0
  {
    && Touches(log, i, k)
    && forall j :: i < j < n ==> !Touches(log, j, k) && !Ends(log[j], k, log[i].now)
  }

  ghost predicate Registered(log: seq<LogEntry>, n: nat, k: Id)
    requires n <= |log|
    decreases n, 1
  {
    exists i :: 0 <= i < n && Current(log, n, k, i)
  }

  /** The map after n entries agrees with the log about key k. */
  ghost predicate Agrees(log: seq<LogEntry>, n: nat, k: Id)
    requires n <= |log|
  {
    var m := ClientsAfter(log[..n]);
    && (k in m <==> Registered(log, n, k))
    && (k in m ==> exists i :: 0 <= i < n && Current(log, n, k, i) && m[k] == Client(log[i].addr, log[i].now))
  }

  lemma CurrentUnique(log: seq<LogEntry>, n: nat, k: Id, i: nat, j: nat)
    requires n <= |log| && i < n && j < n && Current(log, n, k, i) && Current(log, n, k, j)
    ensures i == j
  {
  }

  lemma AfterOneMore(log: seq<LogEntry>, n: nat)
    requires n < |log|
    ensures ClientsAfter(log[..n + 1]) == Apply(ClientsAfter(log[..n]), log[n])
  {
    assert log[..n + 1][..n] == log[..n];
  }

  /** A touch makes k registered by that entry. */
  lemma TouchedNow(log: seq<LogEntry>, n: nat, k: Id)
    requires n < |log| && Touches(log, n, k)
    ensures Current(log, n + 1, k, n) && Registered(log, n + 1, k)
  {
    assert Current(log, n + 1, k, n);
  }

  /** Without a touch, k's current entry stays current unless this entry ends it. */
  lemma Untouched(log: seq<LogEntry>, n: nat, k: Id)
    requires n < |log| && !Touches(log, n, k)
    ensures forall i :: 0 <= i < n && log[i].Got? ==>
              (Current(log, n + 1, k, i) <==> Current(log, n, k, i) && !Ends(log[n], k, log[i].now))
    ensures !Current(log, n + 1, k, n)
  {
  }

  /** What an entry does to one key, told by whether it touches or ends it. */
  lemma ApplyAt(log: seq<LogEntry>, n: nat, k: Id)
    requires n < |log| && forall x :: Agrees(log, n, x)
    ensures var m, m' := ClientsAfter(log[..n]), ClientsAfter(log[..n + 1]);
            && (Touches(log, n, k) ==> k in m' && m'[k] == Client(log[n].addr, log[n].now))
            && (!Touches(log, n, k) ==>
                  && (k in m' <==> k in m && !Ends(log[n], k, m[k].lastPing))
                  && (k in m' ==> m'[k] == m[k]))
  {
    AfterOneMore(log, n);
    var m := ClientsAfter(log[..n]);
    TouchesByMap(log, n, k, m);
    MapAt(m, log[n], k);
  }

  /** In terms of the map: a Ping from k, or an Isync from k whose target is in the map. */
  predicate TouchedBy(m: Clients, ev: LogEntry, k: Id): (b: bool)
    ensures b ==> ev.Got?
  {
    && ev.Got? && ev.req.id == k && ev.req.cmd.Some?
    && (ev.req.cmd.value.Ping? || (ev.req.cmd.value.Isync? && ev.req.cmd.value.id in m))
  }

  lemma TouchesByMap(log: seq<LogEntry>, n: nat, k: Id, m: Clients)
    requires n < |log| && m == ClientsAfter(log[..n]) && forall x :: Agrees(log, n, x)
    ensures Touches(log, n, k) <==> TouchedBy(m, log[n], k)
  {
    if log[n].Got? && log[n].req.cmd.Some? && log[n].req.cmd.value.Isync? {
      assert Agrees(log, n, log[n].req.cmd.value.id);
    }
  }

  lemma MapAt(m: Clients, ev: LogEntry, k: Id)
    ensures var m' := Apply(m, ev);
            && (TouchedBy(m, ev, k) ==> k in m' && m'[k] == Client(ev.addr, ev.now))
            && (!TouchedBy(m, ev, k) ==>
                  && (k in m' <==> k in m && !Ends(ev, k, m[k].lastPing))
                  && (k in m' ==> m'[k] == m[k]))
  {
    match ev
    case Got(req, addr, now) => HandleAt(m, req, addr, now, k);
    case Collected(expire) => RetainAt(m, expire, k);
  }

  lemma RetainAt(m: Clients, expire: int, k: Id)
    ensures var m' := Retain(m, expire);
            (k in m' <==> k in m && expire < m[k].lastPing) && (k in m' ==> m'[k] == m[k])
  {
  }

  lemma HandleAt(m: Clients, req: Request, addr: SocketAddr, now: Time, k: Id)
    ensures var m' := Handle(m, req, addr, now).0;
            && (TouchedBy(m, Got(req, addr, now), k) ==> k in m' && m'[k] == Client(addr, now))
            && (!TouchedBy(m, Got(req, addr, now), k) ==>
                  && (k in m' <==> k in m && !(req.id == k && req.cmd == Some(Bye)))
                  && (k in m' ==> m'[k] == m[k]))
  {
  }

  lemma AgreesNext(log: seq<LogEntry>, n: nat, k: Id)
    requires n < |log| && forall x :: Agrees(log, n, x)
    ensures Agrees(log, n + 1, k)
  {
    ApplyAt(log, n, k);
    if Touches(log, n, k) {
      TouchedNow(log, n, k);
    } else {
      Untouched(log, n, k);
      assert Agrees(log, n, k);
      StaysOrEnds(log, n, k);
    }
  }

  lemma StaysOrEnds(log: seq<LogEntry>, n: nat, k: Id)
    requires n < |log| && Agrees(log, n, k) && !Touches(log, n, k)
    requires forall i :: 0 <= i < n && log[i].Got? ==>
               (Current(log, n + 1, k, i) <==> Current(log, n, k, i) && !Ends(log[n], k, log[i].now))
    requires !Current(log, n + 1, k, n)
    requires var m, m' := ClientsAfter(log[..n]), ClientsAfter(log[..n + 1]);
             && (k in m' <==> k in m && !Ends(log[n], k, m[k].lastPing))
             && (k in m' ==> m'[k] == m[k])
    ensures Agrees(log, n + 1, k)
  {
    var m := ClientsAfter(log[..n]);
    if k in m {
      var i :| 0 <= i < n && Current(log, n, k, i) && m[k] == Client(log[i].addr, log[i].now);
      if Registered(log, n + 1, k) {
        var j :| 0 <= j < n + 1 && Current(log, n + 1, k, j);
        CurrentUnique(log, n, k, i, j);
      }
    }
  }

  /** For every log: k is in the map exactly when it has a touch with no later Bye from k and no
      later collection that found it expired, and it then has the address and time of its latest
      touch. */
  lemma {:induction false} RegistryRefinesLog(log: seq<LogEntry>, n: nat, k: Id)
    requires n <= |log|
    ensures Agrees(log, n, k)
    decreases n
  {
    if n > 0 {
      var p := n - 1;
      forall x ensures Agrees(log, p, x) { RegistryRefinesLog(log, p, x); }
      AgreesNext(log, n - 1, k);
    }
  }

  /** `to` is the source address of k's latest touch. */
  ghost predicate SeenAt(log: seq<LogEntry>, n: nat, k: Id, to: SocketAddr)
    requires n <= |log|
  {
    exists i :: 0 <= i < n && Current(log, n, k, i) && log[i].addr == to
  }

  /** The server forwards to the target where the log saw it last. */
  ghost predicate ForwardsTo(log: seq<LogEntry>, n: nat, target: Id, cmd: RespCmd, out: seq<Datagram>)
    requires n <= |log|
  {
    exists to :: SeenAt(log, n, target, to) && out == [NewDatagram(cmd, target, to)]
  }

  /** What is sent on entry n, told by the log alone: a Pong to the sender; an Fsync or a Redirect with
      the sender's address to where the target was seen last, if it is registered; a Redirect without
      an address to the sender of an Isync, if it is not; and nothing else. */
  ghost predicate SentAsLogged(log: seq<LogEntry>, n: nat, req: Request, addr: SocketAddr, out: seq<Datagram>)
    requires n <= |log|
  {
    match req.cmd
    case Some(Ping) => out == [NewDatagram(Pong, req.id, addr)]
    case Some(Isync(t)) =>
      if Registered(log, n, t) then ForwardsTo(log, n, t, FsyncResp(req.id, addr), out)
      else out == [NewDatagram(Redirect(t, []), req.id, addr)]
    case Some(Rsync(t)) =>
      if Registered(log, n, t) then ForwardsTo(log, n, t, Redirect(req.id, addr), out) else out == []
    case _ => out == []
  }

  lemma Routed(log: seq<LogEntry>, n: nat, req: Request, addr: SocketAddr, now: Time)
    requires n < |log| && log[n] == Got(req, addr, now)
    ensures SentAsLogged(log, n, req, addr, Handle(ClientsAfter(log[..n]), req, addr, now).1)
  {
    if req.cmd.Some? && (req.cmd.value.Isync? || req.cmd.value.Rsync?) {
      var t := req.cmd.value.id;
      RegistryRefinesLog(log, n, t);
      var m := ClientsAfter(log[..n]);
      if t in m {
        assert SeenAt(log, n, t, m[t].addr);
      }
    }
  }

  /** A registered peer that asks for itself from a new address: the Fsync goes to where the log saw it
      before this request, and from this request on it is known at the new address. */
  lemma SelfIsync(log: seq<LogEntry>, n: nat, k: Id, addr: SocketAddr, now: Time)
    requires n < |log| && log[n] == Got(Request(k, Some(Isync(k))), addr, now) && Registered(log, n, k)
    ensures ForwardsTo(log, n, k, FsyncResp(k, addr), Handle(ClientsAfter(log[..n]), log[n].req, addr, now).1)
    ensures Current(log, n + 1, k, n)
    ensures k in ClientsAfter(log[..n + 1]) && ClientsAfter(log[..n + 1])[k] == Client(addr, now)
  {
    Routed(log, n, log[n].req, addr, now);
    TouchedNow(log, n, k);
    RegistryRefinesLog(log, n + 1, k);
    var i :| 0 <= i < n + 1 && Current(log, n + 1, k, i)
             && ClientsAfter(log[..n + 1])[k] == Client(log[i].addr, log[i].now);
    CurrentUnique(log, n + 1, k, i, n);
  }
}
