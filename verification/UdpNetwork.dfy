/**
 * The UDP protocol as one network: any number of servers, listeners and connectors, and datagrams
 * that may be lost, duplicated and reordered. A datagram once sent stays available for delivery any
 * number of times, to anyone connected to its sender; loss is never delivering it.
 */
module UdpNetwork {
  import opened Base
  import opened Messages
  import opened UdpRegistry

  /** A listener answered an Fsync for `source` that it got from a server. */
  datatype Answer = Answer(listener: Id, source: Id, server: nat)

  datatype Server = Server(
    clients: Clients,
    sent: set<Response>,
    seen: set<(Request, SocketAddr)>)   // history: requests received and the source addresses observed

  datatype Net = Net(servers: seq<Server>, requests: set<Request>, answers: set<Answer>)

  datatype Event =
    | Send(req: Request)                                            // a client sends anything but an Rsync
    | Receive(j: nat, req: Request, addr: SocketAddr, now: Time)    // server j receives it from some address
    | Collect(j: nat, expire: int)                                  // server j collects
    | Listen(j: nat, id: Id, resp: Response)                        // the listener `id` hears from server j

  predicate IsRsync(req: Request) {
    req.cmd.Some? && req.cmd.value.Rsync?
  }

  predicate Enabled(n: Net, e: Event) {
    match e
    case Send(req) => !IsRsync(req)
    case Receive(j, req, _, _) => j < |n.servers| && req in n.requests
    case Collect(j, _) => j < |n.servers|
    case Listen(j, _, resp) => j < |n.servers| && resp in n.servers[j].sent
  }

  /** The listener's answer: an Rsync naming the Fsync's source, if the response is for it at all.
      The copy sent to the peer itself is the same request. */
  function Reaction(id: Id, resp: Response): Option<Request> {
    if resp.id == id && resp.cmd.Some? && resp.cmd.value.FsyncResp?
    then Some(Request(id, Some(Rsync(resp.cmd.value.id))))
    else None
  }

  function Next(n: Net, e: Event): Net
    requires Enabled(n, e)
  {
    match e
    case Send(req) => n.(requests := n.requests + {req})
    case Receive(j, req, addr, now) =>
      var sv := n.servers[j];
      var (clients, out) := Handle(sv.clients, req, addr, now);
      var sent := set d | d in out :: d.resp;
      n.(servers := n.servers[j := Server(clients, sv.sent + sent, sv.seen + {(req, addr)})])
    case Collect(j, expire) =>
      n.(servers := n.servers[j := n.servers[j].(clients := Retain(n.servers[j].clients, expire))])
    case Listen(j, id, resp) =>
      match Reaction(id, resp)
      case None => n
      case Some(req) =>
        n.(requests := n.requests + {req}, answers := n.answers + {Answer(id, req.cmd.value.id, j)})
  }

  ghost predicate Steps(n: Net, e: Event, n': Net) {
    Enabled(n, e) && n' == Next(n, e)
  }

  ghost predicate IsRun(servers: nat, es: seq<Event>, ns: seq<Net>) {
    && |ns| == |es| + 1
    && ns[0] == Net(seq(servers, _ => Server(map[], {}, {})), {}, {})
    && forall i {:trigger es[i]} :: 0 <= i < |es| ==> Steps(ns[i], es[i], ns[i + 1])
  }

  // ---- what holds in every run ----

  /** A response tells of a request the server saw from the address it passes on. */
  ghost predicate Grounded(sv: Server, resp: Response) {
    resp.cmd.Some? ==>
      match resp.cmd.value
      case Pong => true
      case Redirect(x, addr) =>
        addr != [] ==> 1 <= |addr| <= MAX_ADDR && (Request(x, Some(Rsync(resp.id))), addr) in sv.seen
      case FsyncResp(x, addr) =>
        1 <= |addr| <= MAX_ADDR && (Request(x, Some(Isync(resp.id))), addr) in sv.seen
  }

  ghost predicate Heard(n: Net, a: Answer) {
    a.server < |n.servers| &&
    exists addr :: Response(a.listener, Some(FsyncResp(a.source, addr))) in n.servers[a.server].sent
  }

  ghost predicate Justified(n: Net, req: Request) {
    IsRsync(req) ==> exists j :: Answer(req.id, req.cmd.value.id, j) in n.answers
  }

  ghost predicate Inv(n: Net) {
    && (forall j, resp :: 0 <= j < |n.servers| && resp in n.servers[j].sent ==> Grounded(n.servers[j], resp))
    && (forall j, r :: 0 <= j < |n.servers| && r in n.servers[j].seen ==> r.0 in n.requests)
    && (forall a :: a in n.answers ==> Heard(n, a))
    && (forall req :: req in n.requests ==> Justified(n, req))
  }

  lemma HandleGrounded(sv: Server, req: Request, addr: SocketAddr, now: Time, d: Datagram)
    requires d in Handle(sv.clients, req, addr, now).1
    ensures Grounded(sv.(seen := sv.seen + {(req, addr)}), d.resp)
  {
  }

  lemma GroundedStays(sv: Server, sv': Server, resp: Response)
    requires Grounded(sv, resp) && sv.seen <= sv'.seen
    ensures Grounded(sv', resp)
  {
  }

  lemma HeardStays(n: Net, n': Net, a: Answer)
    requires Heard(n, a) && |n.servers| == |n'.servers|
    requires forall j :: 0 <= j < |n.servers| ==> n.servers[j].sent <= n'.servers[j].sent
    ensures Heard(n', a)
  {
    var addr :| Response(a.listener, Some(FsyncResp(a.source, addr))) in n.servers[a.server].sent;
    assert Response(a.listener, Some(FsyncResp(a.source, addr))) in n'.servers[a.server].sent;
  }

  lemma JustifiedStays(n: Net, n': Net, req: Request)
    requires Justified(n, req) && n.answers <= n'.answers
    ensures Justified(n', req)
  {
    if IsRsync(req) {
      var j :| Answer(req.id, req.cmd.value.id, j) in n.answers;
      assert Answer(req.id, req.cmd.value.id, j) in n'.answers;
    }
  }

  lemma ReceiveKeeps(n: Net, e: Event)
    requires Inv(n) && Enabled(n, e) && e.Receive?
    ensures Inv(Next(n, e))
  {
    var n' := Next(n, e);
    var sv := n'.servers[e.j];
    forall j, resp | 0 <= j < |n'.servers| && resp in n'.servers[j].sent ensures Grounded(n'.servers[j], resp) {
      if resp in n.servers[j].sent {
        GroundedStays(n.servers[j], n'.servers[j], resp);
      } else {
        var d :| d in Handle(n.servers[j].clients, e.req, e.addr, e.now).1 && d.resp == resp;
        HandleGrounded(n.servers[j], e.req, e.addr, e.now, d);
        GroundedStays(n.servers[j].(seen := sv.seen), sv, resp);
      }
    }
    forall a | a in n'.answers ensures Heard(n', a) { HeardStays(n, n', a); }
    forall req | req in n'.requests ensures Justified(n', req) { JustifiedStays(n, n', req); }
  }

  lemma ListenKeeps(n: Net, e: Event)
    requires Inv(n) && Enabled(n, e) && e.Listen?
    ensures Inv(Next(n, e))
  {
    var n' := Next(n, e);
    forall a | a in n'.answers ensures Heard(n', a) {
      if a in n.answers {
        HeardStays(n, n', a);
      } else {
        assert e.resp == Response(a.listener, Some(FsyncResp(a.source, e.resp.cmd.value.addr)));
      }
    }
    forall req | req in n'.requests ensures Justified(n', req) {
      if req in n.requests {
        JustifiedStays(n, n', req);
      } else {
        assert Answer(req.id, req.cmd.value.id, e.j) in n'.answers;
      }
    }
  }

  lemma NextKeeps(n: Net, e: Event)
    requires Inv(n) && Enabled(n, e)
    ensures Inv(Next(n, e))
  {
    if e.Receive? {
      ReceiveKeeps(n, e);
    } else if e.Listen? {
      ListenKeeps(n, e);
    } else {
      var n' := Next(n, e);
      forall j, resp | 0 <= j < |n'.servers| && resp in n'.servers[j].sent ensures Grounded(n'.servers[j], resp) {
        GroundedStays(n.servers[j], n'.servers[j], resp);
      }
      forall a | a in n'.answers ensures Heard(n', a) { HeardStays(n, n', a); }
      forall req | req in n'.requests ensures Justified(n', req) {
        if req in n.requests { JustifiedStays(n, n', req); }
      }
    }
  }

  lemma {:induction false} RunKeeps(servers: nat, es: seq<Event>, ns: seq<Net>, i: nat)
    requires IsRun(servers, es, ns) && i < |ns|
    ensures Inv(ns[i]) && |ns[i].servers| == servers
  {
    if i > 0 {
      RunKeeps(servers, es, ns, i - 1);
      var e := es[i - 1];
      NextKeeps(ns[i - 1], e);
    }
  }

  /** What a connector with id `a` takes an address from. */
  predicate Offers(resp: Response, a: Id, addr: Text) {
    resp.id == a && resp.cmd.Some? && resp.cmd.value.Redirect? && resp.cmd.value.addr == addr != []
  }

  /** The address is one from which server j saw an Rsync for `a`, which the listener `t` had sent
      in answer to an Fsync, made for `a`'s own request to reach `t`. */
  ghost predicate ListenersAddress(n: Net, j: nat, a: Id, t: Id, addr: Text) {
    && j < |n.servers| && 1 <= |addr| <= MAX_ADDR
    && (Request(t, Some(Rsync(a))), addr) in n.servers[j].seen
    && (exists s :: Answer(t, a, s) in n.answers && Heard(n, Answer(t, a, s)))
    && Request(a, Some(Isync(t))) in n.requests
  }

  /** End to end over a lossy, duplicating, reordering network: whatever address a server offers a
      connector is the connector's target's, though the connector never compares the id in the
      Redirect with its target. */
  lemma OfferedIsTargets(servers: nat, es: seq<Event>, ns: seq<Net>, i: nat, j: nat, resp: Response, a: Id, addr: Text)
    requires IsRun(servers, es, ns) && i < |ns| && j < |ns[i].servers|
    requires resp in ns[i].servers[j].sent && Offers(resp, a, addr)
    ensures ListenersAddress(ns[i], j, a, resp.cmd.value.id, addr)
  {
    var n := ns[i];
    RunKeeps(servers, es, ns, i);
    assert Grounded(n.servers[j], resp);
    var t := resp.cmd.value.id;
    var rsync := Request(t, Some(Rsync(a)));
    assert (rsync, addr) in n.servers[j].seen && Justified(n, rsync);
    var s: nat :| Answer(t, a, s) in n.answers;
    assert Heard(n, Answer(t, a, s));
    var from :| Response(t, Some(FsyncResp(a, from))) in n.servers[s].sent;
    assert Grounded(n.servers[s], Response(t, Some(FsyncResp(a, from))));
  }

  // ---- what a step makes available ----

  /** Whatever the server's map says on receiving a request, the datagram is sent that the peer waits for:
      the Pong; the Fsync to a known target or the denial; the Redirect with the listener's address. */
  lemma ReceiveSends(n: Net, j: nat, req: Request, addr: SocketAddr, now: Time)
    requires Enabled(n, Receive(j, req, addr, now))
    ensures var n' := Next(n, Receive(j, req, addr, now));
            && |n'.servers| == |n.servers| && n.requests <= n'.requests && n'.answers == n.answers
            && n'.servers[j].seen == n.servers[j].seen + {(req, addr)}
            && n.servers[j].sent <= n'.servers[j].sent
            && match req.cmd
               case Some(Ping) =>
                 && Response(req.id, Some(Pong)) in n'.servers[j].sent
                 && req.id in n'.servers[j].clients
               case Some(Isync(t)) =>
                 if t in n.servers[j].clients
                 then Response(t, Some(FsyncResp(req.id, addr))) in n'.servers[j].sent && req.id in n'.servers[j].clients
                 else Response(req.id, Some(Redirect(t, []))) in n'.servers[j].sent
               case Some(Rsync(t)) =>
                 t in n.servers[j].clients ==> Response(t, Some(Redirect(req.id, addr))) in n'.servers[j].sent
               case _ => true
  {
    var (clients, out) := Handle(n.servers[j].clients, req, addr, now);
    if out != [] {
      assert out[0] in out;
    }
  }

  /** A listener that hears of anyone's Isync for it answers. */
  lemma ListenAnswers(n: Net, j: nat, id: Id, source: Id, addr: Text)
    requires Enabled(n, Listen(j, id, Response(id, Some(FsyncResp(source, addr)))))
    ensures var n' := Next(n, Listen(j, id, Response(id, Some(FsyncResp(source, addr)))));
            n'.servers == n.servers && Request(id, Some(Rsync(source))) in n'.requests && Answer(id, source, j) in n'.answers
  {
  }

  ghost predicate Reaches(es: seq<Event>, ns: seq<Net>, n: Net) {
    IsRun(1, es, ns) && ns[|es|] == n
  }

  lemma Go(es: seq<Event>, ns: seq<Net>, n: Net, e: Event) returns (es': seq<Event>, ns': seq<Net>)
    requires Reaches(es, ns, n) && Enabled(n, e)
    ensures es' == es + [e] && ns' == ns + [Next(n, e)] && Reaches(es', ns', Next(n, e))
  {
    es', ns' := es + [e], ns + [Next(n, e)];
    forall i | 0 <= i < |es'| ensures Steps(ns'[i], es'[i], ns'[i + 1]) {
      if i < |es| { assert Steps(ns[i], es[i], ns[i + 1]); }
    }
  }

  /** The listener `t` has pinged from `x`, and the connector `a`'s Isync has made the server tell it. */
  lemma Introduce(t: Id, a: Id, x: SocketAddr, y: SocketAddr, now: Time) returns (es: seq<Event>, ns: seq<Net>, n: Net)
    ensures Reaches(es, ns, n) && |n.servers| == 1 && a in n.servers[0].clients
    ensures Response(t, Some(FsyncResp(a, y))) in n.servers[0].sent
  {
    var ping, isync := Request(t, Some(Ping)), Request(a, Some(Isync(t)));
    var n0 := Net([Server.Server(map[], {}, {})], {}, {});
    assert seq(1, _ => Server.Server(map[], {}, {})) == n0.servers;
    es, ns := [], [n0];
    var n1 := Next(n0, Send(ping));
    es, ns := Go(es, ns, n0, Send(ping));
    var n2 := Next(n1, Receive(0, ping, x, now));
    ReceiveSends(n1, 0, ping, x, now);
    es, ns := Go(es, ns, n1, Receive(0, ping, x, now));
    var n3 := Next(n2, Send(isync));
    es, ns := Go(es, ns, n2, Send(isync));
    ReceiveSends(n3, 0, isync, y, now);
    n := Next(n3, Receive(0, isync, y, now));
    es, ns := Go(es, ns, n3, Receive(0, isync, y, now));
  }

  /** Any listener and any connector can meet: a run in which the server sends the connector the address
      that the listener's answer came from. */
  lemma Meeting(t: Id, a: Id, x: SocketAddr, y: SocketAddr, now: Time) returns (es: seq<Event>, ns: seq<Net>)
    ensures IsRun(1, es, ns) && |ns[|es|].servers| == 1
    ensures Offers(Response(a, Some(Redirect(t, x))), a, x)
    ensures Response(a, Some(Redirect(t, x))) in ns[|es|].servers[0].sent
  {
    var n;
    es, ns, n := Introduce(t, a, x, y, now);
    var heard := Listen(0, t, Response(t, Some(FsyncResp(a, y))));
    var n1 := Next(n, heard);
    ListenAnswers(n, 0, t, a, y);
    es, ns := Go(es, ns, n, heard);
    var rsync := Request(t, Some(Rsync(a)));
    ReceiveSends(n1, 0, rsync, x, now);
    es, ns := Go(es, ns, n1, Receive(0, rsync, x, now));
  }

  /** A collection drops exactly the entries last touched at `expire` or before, and nothing else. */
  lemma CollectDrops(n: Net, j: nat, expire: int, k: Id)
    requires Enabled(n, Collect(j, expire))
    ensures var n' := Next(n, Collect(j, expire));
            && |n'.servers| == |n.servers| && n'.requests == n.requests && n'.answers == n.answers
            && n'.servers[j].sent == n.servers[j].sent && n'.servers[j].seen == n.servers[j].seen
            && (k in n'.servers[j].clients <==> k in n.servers[j].clients && expire < n.servers[j].clients[k].lastPing)
  {
  }
}
