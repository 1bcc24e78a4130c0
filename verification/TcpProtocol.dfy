/**
 * src/tcp/server.rs as a transition system. One event is one stretch of a task between two points
 * where another task can run: an await, or the taking of the peer map's lock. Connections are
 * numbered from 0; connection c has the id c + 1 that next_id gave it.
 *
 * `accepted`, `spent`, `found`, `lost`, `log` and the tickets are history: no branch looks at them. A
 * ticket is the index in `accepted` of the client request a message stems from; `spent` lists the
 * tickets of requests that came to nothing; `found` counts the Isyncs whose lookup found a target
 * and `lost` the Fsyncs that were discarded.
 */
module TcpProtocol {
  import opened Base
  import opened Messages
  import opened Sequences

  const QUEUE_LIMIT: nat := 10

  /** A map entry, or a clone of one. `tx` is the connection whose queue the sender feeds. */
  datatype PeerState = PeerState(id: nat, tx: nat, addr: SocketAddr)

  datatype Msg = Msg(ticket: nat, req: Request)
  datatype Reply = Reply(ticket: nat, resp: Response)

  /** Where a handler task is. */
  datatype Stage =
    | Idle                                                     // awaiting req_rx.recv()
    | Handling(m: Msg)                                         // before the request's first lock
    | Sending(peer: PeerState, m: Msg, register: Option<Id>)   // awaiting peer.req_tx.send()
    | Registering(id: Id)                                      // before insert_peerstate's lock
    | Writing(reply: Reply)                                    // awaiting send_response()
    | Stopped                                                  // select! is over
    | Unregistered                                             // after the conditional remove
    | Closed                                                   // the queue is dropped

  datatype Conn = Conn(addr: SocketAddr, peerId: Id, queue: seq<Msg>, stage: Stage, out: seq<Reply>)

  datatype Accepted = Accepted(conn: nat, req: Request)

  datatype RegEvent = Registered(key: Id, conn: nat) | TornDown(key: Id, conn: nat)

  datatype State = State(
    conns: seq<Conn>,
    peers: map<Id, PeerState>,
    accepted: seq<Accepted>,
    spent: seq<nat>,
    found: nat,
    lost: nat,
    log: seq<RegEvent>)

  datatype Event =
    | Accept(addr: SocketAddr)        // a new connection, a new handler
    | Enqueue(c: nat, req: Request)   // the reader puts a request on its handler's queue
    | Recv(c: nat)
    | Handle(c: nat)
    | Send(c: nat)
    | Register(c: nat)
    | Write(c: nat)
    | Stop(c: nat)                    // either branch of select! ends, wherever the other one is
    | Unregister(c: nat)
    | Drop(c: nat)

  const INIT := State([], map[], [], [], 0, 0, [])

  predicate Live(g: Stage) {
    !g.Stopped? && !g.Unregistered? && !g.Closed?
  }

  predicate Enabled(s: State, e: Event) {
    match e
    case Accept(_) => true
    case Enqueue(c, _) => c < |s.conns| && Live(s.conns[c].stage) && |s.conns[c].queue| < QUEUE_LIMIT
    case Recv(c) => c < |s.conns| && s.conns[c].stage.Idle? && s.conns[c].queue != []
    case Handle(c) => c < |s.conns| && s.conns[c].stage.Handling?
    case Send(c) =>
      && c < |s.conns| && s.conns[c].stage.Sending?
      && var tx := s.conns[c].stage.peer.tx;
         tx < |s.conns| && (s.conns[tx].stage.Closed? || |s.conns[tx].queue| < QUEUE_LIMIT)
    case Register(c) => c < |s.conns| && s.conns[c].stage.Registering?
    case Write(c) => c < |s.conns| && s.conns[c].stage.Writing?
    case Stop(c) => c < |s.conns| && Live(s.conns[c].stage)
    case Unregister(c) => c < |s.conns| && s.conns[c].stage.Stopped?
    case Drop(c) => c < |s.conns| && s.conns[c].stage.Unregistered?
  }

  function WithStage(s: State, c: nat, g: Stage): State
    requires c < |s.conns|
  {
    s.(conns := s.conns[c := s.conns[c].(stage := g)])
  }

  function Spend(s: State, tickets: seq<nat>, fsyncs: nat): State {
    s.(spent := s.spent + tickets, lost := s.lost + fsyncs)
  }

  function NewReply(ticket: nat, cmd: RespCmd): Stage {
    Writing(Reply(ticket, Response([], Some(cmd))))
  }

  /** insert_peerstate: another connection's entry is replaced, one's own is kept. */
  function Insert(s: State, c: nat, id: Id): State
    requires c < |s.conns|
  {
    var peers := if id in s.peers && s.peers[id].id == c + 1 then s.peers
                 else s.peers[id := PeerState(c + 1, c, s.conns[c].addr)];
    s.(conns := s.conns[c := s.conns[c].(peerId := id)], peers := peers, log := s.log + [Registered(id, c)])
  }

  /** handle_ping up to the write. */
  function HandlePing(s: State, c: nat, ticket: nat, src: Id): State
    requires c < |s.conns|
  {
    WithStage(Insert(s, c, src), c, NewReply(ticket, Pong))
  }

  /** handle_isync up to the send or the write. */
  function HandleIsync(s: State, c: nat, ticket: nat, src: Id, dst: Id): State
    requires c < |s.conns|
  {
    if dst in s.peers then
      var fsync := Request([], Some(Fsync(src, s.conns[c].addr)));
      WithStage(s, c, Sending(s.peers[dst], Msg(ticket, fsync), Some(src))).(found := s.found + 1)
    else WithStage(s, c, NewReply(ticket, Redirect(dst, [])))
  }

  /** handle_rsync up to the send or the write. */
  function HandleRsync(s: State, c: nat, ticket: nat, src: Id, dst: Id): State
    requires c < |s.conns|
  {
    if dst == s.conns[c].peerId then
      if src in s.peers
      then WithStage(s, c, NewReply(ticket, Redirect(src, s.peers[src].addr)))
      else Spend(WithStage(s, c, Idle), [ticket], 0)
    else if dst in s.peers
    then WithStage(s, c, Sending(s.peers[dst], Msg(ticket, Request(src, Some(Rsync(dst)))), None))
    else Spend(WithStage(s, c, Idle), [ticket], 0)
  }

  /** The dispatch in handle_cmds. */
  function HandleRequest(s: State, c: nat, m: Msg): State
    requires c < |s.conns|
  {
    match m.req.cmd
    case Some(Ping) => HandlePing(s, c, m.ticket, m.req.id)
    case Some(Isync(dst)) => HandleIsync(s, c, m.ticket, m.req.id, dst)
    case Some(Fsync(id, addr)) => WithStage(s, c, NewReply(m.ticket, FsyncResp(id, addr)))
    case Some(Rsync(dst)) => HandleRsync(s, c, m.ticket, m.req.id, dst)
    case _ => Spend(WithStage(s, c, Stopped), [m.ticket], 0)
  }

  /** Counts Fsyncs, as requests and as replies. */
  function Fsyncs(m: Msg): nat {
    if m.req.cmd.Some? && m.req.cmd.value.Fsync? then 1 else 0
  }

  function ReplyFsyncs(r: Reply): nat {
    if r.resp.cmd.Some? && r.resp.cmd.value.FsyncResp? then 1 else 0
  }

  function StageFsyncs(g: Stage): nat {
    match g
    case Handling(m) => Fsyncs(m)
    case Sending(_, m, _) => Fsyncs(m)
    case Writing(r) => ReplyFsyncs(r)
    case _ => 0
  }

  /** A send completes: onto the queue, or into the void if the receiver is gone. */
  function Deliver(s: State, tx: nat, m: Msg): State
    requires tx < |s.conns|
  {
    if s.conns[tx].stage.Closed? then Spend(s, [m.ticket], Fsyncs(m))
    else s.(conns := s.conns[tx := s.conns[tx].(queue := s.conns[tx].queue + [m])])
  }

  function StageTickets(g: Stage): seq<nat> {
    match g
    case Handling(m) => [m.ticket]
    case Sending(_, m, _) => [m.ticket]
    case Writing(r) => [r.ticket]
    case _ => []
  }

  function QueueTickets(q: seq<Msg>): seq<nat> {
    if q == [] then [] else [q[0].ticket] + QueueTickets(q[1..])
  }

  function Next(s: State, e: Event): State
    requires Enabled(s, e)
  {
    match e
    case Accept(addr) => s.(conns := s.conns + [Conn(addr, [], [], Idle, [])])
    case Enqueue(c, req) =>
      var m := Msg(|s.accepted|, req);
      s.(conns := s.conns[c := s.conns[c].(queue := s.conns[c].queue + [m])],
         accepted := s.accepted + [Accepted(c, req)])
    case Recv(c) =>
      var q := s.conns[c].queue;
      s.(conns := s.conns[c := s.conns[c].(queue := q[1..], stage := Handling(q[0]))])
    case Handle(c) => HandleRequest(s, c, s.conns[c].stage.m)
    case Send(c) =>
      var Sending(peer, m, register) := s.conns[c].stage;
      WithStage(Deliver(s, peer.tx, m), c, if register.Some? then Registering(register.value) else Idle)
    case Register(c) => WithStage(Insert(s, c, s.conns[c].stage.id), c, Idle)
    case Write(c) =>
      var reply := s.conns[c].stage.reply;
      s.(conns := s.conns[c := s.conns[c].(out := s.conns[c].out + [reply], stage := Idle)])
    case Stop(c) => Spend(WithStage(s, c, Stopped), StageTickets(s.conns[c].stage), StageFsyncs(s.conns[c].stage))
    case Unregister(c) =>
      var k := s.conns[c].peerId;
      WithStage(s, c, Unregistered)
        .(peers := if k in s.peers && s.peers[k].id == c + 1 then s.peers - {k} else s.peers,
          log := s.log + [TornDown(k, c)])
    case Drop(c) =>
      Spend(s.(conns := s.conns[c := s.conns[c].(queue := [], stage := Closed)]),
            QueueTickets(s.conns[c].queue), Total(Fsyncs, s.conns[c].queue))
  }

  ghost predicate Steps(s: State, e: Event, t: State) {
    Enabled(s, e) && t == Next(s, e)
  }

  /** A run: any interleaving of the handlers and any behaviour of the clients. */
  ghost predicate IsRun(es: seq<Event>, ss: seq<State>) {
    && |ss| == |es| + 1
    && ss[0] == INIT
    && forall i {:trigger es[i]} :: 0 <= i < |es| ==> Steps(ss[i], es[i], ss[i + 1])
  }

  // ---- what every step keeps, whatever the clients send ----

  /** A map entry or clone describes the connection it feeds. */
  predicate Real(s: State, p: PeerState) {
    p.tx < |s.conns| && p.id == p.tx + 1 && p.addr == s.conns[p.tx].addr
  }

  /** A connection's own client used `id` in a request that registers its sender. */
  ghost predicate Vouched(s: State, c: nat, id: Id) {
    exists k :: 0 <= k < |s.accepted| && s.accepted[k].conn == c && s.accepted[k].req.id == id
                && s.accepted[k].req.cmd.Some? && (s.accepted[k].req.cmd.value.Ping? || s.accepted[k].req.cmd.value.Isync?)
  }

  /** The message stems from an accepted Isync or Rsync naming a key that connection `c`
      registered, and has been forwarded to `c` unaltered: an Isync as an Fsync with its sender's
      id and observed address, an Rsync as itself. */
  ghost predicate Forwarded(s: State, c: nat, m: Msg) {
    && m.ticket < |s.accepted|
    && var o := s.accepted[m.ticket];
       && o.conn < |s.conns| && o.req.cmd.Some?
       && match o.req.cmd.value
          case Isync(x) => Registered(x, c) in s.log && m.req == Request([], Some(Fsync(o.req.id, s.conns[o.conn].addr)))
          case Rsync(x) => Registered(x, c) in s.log && m.req == o.req
          case _ => false
  }

  /** What a message on connection `c`'s queue, or in its handler's hands, can be. */
  ghost predicate Genuine(s: State, c: nat, m: Msg) {
    || (m.ticket < |s.accepted| && s.accepted[m.ticket] == Accepted(c, m.req))
    || Forwarded(s, c, m)
  }

  /** What a reply written to connection `c` can be: it answers the request its ticket names. */
  ghost predicate Faithful(s: State, c: nat, r: Reply) {
    && r.ticket < |s.accepted| && r.resp.id == [] && r.resp.cmd.Some?
    && var o := s.accepted[r.ticket];
       && o.conn < |s.conns| && o.req.cmd.Some?
       && match r.resp.cmd.value
          case Pong => o.conn == c && o.req.cmd.value.Ping?
          case Redirect(id, addr) =>
            if addr == [] then o.conn == c && o.req.cmd.value == Isync(id)
            else
              && o.req.cmd.value.Rsync? && o.req.id == id
              && (o.req.cmd.value.id == [] || Registered(o.req.cmd.value.id, c) in s.log)
              && exists d :: 0 <= d < |s.conns| && Registered(id, d) in s.log && s.conns[d].addr == addr
          case FsyncResp(id, addr) =>
            || (o.req.cmd.value.Isync? && Registered(o.req.cmd.value.id, c) in s.log
                && id == o.req.id && addr == s.conns[o.conn].addr)
            || (o.conn == c && o.req.cmd.value == Fsync(id, addr))
  }

  ghost predicate StageTraced(s: State, c: nat, g: Stage) {
    match g
    case Handling(m) => Genuine(s, c, m)
    case Sending(peer, m, register) =>
      Real(s, peer) && Forwarded(s, peer.tx, m) && (register.Some? ==> Vouched(s, c, register.value))
    case Registering(id) => Vouched(s, c, id)
    case Writing(r) => Faithful(s, c, r)
    case _ => true
  }

  ghost predicate ConnTraced(s: State, c: nat, conn: Conn) {
    && |conn.queue| <= QUEUE_LIMIT
    && (conn.stage.Closed? ==> conn.queue == [])
    && (conn.peerId == [] || Registered(conn.peerId, c) in s.log)
    && (forall k :: Registered(k, c) in s.log ==> Vouched(s, c, k) && Registered(conn.peerId, c) in s.log)
    && StageTraced(s, c, conn.stage)
    && (forall i :: 0 <= i < |conn.queue| ==> Genuine(s, c, conn.queue[i]))
    && (forall i :: 0 <= i < |conn.out| ==> Faithful(s, c, conn.out[i]))
  }

  ghost predicate Traced(s: State) {
    && (forall c :: 0 <= c < |s.conns| ==> ConnTraced(s, c, s.conns[c]))
    && (forall k :: k in s.peers ==> Real(s, s.peers[k]) && Registered(k, s.peers[k].tx) in s.log)
    && (forall k :: 0 <= k < |s.accepted| ==> s.accepted[k].conn < |s.conns|)
    && (forall k: Id, c: nat :: Registered(k, c) in s.log ==> c < |s.conns|)
  }

  /** History only grows and addresses are fixed. */
  ghost predicate Extends(s: State, t: State) {
    && s.accepted <= t.accepted
    && s.log <= t.log
    && |s.conns| <= |t.conns|
    && (forall c :: 0 <= c < |s.conns| ==> s.conns[c].addr == t.conns[c].addr && s.conns[c].out <= t.conns[c].out)
  }
}
