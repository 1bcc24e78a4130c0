/**
 * src/tcp/server.rs as the objects it is: the server with its connection count and shared peer
 * map, and one handler per connection updating its own fields. A method is one stretch between
 * two points where another task can run; its contract is the step of TcpProtocol it takes.
 */
module TcpServer {
  import opened Base
  import opened Messages
  import opened Sequences
  import opened TcpProtocol

  class PeerHandler {
    const id: nat
    const addr: SocketAddr
    var peerId: Id
    var queue: seq<Msg>
    var stage: Stage
    var out: seq<Reply>

    constructor (id: nat, addr: SocketAddr)
      ensures this.id == id && this.addr == addr
      ensures peerId == [] && queue == [] && stage == Idle && out == []
    {
      this.id, this.addr := id, addr;
      peerId, queue, stage, out := [], [], Idle, [];
    }

    function View(): Conn
      reads this
    {
      Conn(addr, peerId, queue, stage, out)
    }
  }

  class Server {
    var count: nat
    var peers: map<Id, PeerState>
    var handlers: seq<PeerHandler>
    var accepted: seq<Accepted>   // history, kept to number the tickets
    ghost var spent: seq<nat>
    ghost var found: nat
    ghost var lost: nat
    ghost var log: seq<RegEvent>

    ghost predicate Valid()
      reads this
    {
      && count == |handlers|
      && (forall i :: 0 <= i < |handlers| ==> handlers[i].id == i + 1)
      && (forall i, j :: 0 <= i < j < |handlers| ==> handlers[i] != handlers[j])
    }

    ghost function View(): State
      reads this, handlers
    {
      State(seq(|handlers|, i requires 0 <= i < |handlers| reads this, handlers => handlers[i].View()),
            peers, accepted, spent, found, lost, log)
    }

    constructor ()
      ensures Valid() && View() == INIT
    {
      count, peers, handlers := 0, map[], [];
      accepted, spent, found, lost, log := [], [], 0, 0, [];
    }

    /** next_id: ids start at 1 and are never reused. */
    method NextId() returns (id: nat)
      modifies this`count
      ensures id == count == old(count) + 1
    {
      count := count + 1;
      id := count;
    }

    method Accept(addr: SocketAddr)
      requires Valid()
      modifies this
      ensures Valid() && View() == Next(old(View()), TcpProtocol.Accept(addr))
    {
      ghost var s := View();
      var id := NextId();
      var h := new PeerHandler(id, addr);
      handlers := handlers + [h];
      assert View().conns == s.conns + [h.View()];
    }

    /** The reader half of the task: req_tx.send(req). */
    method Enqueue(c: nat, req: Request)
      requires Valid() && Enabled(View(), TcpProtocol.Enqueue(c, req))
      modifies this`accepted, handlers[c]
      ensures Valid() && View() == Next(old(View()), TcpProtocol.Enqueue(c, req))
    {
      ghost var s := View();
      var h := handlers[c];
      h.queue := h.queue + [Msg(|accepted|, req)];
      accepted := accepted + [Accepted(c, req)];
      assert View().conns == s.conns[c := h.View()];
    }

    /** req_rx.recv() */
    method Recv(c: nat)
      requires Valid() && Enabled(View(), TcpProtocol.Recv(c))
      modifies handlers[c]
      ensures Valid() && View() == Next(old(View()), TcpProtocol.Recv(c))
    {
      ghost var s := View();
      var h := handlers[c];
      h.stage := Handling(h.queue[0]);
      h.queue := h.queue[1..];
      assert View().conns == s.conns[c := h.View()];
    }

    /** insert_peerstate: set the id, drop another connection's entry, add one's own if missing. */
    method InsertPeerstate(c: nat, id: Id)
      requires Valid() && c < |handlers|
      modifies this`peers, this`log, handlers[c]
      ensures Valid() && View() == Insert(old(View()), c, id)
    {
      ghost var s := View();
      var h := handlers[c];
      h.peerId := id;
      if h.peerId in peers && peers[h.peerId].id != h.id {
        peers := peers - {h.peerId};
      }
      if h.peerId !in peers {
        peers := peers[h.peerId := PeerState(h.id, c, h.addr)];
      }
      log := log + [Registered(id, c)];
      assert View().conns == s.conns[c := h.View()];
      assert peers == Insert(s, c, id).peers;
    }

    method Become(c: nat, g: Stage)
      requires Valid() && c < |handlers|
      modifies handlers[c]
      ensures Valid() && View() == WithStage(old(View()), c, g)
    {
      ghost var s := View();
      handlers[c].stage := g;
      assert View().conns == s.conns[c := handlers[c].View()];
    }

    method HandlePing(c: nat, ticket: nat, src: Id)
      requires Valid() && c < |handlers|
      modifies this`peers, this`log, handlers[c]
      ensures Valid() && View() == TcpProtocol.HandlePing(old(View()), c, ticket, src)
    {
      InsertPeerstate(c, src);
      Become(c, NewReply(ticket, Pong));
    }

    method HandleIsync(c: nat, ticket: nat, src: Id, dst: Id)
      requires Valid() && c < |handlers|
      modifies this`found, handlers[c]
      ensures Valid() && View() == TcpProtocol.HandleIsync(old(View()), c, ticket, src, dst)
    {
      if dst in peers {
        var peer := peers[dst];
        var fsync := Request([], Some(Fsync(src, handlers[c].addr)));
        Become(c, Sending(peer, Msg(ticket, fsync), Some(src)));
        found := found + 1;
      } else {
        Become(c, NewReply(ticket, Redirect(dst, [])));
      }
    }

    method HandleRsync(c: nat, ticket: nat, src: Id, dst: Id)
      requires Valid() && c < |handlers|
      modifies this`spent, handlers[c]
      ensures Valid() && View() == TcpProtocol.HandleRsync(old(View()), c, ticket, src, dst)
    {
      if dst == handlers[c].peerId {
        if src in peers {
          Become(c, NewReply(ticket, Redirect(src, peers[src].addr)));
          return;
        }
      } else if dst in peers {
        Become(c, Sending(peers[dst], Msg(ticket, Request(src, Some(Rsync(dst)))), None));
        return;
      }
      Become(c, Idle);
      spent := spent + [ticket];
    }

    /** The dispatch in handle_cmds on the request just received. */
    method Handle(c: nat)
      requires Valid() && Enabled(View(), TcpProtocol.Handle(c))
      modifies this, handlers[c]
      ensures Valid() && View() == Next(old(View()), TcpProtocol.Handle(c))
    {
      var m := handlers[c].stage.m;
      match m.req.cmd {
        case Some(Ping) => HandlePing(c, m.ticket, m.req.id);
        case Some(Isync(dst)) => HandleIsync(c, m.ticket, m.req.id, dst);
        case Some(Fsync(id, addr)) => Become(c, NewReply(m.ticket, FsyncResp(id, addr)));
        case Some(Rsync(dst)) => HandleRsync(c, m.ticket, m.req.id, dst);
        case _ =>
          Become(c, Stopped);
          spent := spent + [m.ticket];
      }
    }

    /** req_tx.send(): Ok puts the message on the queue, Err means the receiver was dropped. */
    method Deliver(tx: nat, m: Msg)
      requires Valid() && tx < |handlers|
      modifies this`spent, this`lost, handlers[tx]
      ensures Valid() && View() == TcpProtocol.Deliver(old(View()), tx, m)
    {
      ghost var s := View();
      var h := handlers[tx];
      if h.stage.Closed? {
        spent, lost := spent + [m.ticket], lost + Fsyncs(m);
      } else {
        h.queue := h.queue + [m];
        assert View().conns == s.conns[tx := h.View()];
      }
    }

    /** The await on the send is over. */
    method Send(c: nat)
      requires Valid() && Enabled(View(), TcpProtocol.Send(c))
      modifies this`spent, this`lost, handlers[c], handlers[handlers[c].stage.peer.tx]
      ensures Valid() && View() == Next(old(View()), TcpProtocol.Send(c))
    {
      var Sending(peer, m, register) := handlers[c].stage;
      Deliver(peer.tx, m);
      Become(c, if register.Some? then Registering(register.value) else Idle);
    }

    /** The end of handle_isync. */
    method Register(c: nat)
      requires Valid() && Enabled(View(), TcpProtocol.Register(c))
      modifies this`peers, this`log, handlers[c]
      ensures Valid() && View() == Next(old(View()), TcpProtocol.Register(c))
    {
      InsertPeerstate(c, handlers[c].stage.id);
      Become(c, Idle);
    }

    /** The await on send_response is over and it succeeded. */
    method Write(c: nat)
      requires Valid() && Enabled(View(), TcpProtocol.Write(c))
      modifies handlers[c]
      ensures Valid() && View() == Next(old(View()), TcpProtocol.Write(c))
    {
      ghost var s := View();
      var h := handlers[c];
      h.out := h.out + [h.stage.reply];
      h.stage := Idle;
      assert View().conns == s.conns[c := h.View()];
    }

    /** select! is over: whatever the handler had in hand is dropped. */
    method Stop(c: nat)
      requires Valid() && Enabled(View(), TcpProtocol.Stop(c))
      modifies this`spent, this`lost, handlers[c]
      ensures Valid() && View() == Next(old(View()), TcpProtocol.Stop(c))
    {
      spent, lost := spent + StageTickets(handlers[c].stage), lost + StageFsyncs(handlers[c].stage);
      Become(c, Stopped);
    }

    /** The end of handle_stream: remove the entry only if it is still this connection's. */
    method Unregister(c: nat)
      requires Valid() && Enabled(View(), TcpProtocol.Unregister(c))
      modifies this`peers, this`log, handlers[c]
      ensures Valid() && View() == Next(old(View()), TcpProtocol.Unregister(c))
    {
      var h := handlers[c];
      if h.peerId in peers {
        var p := peers[h.peerId];
        if p.id == h.id {
          peers := peers - {h.peerId};
        }
      }
      log := log + [TornDown(h.peerId, c)];
      Become(c, Unregistered);
    }

    /** The handler, and with it the receiving half of its queue, is dropped. */
    method Drop(c: nat)
      requires Valid() && Enabled(View(), TcpProtocol.Drop(c))
      modifies this`spent, this`lost, handlers[c]
      ensures Valid() && View() == Next(old(View()), TcpProtocol.Drop(c))
    {
      ghost var s := View();
      var h := handlers[c];
      spent, lost := spent + QueueTickets(h.queue), lost + Total(Fsyncs, h.queue);
      h.queue, h.stage := [], Closed;
      assert View().conns == s.conns[c := h.View()];
    }
  }
}
