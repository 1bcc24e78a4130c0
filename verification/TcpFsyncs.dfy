/**
 * Conservation of Fsyncs on the TCP server, counted as such: each Isync whose lookup found a target
 * becomes one Fsync, which is then on a queue, in a handler's hand, written, or lost.
 */
module TcpFsyncs {
  import opened Base
  import opened Messages
  import opened Sequences
  import opened TcpProtocol
  import opened TcpTrace

  /** The Fsyncs of one connection: queued, in hand (pending send or write), and written. */
  function ConnFsyncs(conn: Conn): nat {
    Total(Fsyncs, conn.queue) + StageFsyncs(conn.stage) + Total(ReplyFsyncs, conn.out)
  }

  /** The Fsyncs that clients sent themselves. */
  function ClientFsyncs(accepted: seq<Accepted>): nat {
    if accepted == [] then 0
    else ClientFsyncs(accepted[..|accepted| - 1]) + Fsyncs(Msg(0, accepted[|accepted| - 1].req))
  }

  ghost predicate Conserved(s: State) {
    s.found + ClientFsyncs(s.accepted) == Total(ConnFsyncs, s.conns) + s.lost
  }

  /** Only the stage of one connection changes; what it gains was found, what it loses is lost. */
  lemma StageConserved(s: State, c: nat, t: State)
    requires Conserved(s) && c < |s.conns| && c < |t.conns| && t.accepted == s.accepted
    requires t.conns == s.conns[c := t.conns[c]]
    requires t.conns[c].queue == s.conns[c].queue && t.conns[c].out == s.conns[c].out
    requires StageFsyncs(t.conns[c].stage) + t.lost + s.found == StageFsyncs(s.conns[c].stage) + s.lost + t.found
    ensures Conserved(t)
  {
    TotalUpdate(ConnFsyncs, s.conns, c, t.conns[c]);
  }

  /** An Rsync neither makes nor loses an Fsync. */
  lemma RsyncFsyncs(s: State, c: nat, ticket: nat, src: Id, dst: Id)
    requires c < |s.conns|
    ensures var t := HandleRsync(s, c, ticket, src, dst);
            c < |t.conns| && StageFsyncs(t.conns[c].stage) == 0 && t.found == s.found && t.lost == s.lost
  {
  }

  lemma RsyncConserved(s: State, c: nat, m: Msg, dst: Id)
    requires Conserved(s) && c < |s.conns| && s.conns[c].stage == Handling(m) && m.req.cmd == Some(Rsync(dst))
    ensures Conserved(HandleRsync(s, c, m.ticket, m.req.id, dst))
  {
    RsyncFramed(s, c, m.ticket, m.req.id, dst);
    RsyncFsyncs(s, c, m.ticket, m.req.id, dst);
    StageConserved(s, c, HandleRsync(s, c, m.ticket, m.req.id, dst));
  }

  lemma IsyncConserved(s: State, c: nat, m: Msg, dst: Id)
    requires Conserved(s) && c < |s.conns| && s.conns[c].stage == Handling(m) && m.req.cmd == Some(Isync(dst))
    ensures Conserved(HandleIsync(s, c, m.ticket, m.req.id, dst))
  {
    StageConserved(s, c, HandleIsync(s, c, m.ticket, m.req.id, dst));
  }

  lemma HandleConserved(s: State, c: nat, m: Msg)
    requires Conserved(s) && c < |s.conns| && s.conns[c].stage == Handling(m)
    ensures Conserved(HandleRequest(s, c, m))
  {
    match m.req.cmd {
      case Some(Ping) => StageConserved(s, c, HandlePing(s, c, m.ticket, m.req.id));
      case Some(Isync(dst)) => IsyncConserved(s, c, m, dst);
      case Some(Fsync(id, addr)) => StageConserved(s, c, WithStage(s, c, NewReply(m.ticket, FsyncResp(id, addr))));
      case Some(Rsync(dst)) => RsyncConserved(s, c, m, dst);
      case _ => StageConserved(s, c, Spend(WithStage(s, c, Stopped), [m.ticket], 0));
    }
  }

  lemma EnqueueConserved(s: State, c: nat, req: Request)
    requires Conserved(s) && Enabled(s, Enqueue(c, req))
    ensures Conserved(Next(s, Enqueue(c, req)))
  {
    var t := Next(s, Enqueue(c, req));
    TotalUpdate(ConnFsyncs, s.conns, c, t.conns[c]);
    TotalSnoc(Fsyncs, s.conns[c].queue, Msg(|s.accepted|, req));
    assert t.accepted[..|s.accepted|] == s.accepted;
  }

  lemma SendConserved(s: State, c: nat)
    requires Conserved(s) && Enabled(s, Send(c))
    ensures Conserved(Next(s, Send(c)))
  {
    var Sending(peer, m, register) := s.conns[c].stage;
    var t := Next(s, Send(c));
    if s.conns[peer.tx].stage.Closed? {
      StageConserved(s, c, t);
    } else {
      var d := Deliver(s, peer.tx, m);
      TotalUpdate(ConnFsyncs, s.conns, peer.tx, d.conns[peer.tx]);
      TotalSnoc(Fsyncs, s.conns[peer.tx].queue, m);
      TotalUpdate(ConnFsyncs, d.conns, c, t.conns[c]);
    }
  }

  lemma LocalConserved(s: State, e: Event)
    requires Conserved(s) && Enabled(s, e) && (e.Recv? || e.Write? || e.Drop?)
    ensures Conserved(Next(s, e))
  {
    LocalFsyncs(s, e);
    TotalUpdate(ConnFsyncs, s.conns, e.c, Next(s, e).conns[e.c]);
  }

  lemma LocalFsyncs(s: State, e: Event)
    requires Enabled(s, e) && (e.Recv? || e.Write? || e.Drop?)
    ensures var t := Next(s, e);
            && t.conns == s.conns[e.c := t.conns[e.c]] && t.accepted == s.accepted && t.found == s.found
            && ConnFsyncs(t.conns[e.c]) + t.lost == ConnFsyncs(s.conns[e.c]) + s.lost
  {
    if e.Write? {
      TotalSnoc(ReplyFsyncs, s.conns[e.c].out, s.conns[e.c].stage.reply);
    }
  }

  lemma NextConserved(s: State, e: Event)
    requires Conserved(s) && Enabled(s, e)
    ensures Conserved(Next(s, e))
  {
    if e.Accept? {
      TotalSnoc(ConnFsyncs, s.conns, Conn(e.addr, [], [], Idle, []));
    } else if e.Enqueue? {
      EnqueueConserved(s, e.c, e.req);
    } else if e.Handle? {
      HandleConserved(s, e.c, s.conns[e.c].stage.m);
    } else if e.Send? {
      SendConserved(s, e.c);
    } else if e.Recv? || e.Write? || e.Drop? {
      LocalConserved(s, e);
    } else {
      StageConserved(s, e.c, Next(s, e));
    }
  }

  lemma {:induction false} RunConserved(es: seq<Event>, ss: seq<State>, i: nat)
    requires IsRun(es, ss) && i < |ss|
    ensures Conserved(ss[i])
  {
    if i > 0 {
      RunConserved(es, ss, i - 1);
      NextConserved(ss[i - 1], es[i - 1]);
    } else {
      NoFsyncs();
    }
  }

  lemma NoFsyncs()
    ensures Conserved(INIT)
  {
  }

  /** In every state of every run: the Isyncs whose lookup found a target, and the Fsyncs clients sent
      themselves, are the Fsyncs written, queued and in hand, and those discarded. */
  lemma FsyncConservation(es: seq<Event>, ss: seq<State>, i: nat)
    requires IsRun(es, ss) && i < |ss|
    ensures var s := ss[i]; s.found + ClientFsyncs(s.accepted) == Total(ConnFsyncs, s.conns) + s.lost
  {
    RunConserved(es, ss, i);
  }
}
