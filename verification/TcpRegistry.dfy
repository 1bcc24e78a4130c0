/**
 * The shared peer map of the TCP server refines a plain log of registrations and teardowns, in
 * every run with arbitrary clients.
 */
module TcpRegistry {
  import opened Base
  import opened Messages
  import opened TcpProtocol
  import opened TcpTrace
  import opened TcpProvenance

  /** The connection that registered `k` last. */
  function LastRegistrar(log: seq<RegEvent>, k: Id): Option<nat> {
    if log == [] then None
    else
      var last := log[|log| - 1];
      if last.Registered? && last.key == k then Some(last.conn) else LastRegistrar(log[..|log| - 1], k)
  }

  /** The last connection to register `k` has not been torn down under that key. */
  predicate Present(log: seq<RegEvent>, k: Id) {
    LastRegistrar(log, k).Some? && TornDown(k, LastRegistrar(log, k).value) !in log
  }

  /** The map holds exactly the present keys, each with its registrar's id, queue and observed address. */
  ghost predicate MatchesLog(s: State) {
    forall k :: KeyMatches(s, k)
  }

  ghost predicate KeyMatches(s: State, k: Id) {
    && (k in s.peers <==> Present(s.log, k))
    && (k in s.peers ==>
          var c := LastRegistrar(s.log, k).value;
          c < |s.conns| && s.peers[k] == PeerState(c + 1, c, s.conns[c].addr))
  }

  predicate Gone(g: Stage) {
    g.Unregistered? || g.Closed?
  }

  /** A connection is past its conditional remove exactly when the log says so. */
  ghost predicate TeardownsLogged(s: State) {
    && (forall k: Id, c: nat :: TornDown(k, c) in s.log ==>
          c < |s.conns| && Gone(s.conns[c].stage) && s.conns[c].peerId == k)
    && (forall c :: 0 <= c < |s.conns| && Gone(s.conns[c].stage) ==> TornDown(s.conns[c].peerId, c) in s.log)
  }

  lemma LastAfter(log: seq<RegEvent>, ev: RegEvent, k: Id)
    ensures LastRegistrar(log + [ev], k) ==
            if ev.Registered? && ev.key == k then Some(ev.conn) else LastRegistrar(log, k)
    ensures forall e :: e in log + [ev] <==> e in log || e == ev
  {
    assert (log + [ev])[..|log|] == log;
  }

  /** Neither the map nor the log changes. */
  lemma SameRegistry(s: State, t: State)
    requires MatchesLog(s) && t.peers == s.peers && t.log == s.log && Extends(s, t)
    ensures MatchesLog(t)
  {
    forall k ensures KeyMatches(t, k) { assert KeyMatches(s, k); }
  }

  lemma InsertMatches(s: State, c: nat, id: Id)
    requires MatchesLog(s) && TeardownsLogged(s) && c < |s.conns| && !Gone(s.conns[c].stage)
    ensures MatchesLog(Insert(s, c, id))
  {
    var t := Insert(s, c, id);
    forall k ensures KeyMatches(t, k) {
      LastAfter(s.log, Registered(id, c), k);
      assert KeyMatches(s, k);
    }
  }

  lemma UnregisterMatches(s: State, c: nat)
    requires MatchesLog(s) && Enabled(s, Unregister(c))
    ensures MatchesLog(Next(s, Unregister(c)))
  {
    var t, key := Next(s, Unregister(c)), s.conns[c].peerId;
    forall k ensures KeyMatches(t, k) {
      LastAfter(s.log, TornDown(key, c), k);
      assert KeyMatches(s, k);
    }
  }

  lemma NextMatches(s: State, e: Event)
    requires MatchesLog(s) && TeardownsLogged(s) && Enabled(s, e)
    ensures MatchesLog(Next(s, e))
  {
    NextExtends(s, e);
    if e.Register? {
      InsertMatches(s, e.c, s.conns[e.c].stage.id);
      SameRegistry(Insert(s, e.c, s.conns[e.c].stage.id), Next(s, e));
    } else if e.Handle? {
      var m := s.conns[e.c].stage.m;
      if m.req.cmd == Some(Ping) {
        InsertMatches(s, e.c, m.req.id);
        SameRegistry(Insert(s, e.c, m.req.id), HandlePing(s, e.c, m.ticket, m.req.id));
      } else {
        HandleKeepsRegistry(s, e.c, m);
        SameRegistry(s, Next(s, e));
      }
    } else if e.Unregister? {
      UnregisterMatches(s, e.c);
    } else {
      SameRegistry(s, Next(s, e));
    }
  }

  lemma HandleKeepsRegistry(s: State, c: nat, m: Msg)
    requires c < |s.conns| && m.req.cmd != Some(Ping)
    ensures HandleRequest(s, c, m).peers == s.peers && HandleRequest(s, c, m).log == s.log
  {
  }

  lemma NextTeardowns(s: State, e: Event)
    requires TeardownsLogged(s) && Enabled(s, e)
    ensures TeardownsLogged(Next(s, e))
  {
    if e.Unregister? {
      LastAfter(s.log, TornDown(s.conns[e.c].peerId, e.c), []);
    } else if e.Register? {
      LastAfter(s.log, Registered(s.conns[e.c].stage.id, e.c), []);
    } else if e.Handle? {
      HandleTeardowns(s, e.c, s.conns[e.c].stage.m);
    } else {
      OtherTeardowns(s, e);
    }
  }

  lemma OtherTeardowns(s: State, e: Event)
    requires TeardownsLogged(s) && Enabled(s, e) && !e.Unregister? && !e.Register? && !e.Handle?
    ensures TeardownsLogged(Next(s, e))
  {
    var t := Next(s, e);
    assert t.log == s.log;
    SameTeardowns(s, t);
  }

  /** Nobody is torn down. */
  lemma SameTeardowns(s: State, t: State)
    requires TeardownsLogged(s) && |s.conns| <= |t.conns|
    requires forall c :: 0 <= c < |s.conns| ==>
               Gone(t.conns[c].stage) == Gone(s.conns[c].stage) && (Gone(s.conns[c].stage) ==> t.conns[c].peerId == s.conns[c].peerId)
    requires forall c :: |s.conns| <= c < |t.conns| ==> !Gone(t.conns[c].stage)
    requires forall k: Id, c: nat :: TornDown(k, c) in t.log <==> TornDown(k, c) in s.log
    ensures TeardownsLogged(t)
  {
  }

  lemma HandleTeardowns(s: State, c: nat, m: Msg)
    requires TeardownsLogged(s) && c < |s.conns| && s.conns[c].stage.Handling?
    ensures TeardownsLogged(HandleRequest(s, c, m))
  {
    var t := HandleRequest(s, c, m);
    HandleFramed(s, c, m);
    if m.req.cmd == Some(Ping) {
      LastAfter(s.log, Registered(m.req.id, c), []);
    } else {
      HandleKeepsRegistry(s, c, m);
    }
    SameTeardowns(s, t);
  }

  /** Key k is in the map exactly when the last connection to register k has not been torn down
      with peer_id == k, and the entry is then that connection's: in every reachable state. */
  lemma {:induction false} RunMatchesLog(es: seq<Event>, ss: seq<State>, i: nat)
    requires IsRun(es, ss) && i < |ss|
    ensures MatchesLog(ss[i]) && TeardownsLogged(ss[i])
  {
    if i > 0 {
      RunMatchesLog(es, ss, i - 1);
      NextMatches(ss[i - 1], es[i - 1]);
      NextTeardowns(ss[i - 1], es[i - 1]);
    }
  }

  lemma {:induction false} LogGrows(es: seq<Event>, ss: seq<State>, i: nat, j: nat)
    requires IsRun(es, ss) && i <= j < |ss|
    ensures Extends(ss[i], ss[j])
    decreases j
  {
    if i < j {
      LogGrows(es, ss, i, j - 1);
      var e := es[j - 1];
      NextExtends(ss[j - 1], e);
    }
  }

  lemma {:induction false} StillLast(old_log: seq<RegEvent>, log: seq<RegEvent>, k: Id, d: nat)
    requires old_log <= log && LastRegistrar(old_log, k) == Some(d)
    requires forall n :: |old_log| <= n < |log| && log[n].Registered? && log[n].key == k ==> log[n].conn == d
    ensures LastRegistrar(log, k) == Some(d)
    decreases |log|
  {
    if |old_log| < |log| {
      StillLast(old_log, log[..|log| - 1], k, d);
    } else {
      assert old_log == log;
    }
  }

  /** A reconnected peer stays registered: as long as no other connection registers the key and its
      owner is not torn down, nothing else that happens removes or alters the entry, in particular
      not the teardown of an earlier connection, however late it comes. */
  lemma EntrySurvives(es: seq<Event>, ss: seq<State>, i: nat, j: nat, k: Id)
    requires IsRun(es, ss) && i <= j < |ss| && k in ss[i].peers
    requires forall n :: |ss[i].log| <= n < |ss[j].log| ==>
               && ss[j].log[n] != TornDown(k, ss[i].peers[k].tx)
               && (ss[j].log[n].Registered? && ss[j].log[n].key == k ==> ss[j].log[n].conn == ss[i].peers[k].tx)
    ensures k in ss[j].peers && ss[j].peers[k] == ss[i].peers[k]
  {
    var s, t, d := ss[i], ss[j], ss[i].peers[k].tx;
    RunMatchesLog(es, ss, i);
    RunMatchesLog(es, ss, j);
    LogGrows(es, ss, i, j);
    assert KeyMatches(s, k) && KeyMatches(t, k);
    StillLast(s.log, t.log, k, d);
    assert TornDown(k, d) !in t.log;
  }

  /** With one id per connection, no entry outlives its owner's conditional remove. */
  lemma OwnersAreLive(es: seq<Event>, ss: seq<State>, who: nat -> Id, i: nat, k: Id)
    requires IsRun(es, ss) && i < |ss| && OneId(ss[i], who) && k in ss[i].peers
    ensures var p := ss[i].peers[k];
            p.tx < |ss[i].conns| && who(p.tx) == k && !Gone(ss[i].conns[p.tx].stage)
  {
    var s := ss[i];
    RunMatchesLog(es, ss, i);
    RunTraced(es, ss, i);
    assert KeyMatches(s, k);
    RegistersOwnId(s, who, k, s.peers[k].tx);
  }

  /** With arbitrary clients an entry can outlive its owner's conditional remove. It does so exactly
      under a key that the owner was the last to register and is not its peer_id any more. */
  lemma StaleIffRenamed(es: seq<Event>, ss: seq<State>, i: nat, c: nat, k: Id)
    requires IsRun(es, ss) && i < |ss| && c < |ss[i].conns| && Gone(ss[i].conns[c].stage)
    ensures k in ss[i].peers && ss[i].peers[k].tx == c <==>
            LastRegistrar(ss[i].log, k) == Some(c) && k != ss[i].conns[c].peerId
  {
    RunMatchesLog(es, ss, i);
    assert KeyMatches(ss[i], k);
  }

  // ---- what the handlers do, told by the log ----

  /** The entry the log accounts for. */
  function Entry(s: State, k: Id): Option<PeerState> {
    if Present(s.log, k) && LastRegistrar(s.log, k).value < |s.conns| then
      var d := LastRegistrar(s.log, k).value;
      Some(PeerState(d + 1, d, s.conns[d].addr))
    else None
  }

  lemma EntryIsMap(es: seq<Event>, ss: seq<State>, i: nat, k: Id)
    requires IsRun(es, ss) && i < |ss|
    ensures Entry(ss[i], k) == if k in ss[i].peers then Some(ss[i].peers[k]) else None
  {
    RunMatchesLog(es, ss, i);
    assert KeyMatches(ss[i], k);
  }

  /** A handled Isync is on its way to the target's last registrar as an Fsync with the sender's id
      and observed address, with the sender to be registered after it; or is answered with an empty
      address if the target is not present. */
  lemma IsyncRouted(es: seq<Event>, ss: seq<State>, i: nat, c: nat, m: Msg, target: Id)
    requires IsRun(es, ss) && i < |es| && es[i] == Handle(c) && c < |ss[i].conns|
    requires ss[i].conns[c].stage == Handling(m) && m.req.cmd == Some(Isync(target))
    ensures c < |ss[i + 1].conns| &&
            var fsync := Request([], Some(Fsync(m.req.id, ss[i].conns[c].addr)));
            ss[i + 1].conns[c].stage ==
            match Entry(ss[i], target)
            case Some(p) => Sending(p, Msg(m.ticket, fsync), Some(m.req.id))
            case None => Writing(Reply(m.ticket, Response([], Some(Redirect(target, [])))))
  {
    EntryIsMap(es, ss, i, target);
    var e := es[i];
    assert Steps(ss[i], e, ss[i + 1]);
  }

  /** A handled Rsync that names the handler's own id is answered with the observed address of the
      last registrar of its sender's id; any other is forwarded unaltered to the last registrar of
      the id it names; and where there is none, nothing is sent. */
  lemma RsyncRouted(es: seq<Event>, ss: seq<State>, i: nat, c: nat, m: Msg, dst: Id)
    requires IsRun(es, ss) && i < |es| && es[i] == Handle(c) && c < |ss[i].conns|
    requires ss[i].conns[c].stage == Handling(m) && m.req.cmd == Some(Rsync(dst))
    ensures c < |ss[i + 1].conns| &&
            var mine := dst == ss[i].conns[c].peerId;
            ss[i + 1].conns[c].stage ==
            match Entry(ss[i], if mine then m.req.id else dst)
            case Some(p) =>
              if mine then Writing(Reply(m.ticket, Response([], Some(Redirect(m.req.id, p.addr)))))
              else Sending(p, m, None)
            case None => Idle
  {
    EntryIsMap(es, ss, i, if dst == ss[i].conns[c].peerId then m.req.id else dst);
    var e := es[i];
    assert Steps(ss[i], e, ss[i + 1]);
  }

  /** The log has a registration of `id` by connection c at position `since` or later. */
  ghost predicate RegisteredSince(log: seq<RegEvent>, since: nat, id: Id, c: nat) {
    exists n :: since <= n < |log| && log[n] == Registered(id, c)
  }

  /** The handler of connection c has registered `id` since, is about to, or is over. */
  ghost predicate WillRegister(s: State, since: nat, c: nat, id: Id) {
    && c < |s.conns| && since <= |s.log|
    && var g := s.conns[c].stage;
       || (g.Sending? && g.register == Some(id))
       || g == Registering(id)
       || !Live(g)
       || RegisteredSince(s.log, since, id, c)
  }

  lemma SinceStays(s: State, t: State, since: nat, id: Id, c: nat)
    requires s.log <= t.log && RegisteredSince(s.log, since, id, c)
    ensures RegisteredSince(t.log, since, id, c)
  {
    var n :| since <= n < |s.log| && s.log[n] == Registered(id, c);
    assert t.log[n] == Registered(id, c);
  }

  lemma StillRegisters(s: State, e: Event, since: nat, c: nat, id: Id)
    requires Enabled(s, e) && WillRegister(s, since, c, id)
    ensures WillRegister(Next(s, e), since, c, id)
  {
    var t := Next(s, e);
    NextExtends(s, e);
    if RegisteredSince(s.log, since, id, c) {
      SinceStays(s, t, since, id, c);
    } else if e.Handle? {
      HandleFramed(s, e.c, s.conns[e.c].stage.m);
    } else if e == Register(c) && s.conns[c].stage.id == id {
      assert t.log[|s.log|] == Registered(id, c);
    }
  }

  /** After an Isync whose target was found, the sender is registered anew before its handler does
      anything else but finish the send, whatever happens in between, unless the connection ends
      first. */
  lemma {:induction false} IsyncRegisters(es: seq<Event>, ss: seq<State>, i: nat, j: nat, c: nat)
    requires IsRun(es, ss) && i < j < |ss| && es[i] == Handle(c) && c < |ss[i].conns|
    requires ss[i].conns[c].stage.Handling?
    requires var cmd := ss[i].conns[c].stage.m.req.cmd; cmd.Some? && cmd.value.Isync? && cmd.value.id in ss[i].peers
    ensures WillRegister(ss[j], |ss[i].log|, c, ss[i].conns[c].stage.m.req.id)
    decreases j
  {
    var e := es[j - 1];
    assert Steps(ss[j - 1], e, ss[j]);
    if i < j - 1 {
      IsyncRegisters(es, ss, i, j - 1, c);
      StillRegisters(ss[j - 1], e, |ss[i].log|, c, ss[i].conns[c].stage.m.req.id);
    }
  }
}
