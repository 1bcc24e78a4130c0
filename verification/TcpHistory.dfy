/**
 * The states of the TCP server told by the events that led to them: which connections there are, what
 * has been accepted, registered and written, that every queue is first in, first out, and which step
 * ends a handler.
 */
module TcpHistory {
  import opened Base
  import opened Messages
  import opened Sequences
  import opened TcpProtocol
  import opened TcpTrace
  import opened TcpProvenance
  import opened TcpRegistry

  // ---- what each step adds ----

  function NewAddress(e: Event): seq<SocketAddr> {
    match e case Accept(addr) => [addr] case _ => []
  }

  function NewRequest(e: Event): seq<Accepted> {
    match e case Enqueue(c, req) => [Accepted(c, req)] case _ => []
  }

  /** A Ping registers its sender when it is handled, an Isync after the send; a connection is torn down
      under the id it has. */
  function NewEntry(s: State, e: Event): seq<RegEvent> {
    match e
    case Handle(c) =>
      if c < |s.conns| && s.conns[c].stage.Handling? && s.conns[c].stage.m.req.cmd == Some(Ping)
      then [Registered(s.conns[c].stage.m.req.id, c)] else []
    case Register(c) => if c < |s.conns| && s.conns[c].stage.Registering? then [Registered(s.conns[c].stage.id, c)] else []
    case Unregister(c) => if c < |s.conns| then [TornDown(s.conns[c].peerId, c)] else []
    case _ => []
  }

  /** The handling of an Isync whose target is registered. */
  function NewFound(s: State, e: Event): seq<Id> {
    match e
    case Handle(c) =>
      if c < |s.conns| && s.conns[c].stage.Handling? then
        match s.conns[c].stage.m.req.cmd
        case Some(Isync(target)) => if target in s.peers then [target] else []
        case _ => []
      else []
    case _ => []
  }

  function NewReply(s: State, e: Event, c: nat): seq<Reply> {
    if e == Write(c) && c < |s.conns| && s.conns[c].stage.Writing? then [s.conns[c].stage.reply] else []
  }

  /** What is put on connection c's queue: by its reader, or by a handler's send. */
  function Put(s: State, e: Event, c: nat): seq<Msg> {
    match e
    case Enqueue(d, req) => if d == c then [Msg(|s.accepted|, req)] else []
    case Send(d) =>
      if d < |s.conns| && s.conns[d].stage.Sending? && s.conns[d].stage.peer.tx == c then [s.conns[d].stage.m] else []
    case _ => []
  }

  /** What its handler takes: the message it has in hand after the step. */
  function Taken(t: State, e: Event, c: nat): seq<Msg> {
    if e == Recv(c) && c < |t.conns| && t.conns[c].stage.Handling? then [t.conns[c].stage.m] else []
  }

  // ---- one step ----

  lemma HandleParts(s: State, c: nat, m: Msg)
    requires c < |s.conns| && s.conns[c].stage == Handling(m)
    ensures var t := HandleRequest(s, c, m);
            t.log == s.log + NewEntry(s, Handle(c)) && t.found == s.found + |NewFound(s, Handle(c))|
  {
    match m.req.cmd
    case Some(Ping) =>
    case Some(Isync(target)) => assert s.log + [] == s.log;
    case Some(Rsync(target)) =>
      RsyncParts(s, c, m.ticket, m.req.id, target);
      assert s.log + [] == s.log;
    case _ => assert s.log + [] == s.log;
  }

  lemma RsyncParts(s: State, c: nat, ticket: nat, src: Id, dst: Id)
    requires c < |s.conns|
    ensures var t := HandleRsync(s, c, ticket, src, dst); t.log == s.log && t.found == s.found
  {
  }

  lemma StepParts(s: State, e: Event)
    requires Enabled(s, e)
    ensures Next(s, e).log == s.log + NewEntry(s, e)
    ensures Next(s, e).found == s.found + |NewFound(s, e)|
  {
    if e.Handle? {
      HandleParts(s, e.c, s.conns[e.c].stage.m);
    } else {
      assert s.log + [] == s.log;
    }
  }

  /** The connections' addresses. */
  function Addresses(conns: seq<Conn>): (addrs: seq<SocketAddr>)
    ensures |addrs| == |conns| && forall c :: 0 <= c < |conns| ==> addrs[c] == conns[c].addr
  {
    seq(|conns|, c requires 0 <= c < |conns| => conns[c].addr)
  }

  lemma StepAddresses(s: State, e: Event)
    requires Enabled(s, e)
    ensures Addresses(Next(s, e).conns) == Addresses(s.conns) + NewAddress(e)
  {
    NextExtends(s, e);
    if e.Handle? {
      HandleFramed(s, e.c, s.conns[e.c].stage.m);
    }
  }

  lemma StepReplies(s: State, e: Event, c: nat)
    requires Enabled(s, e) && c < |s.conns|
    ensures c < |Next(s, e).conns| && Next(s, e).conns[c].out == s.conns[c].out + NewReply(s, e, c)
  {
    if e.Handle? {
      HandleFramed(s, e.c, s.conns[e.c].stage.m);
    }
    assert s.conns[c].out + [] == s.conns[c].out;
  }

  lemma SendQueue(s: State, d: nat, c: nat)
    requires Enabled(s, Send(d)) && c < |s.conns| && !s.conns[c].stage.Closed?
    ensures c < |Next(s, Send(d)).conns| && Next(s, Send(d)).conns[c].queue == s.conns[c].queue + Put(s, Send(d), c)
  {
    assert s.conns[c].queue + [] == s.conns[c].queue;
  }

  lemma OtherQueue(s: State, e: Event, c: nat)
    requires Enabled(s, e) && c < |s.conns| && !e.Send? && e != Recv(c) && e != Drop(c)
    ensures c < |Next(s, e).conns| && Next(s, e).conns[c].queue == s.conns[c].queue + Put(s, e, c)
  {
    assert s.conns[c].queue + [] == s.conns[c].queue;
    if e.Handle? {
      HandleFramed(s, e.c, s.conns[e.c].stage.m);
    }
  }

  lemma RecvQueue(s: State, c: nat)
    requires Enabled(s, Recv(c))
    ensures c < |Next(s, Recv(c)).conns|
    ensures s.conns[c].queue == Taken(Next(s, Recv(c)), Recv(c), c) + Next(s, Recv(c)).conns[c].queue
  {
    var q := s.conns[c].queue;
    assert q == [q[0]] + q[1..];
  }

  lemma StepQueue(s: State, e: Event, t: State, c: nat)
    requires Steps(s, e, t) && c < |s.conns| && !s.conns[c].stage.Closed? && e != Drop(c)
    ensures c < |t.conns| && s.conns[c].queue + Put(s, e, c) == Taken(t, e, c) + t.conns[c].queue
  {
    if e == Recv(c) {
      RecvQueue(s, c);
      assert s.conns[c].queue + [] == s.conns[c].queue;
    } else {
      if e.Send? { SendQueue(s, e.c, c); } else { OtherQueue(s, e, c); }
      assert [] + t.conns[c].queue == t.conns[c].queue;
    }
  }

  lemma StepClosed(s: State, e: Event, c: nat)
    requires Enabled(s, e) && c < |s.conns| && (s.conns[c].stage.Closed? || e == Drop(c))
    requires s.conns[c].queue == [] || e == Drop(c)
    ensures var t := Next(s, e); c < |t.conns| && t.conns[c].stage.Closed? && t.conns[c].queue == []
  {
    if e.Handle? {
      HandleFramed(s, e.c, s.conns[e.c].stage.m);
    }
  }

  /** The steps that end a handler: a cancellation, a Bye, a request without a command. */
  predicate Ends(s: State, e: Event, c: nat) {
    || e == Stop(c)
    || (e == Handle(c) && c < |s.conns| && s.conns[c].stage.Handling?
        && (s.conns[c].stage.m.req.cmd == None || s.conns[c].stage.m.req.cmd == Some(Bye)))
  }

  lemma HandleEnds(s: State, c: nat, m: Msg)
    requires c < |s.conns|
    ensures c < |HandleRequest(s, c, m).conns|
    ensures Live(HandleRequest(s, c, m).conns[c].stage) <==> m.req.cmd != None && m.req.cmd != Some(Bye)
  {
    match m.req.cmd
    case Some(Rsync(dst)) => RsyncGoesOn(s, c, m.ticket, m.req.id, dst);
    case _ =>
  }

  lemma RsyncGoesOn(s: State, c: nat, ticket: nat, src: Id, dst: Id)
    requires c < |s.conns|
    ensures var t := HandleRsync(s, c, ticket, src, dst); c < |t.conns| && Live(t.conns[c].stage)
  {
  }

  /** What a step can do to the phase of connection c. */
  predicate Phases(g: Stage, g': Stage, ends: bool, unregisters: bool, drops: bool) {
    && (Live(g') <==> Live(g) && !ends)
    && (Gone(g') <==> Gone(g) || unregisters)
    && (g'.Closed? <==> g.Closed? || drops)
  }

  lemma HandlePhase(s: State, d: nat, c: nat)
    requires Enabled(s, Handle(d)) && c < |s.conns|
    ensures c < |Next(s, Handle(d)).conns|
    ensures Phases(s.conns[c].stage, Next(s, Handle(d)).conns[c].stage, Ends(s, Handle(d), c), false, false)
  {
    HandleFramed(s, d, s.conns[d].stage.m);
    HandleEnds(s, d, s.conns[d].stage.m);
  }

  lemma SendPhase(s: State, d: nat, c: nat)
    requires Enabled(s, Send(d)) && c < |s.conns|
    ensures c < |Next(s, Send(d)).conns|
    ensures Phases(s.conns[c].stage, Next(s, Send(d)).conns[c].stage, false, false, false)
  {
  }

  lemma OtherPhase(s: State, e: Event, c: nat)
    requires Enabled(s, e) && c < |s.conns| && !e.Handle? && !e.Send?
    ensures c < |Next(s, e).conns|
    ensures Phases(s.conns[c].stage, Next(s, e).conns[c].stage, e == Stop(c), e == Unregister(c), e == Drop(c))
  {
  }

  lemma StepPhase(s: State, e: Event, c: nat)
    requires Enabled(s, e) && c < |s.conns|
    ensures c < |Next(s, e).conns|
    ensures Phases(s.conns[c].stage, Next(s, e).conns[c].stage, Ends(s, e, c), e == Unregister(c), e == Drop(c))
  {
    if e.Handle? {
      HandlePhase(s, e.c, c);
    } else if e.Send? {
      SendPhase(s, e.c, c);
    } else {
      OtherPhase(s, e, c);
    }
  }

  // ---- whole runs ----

  function AddressParts(es: seq<Event>): nat -> seq<SocketAddr> {
    (k: nat) => if k < |es| then NewAddress(es[k]) else []
  }

  function RequestParts(es: seq<Event>): nat -> seq<Accepted> {
    (k: nat) => if k < |es| then NewRequest(es[k]) else []
  }

  function EntryParts(es: seq<Event>, ss: seq<State>): nat -> seq<RegEvent> {
    (k: nat) => if k < |es| && k < |ss| then NewEntry(ss[k], es[k]) else []
  }

  function FoundParts(es: seq<Event>, ss: seq<State>): nat -> seq<Id> {
    (k: nat) => if k < |es| && k < |ss| then NewFound(ss[k], es[k]) else []
  }

  function ReplyParts(es: seq<Event>, ss: seq<State>, c: nat): nat -> seq<Reply> {
    (k: nat) => if k < |es| && k < |ss| then NewReply(ss[k], es[k], c) else []
  }

  function PutParts(es: seq<Event>, ss: seq<State>, c: nat): nat -> seq<Msg> {
    (k: nat) => if k < |es| && k < |ss| then Put(ss[k], es[k], c) else []
  }

  function TakenParts(es: seq<Event>, ss: seq<State>, c: nat): nat -> seq<Msg> {
    (k: nat) => if k < |es| && k + 1 < |ss| then Taken(ss[k + 1], es[k], c) else []
  }

  // The same parts of the successive states.

  function AddressesOf(ss: seq<State>): nat -> seq<SocketAddr> {
    (k: nat) => if k < |ss| then Addresses(ss[k].conns) else []
  }

  function AcceptedOf(ss: seq<State>): nat -> seq<Accepted> {
    (k: nat) => if k < |ss| then ss[k].accepted else []
  }

  function LogOf(ss: seq<State>): nat -> seq<RegEvent> {
    (k: nat) => if k < |ss| then ss[k].log else []
  }

  function WrittenOf(ss: seq<State>, c: nat): nat -> seq<Reply> {
    (k: nat) => if k < |ss| && c < |ss[k].conns| then ss[k].conns[c].out else []
  }

  lemma RunGrows(es: seq<Event>, ss: seq<State>, k: nat)
    requires IsRun(es, ss) && k < |es|
    ensures Grows(AddressesOf(ss), AddressParts(es), k) && Grows(AcceptedOf(ss), RequestParts(es), k)
  {
    var e := es[k];
    assert Steps(ss[k], e, ss[k + 1]);
    StepAddresses(ss[k], e);
    NextAccepted(ss[k], e);
    assert ss[k].accepted + [] == ss[k].accepted;
  }

  /** The connections are those accepted, in order, at the addresses they came from, */
  lemma ConnectionsAre(es: seq<Event>, ss: seq<State>, i: nat)
    requires IsRun(es, ss) && i < |ss|
    ensures Addresses(ss[i].conns) == Gather(AddressParts(es), i)
  {
    forall k: nat | k < i ensures Grows(AddressesOf(ss), AddressParts(es), k) { RunGrows(es, ss, k); }
    GrowsToGather(AddressesOf(ss), AddressParts(es), i);
  }

  /** and what has been accepted is what the readers enqueued, in order. */
  lemma AcceptedIs(es: seq<Event>, ss: seq<State>, i: nat)
    requires IsRun(es, ss) && i < |ss|
    ensures ss[i].accepted == Gather(RequestParts(es), i)
  {
    forall k: nat | k < i ensures Grows(AcceptedOf(ss), RequestParts(es), k) { RunGrows(es, ss, k); }
    GrowsToGather(AcceptedOf(ss), RequestParts(es), i);
  }

  lemma LogGrowsBy(es: seq<Event>, ss: seq<State>, k: nat)
    requires IsRun(es, ss) && k < |es|
    ensures Grows(LogOf(ss), EntryParts(es, ss), k)
    ensures ss[k + 1].found == ss[k].found + |NewFound(ss[k], es[k])|
  {
    var e := es[k];
    assert Steps(ss[k], e, ss[k + 1]);
    StepParts(ss[k], e);
  }

  /** The log is one registration for each Ping handled and each Isync's registration, and one teardown for
      each conditional remove, in order; */
  lemma LogIs(es: seq<Event>, ss: seq<State>, i: nat)
    requires IsRun(es, ss) && i < |ss|
    ensures ss[i].log == Gather(EntryParts(es, ss), i)
  {
    forall k: nat | k < i ensures Grows(LogOf(ss), EntryParts(es, ss), k) { LogGrowsBy(es, ss, k); }
    GrowsToGather(LogOf(ss), EntryParts(es, ss), i);
  }

  function FoundMatches(es: seq<Event>, ss: seq<State>): nat -> bool {
    (k: nat) => k < |ss| && ss[k].found == |Gather(FoundParts(es, ss), k)|
  }

  lemma FoundCarries(es: seq<Event>, ss: seq<State>, k: nat)
    requires IsRun(es, ss) && k < |es|
    ensures Carries(FoundMatches(es, ss), k)
  {
    LogGrowsBy(es, ss, k);
    assert FoundParts(es, ss)(k) == NewFound(ss[k], es[k]);
  }

  /** and `found` counts the lookups that found a target. */
  lemma FoundIs(es: seq<Event>, ss: seq<State>, i: nat)
    requires IsRun(es, ss) && i < |ss|
    ensures ss[i].found == |Gather(FoundParts(es, ss), i)|
  {
    var p := FoundMatches(es, ss);
    forall k: nat | k < i ensures Carries(p, k) { FoundCarries(es, ss, k); }
    assert ss[0] == INIT;
    Throughout(p, 0, i);
  }

  lemma NewConn(s: State, e: Event, c: nat)
    requires Enabled(s, e) && |s.conns| <= c < |Next(s, e).conns|
    ensures e.Accept? && Next(s, e).conns[c] == Conn(e.addr, [], [], Idle, [])
  {
    if e.Handle? {
      HandleFramed(s, e.c, s.conns[e.c].stage.m);
    }
  }

  lemma WrittenGrows(es: seq<Event>, ss: seq<State>, c: nat, k: nat)
    requires IsRun(es, ss) && k < |es|
    ensures Grows(WrittenOf(ss, c), ReplyParts(es, ss, c), k)
  {
    var e := es[k];
    assert Steps(ss[k], e, ss[k + 1]);
    if c < |ss[k].conns| {
      StepReplies(ss[k], e, c);
    } else if c < |ss[k + 1].conns| {
      NewConn(ss[k], e, c);
    }
  }

  /** What has been written to a connection is the replies whose writes were completed, in order. */
  lemma WrittenIs(es: seq<Event>, ss: seq<State>, i: nat, c: nat)
    requires IsRun(es, ss) && i < |ss| && c < |ss[i].conns|
    ensures ss[i].conns[c].out == Gather(ReplyParts(es, ss, c), i)
  {
    forall k: nat | k < i ensures Grows(WrittenOf(ss, c), ReplyParts(es, ss, c), k) { WrittenGrows(es, ss, c, k); }
    GrowsToGather(WrittenOf(ss, c), ReplyParts(es, ss, c), i);
  }

  /** Nothing has happened to connection c before it is accepted. */
  ghost predicate Untouched(es: seq<Event>, ss: seq<State>, c: nat, k: nat)
    requires k <= |es| && k < |ss|
  {
    Unregister(c) !in es[..k] && Drop(c) !in es[..k] && forall j :: 0 <= j < k ==> !Ends(ss[j], es[j], c)
  }

  ghost predicate PhaseAt(es: seq<Event>, ss: seq<State>, c: nat, k: nat)
    requires k <= |es| && k < |ss|
  {
    if c < |ss[k].conns| then
      var g := ss[k].conns[c].stage;
      && (Live(g) <==> forall j :: 0 <= j < k ==> !Ends(ss[j], es[j], c))
      && (Gone(g) <==> Unregister(c) in es[..k])
      && (g.Closed? <==> Drop(c) in es[..k])
    else Untouched(es, ss, c, k)
  }

  lemma PhaseOfNew(s: State, e: Event, t: State, c: nat)
    requires Steps(s, e, t) && |s.conns| <= c
    ensures !Ends(s, e, c) && e != Unregister(c) && e != Drop(c)
    ensures c < |t.conns| ==> t.conns[c] == Conn(t.conns[c].addr, [], [], Idle, [])
  {
    if c < |t.conns| {
      NewConn(s, e, c);
    }
  }

  lemma PhaseStep(es: seq<Event>, ss: seq<State>, c: nat, k: nat)
    requires IsRun(es, ss) && k < |es| && PhaseAt(es, ss, c, k)
    ensures PhaseAt(es, ss, c, k + 1)
  {
    var e := es[k];
    assert es[..k + 1] == es[..k] + [e];
    StepOrNew(es, ss, c, k);
  }

  /** What the step does to the phase of connection c. */
  lemma StepOrNew(es: seq<Event>, ss: seq<State>, c: nat, k: nat)
    requires IsRun(es, ss) && k < |es|
    ensures c < |ss[k].conns| ==>
              && c < |ss[k + 1].conns|
              && Phases(ss[k].conns[c].stage, ss[k + 1].conns[c].stage,
                        Ends(ss[k], es[k], c), es[k] == Unregister(c), es[k] == Drop(c))
    ensures c >= |ss[k].conns| ==>
              && !Ends(ss[k], es[k], c) && es[k] != Unregister(c) && es[k] != Drop(c)
              && (c < |ss[k + 1].conns| ==> ss[k + 1].conns[c].stage == Idle && ss[k + 1].conns[c].queue == [])
  {
    var e := es[k];
    assert Steps(ss[k], e, ss[k + 1]);
    if c < |ss[k].conns| {
      StepPhase(ss[k], e, c);
    } else {
      PhaseOfNew(ss[k], e, ss[k + 1], c);
    }
  }

  lemma {:induction false} PhaseInduction(es: seq<Event>, ss: seq<State>, c: nat, i: nat)
    requires IsRun(es, ss) && i < |ss|
    ensures PhaseAt(es, ss, c, i)
  {
    if i > 0 {
      PhaseInduction(es, ss, c, i - 1);
      PhaseStep(es, ss, c, i - 1);
    }
  }

  /** A handler is live, past its conditional remove, or closed exactly according to the events: an end, an
      Unregister, a Drop. */
  lemma PhaseIs(es: seq<Event>, ss: seq<State>, i: nat, c: nat)
    requires IsRun(es, ss) && i < |ss| && c < |ss[i].conns|
    ensures Live(ss[i].conns[c].stage) <==> forall k :: 0 <= k < i ==> !Ends(ss[k], es[k], c)
    ensures Gone(ss[i].conns[c].stage) <==> Unregister(c) in es[..i]
    ensures ss[i].conns[c].stage.Closed? <==> Drop(c) in es[..i]
  {
    PhaseInduction(es, ss, c, i);
  }

  lemma Shift(taken: seq<Msg>, q: seq<Msg>, more: seq<Msg>, first: seq<Msg>, q': seq<Msg>)
    requires q + more == first + q'
    ensures (taken + q) + more == (taken + first) + q'
  {
    Associates(taken, q, more);
    Associates(taken, first, q');
  }

  /** What has been put and taken, and what the connection holds. */
  predicate Queued(puts: seq<Msg>, taken: seq<Msg>, conns: seq<Conn>, c: nat) {
    if c >= |conns| then puts == [] && taken == []
    else if conns[c].stage.Closed? then conns[c].queue == []
    else puts == taken + conns[c].queue
  }

  /** How a step can move them on. */
  predicate Moves(conns: seq<Conn>, put: seq<Msg>, take: seq<Msg>, conns': seq<Conn>, c: nat) {
    if c >= |conns| then put == [] && take == [] && (c < |conns'| ==> conns'[c].queue == [] && !conns'[c].stage.Closed?)
    else
      && c < |conns'|
      && (if conns'[c].stage.Closed? then conns[c].stage.Closed? && conns[c].queue == [] ==> conns'[c].queue == []
          else !conns[c].stage.Closed? && conns[c].queue + put == take + conns'[c].queue)
      && (conns'[c].stage.Closed? && !conns[c].stage.Closed? ==> conns'[c].queue == [])
  }

  lemma QueuedOn(puts: seq<Msg>, taken: seq<Msg>, conns: seq<Conn>, put: seq<Msg>, take: seq<Msg>, conns': seq<Conn>, c: nat)
    requires Queued(puts, taken, conns, c) && Moves(conns, put, take, conns', c)
    ensures Queued(puts + put, taken + take, conns', c)
  {
    if c < |conns| && !conns'[c].stage.Closed? {
      Shift(taken, conns[c].queue, put, take, conns'[c].queue);
    }
  }

  /** A connection that is not there yet, or is accepted in this step. */
  lemma NewQueue(s: State, e: Event, t: State, c: nat)
    requires Steps(s, e, t) && |s.conns| <= c
    ensures Put(s, e, c) == [] && Taken(t, e, c) == []
    ensures c < |t.conns| ==> t.conns[c].queue == [] && !t.conns[c].stage.Closed?
  {
    if c < |t.conns| {
      NewConn(s, e, c);
    }
  }

  lemma QueueMoves(es: seq<Event>, ss: seq<State>, c: nat, k: nat)
    requires IsRun(es, ss) && k < |es|
    ensures Moves(ss[k].conns, Put(ss[k], es[k], c), Taken(ss[k + 1], es[k], c), ss[k + 1].conns, c)
  {
    var s, e, t := ss[k], es[k], ss[k + 1];
    assert Steps(s, e, t);
    StepOrNew(es, ss, c, k);
    if c >= |s.conns| {
      NewQueue(s, e, t, c);
    } else if e == Drop(c) || (s.conns[c].stage.Closed? && s.conns[c].queue == []) {
      StepClosed(s, e, c);
    } else if !s.conns[c].stage.Closed? {
      StepQueue(s, e, t, c);
    }
  }

  function QueueHolds(es: seq<Event>, ss: seq<State>, c: nat): nat -> bool {
    (k: nat) => k < |ss| && Queued(Gather(PutParts(es, ss, c), k), Gather(TakenParts(es, ss, c), k), ss[k].conns, c)
  }

  lemma QueueCarries(es: seq<Event>, ss: seq<State>, c: nat, k: nat)
    requires k + 1 < |ss|
    requires Moves(ss[k].conns, PutParts(es, ss, c)(k), TakenParts(es, ss, c)(k), ss[k + 1].conns, c)
    ensures Carries(QueueHolds(es, ss, c), k)
  {
    var puts, taken := Gather(PutParts(es, ss, c), k), Gather(TakenParts(es, ss, c), k);
    if Queued(puts, taken, ss[k].conns, c) {
      QueuedOn(puts, taken, ss[k].conns, PutParts(es, ss, c)(k), TakenParts(es, ss, c)(k), ss[k + 1].conns, c);
    }
  }

  lemma QueueCarriesInRun(es: seq<Event>, ss: seq<State>, c: nat, k: nat)
    requires IsRun(es, ss) && k < |es|
    ensures Carries(QueueHolds(es, ss, c), k)
  {
    QueueMoves(es, ss, c, k);
    QueueCarries(es, ss, c, k);
  }

  lemma QueueInduction(es: seq<Event>, ss: seq<State>, c: nat, i: nat)
    requires IsRun(es, ss) && i < |ss|
    ensures Queued(Gather(PutParts(es, ss, c), i), Gather(TakenParts(es, ss, c), i), ss[i].conns, c)
  {
    var p := QueueHolds(es, ss, c);
    forall k: nat | k < i ensures Carries(p, k) { QueueCarriesInRun(es, ss, c, k); }
    assert ss[0] == INIT;
    Throughout(p, 0, i);
  }

  /** Every queue is first in, first out: what has been put on it is what has been taken from it and then
      what it holds; until the receiver is dropped, from when on it is empty for good. */
  lemma QueueIs(es: seq<Event>, ss: seq<State>, i: nat, c: nat)
    requires IsRun(es, ss) && i < |ss| && c < |ss[i].conns|
    ensures Drop(c) in es[..i] ==> ss[i].conns[c].queue == []
    ensures Drop(c) !in es[..i] ==>
              Gather(PutParts(es, ss, c), i) == Gather(TakenParts(es, ss, c), i) + ss[i].conns[c].queue
  {
    QueueInduction(es, ss, c, i);
    PhaseIs(es, ss, i, c);
  }

  /** A send to a connection whose receiver has been dropped is over at once: the request is discarded,
      no queue changes, and the handler goes on. */
  lemma SendToDropped(es: seq<Event>, ss: seq<State>, i: nat, c: nat)
    requires IsRun(es, ss) && i < |ss| && c < |ss[i].conns| && ss[i].conns[c].stage.Sending?
    requires Drop(ss[i].conns[c].stage.peer.tx) in es[..i]
    ensures var s := ss[i];
            && Enabled(s, Send(c))
            && var t := Next(s, Send(c));
               && t.spent == s.spent + [s.conns[c].stage.m.ticket]
               && |t.conns| == |s.conns| && (forall d :: 0 <= d < |s.conns| ==> t.conns[d].queue == s.conns[d].queue)
               && Live(t.conns[c].stage)
  {
    var s := ss[i];
    RunTraced(es, ss, i);
    assert ConnTraced(s, c, s.conns[c]);
    PhaseIs(es, ss, i, s.conns[c].stage.peer.tx);
  }

  /** A send to any other is over as soon as there is room, and puts the request last on the queue. */
  lemma SendToOpen(es: seq<Event>, ss: seq<State>, i: nat, c: nat)
    requires IsRun(es, ss) && i < |ss| && c < |ss[i].conns| && ss[i].conns[c].stage.Sending?
    requires Drop(ss[i].conns[c].stage.peer.tx) !in es[..i]
    ensures var s := ss[i];
            var tx := s.conns[c].stage.peer.tx;
            && tx < |s.conns| && (Enabled(s, Send(c)) <==> |s.conns[tx].queue| < 10)
            && (Enabled(s, Send(c)) ==>
                  tx < |Next(s, Send(c)).conns|
                  && Next(s, Send(c)).conns[tx].queue == s.conns[tx].queue + [s.conns[c].stage.m])
  {
    var s := ss[i];
    RunTraced(es, ss, i);
    assert ConnTraced(s, c, s.conns[c]);
    PhaseIs(es, ss, i, s.conns[c].stage.peer.tx);
  }

  /** After a write, a registration, or the send of an Rsync, the handler is ready for the next request;
      after the send of an Fsync it registers the sender of the Isync first. No step of another handler
      moves it. */
  lemma ReadyAgain(s: State, e: Event, c: nat)
    requires Enabled(s, e) && c < |s.conns| && !e.Accept? && !e.Enqueue?
    ensures c < |Next(s, e).conns|
    ensures var g := Next(s, e).conns[c].stage;
            && (e == Write(c) || e == Register(c) ==> g == Idle)
            && (e == Send(c) ==>
                  g == match s.conns[c].stage.register case None => Idle case Some(id) => Registering(id))
            && (e.c != c ==> g == s.conns[c].stage && Next(s, e).conns[c].peerId == s.conns[c].peerId)
  {
    if e.Handle? {
      HandleFramed(s, e.c, s.conns[e.c].stage.m);
    }
  }

  /** A Ping is answered with a Pong once its sender is registered, replacing whoever was before; an Fsync
      is passed on to the client as it is; a Bye and a request without a command end the handler. Isync and
      Rsync are in TcpRegistry. */
  lemma HandleRouted(es: seq<Event>, ss: seq<State>, i: nat, c: nat, m: Msg)
    requires IsRun(es, ss) && i < |es| && es[i] == Handle(c) && c < |ss[i].conns| && ss[i].conns[c].stage == Handling(m)
    ensures c < |ss[i + 1].conns|
    ensures var g := ss[i + 1].conns[c].stage;
            match m.req.cmd
            case Some(Ping) =>
              && g == Writing(Reply(m.ticket, Response([], Some(Pong))))
              && ss[i + 1].conns[c].peerId == m.req.id
              && Entry(ss[i + 1], m.req.id) == Some(PeerState(c + 1, c, ss[i].conns[c].addr))
            case Some(Fsync(id, addr)) => g == Writing(Reply(m.ticket, Response([], Some(FsyncResp(id, addr)))))
            case Some(Bye) => !Live(g)
            case None => !Live(g)
            case _ => Live(g)
  {
    var e := es[i];
    assert Steps(ss[i], e, ss[i + 1]);
    HandleEnds(ss[i], c, m);
    if m.req.cmd == Some(Ping) {
      RunMatchesLog(es, ss, i);
      LastAfter(ss[i].log, Registered(m.req.id, c), m.req.id);
    }
  }

  lemma CanHappenIn(s: State, c: nat, req: Request)
    requires c < |s.conns|
    ensures var g, q := s.conns[c].stage, s.conns[c].queue;
            && (Enabled(s, Enqueue(c, req)) <==> Live(g) && |q| < 10)
            && (Enabled(s, Recv(c)) <==> g == Idle && q != [])
            && (Enabled(s, Handle(c)) <==> g.Handling?)
            && (Enabled(s, Register(c)) <==> g.Registering?)
            && (Enabled(s, Write(c)) <==> g.Writing?)
            && (Enabled(s, Stop(c)) <==> Live(g))
            && (Enabled(s, Unregister(c)) <==> !Live(g) && !Gone(g))
            && (Enabled(s, Drop(c)) <==> Gone(g) && !g.Closed?)
  {
  }

  /** No step so far has ended the handler of connection c. */
  ghost predicate NotEnded(es: seq<Event>, ss: seq<State>, i: nat, c: nat)
    requires i <= |es| && i < |ss|
  {
    forall k :: 0 <= k < i ==> !Ends(ss[k], es[k], c)
  }

  /** What can happen, told by the events: a reader can enqueue while its handler has not ended and its
      queue holds fewer than ten; a handler can take a request when it is idle and there is one; what it has
      begun it can go on with, sends apart; it can be cancelled until it has ended, and then unregistered
      and dropped, once each. */
  lemma CanHappen(es: seq<Event>, ss: seq<State>, i: nat, c: nat, req: Request)
    requires IsRun(es, ss) && i < |ss| && c < |ss[i].conns|
    ensures var s := ss[i];
            var g, q := s.conns[c].stage, s.conns[c].queue;
            && (Enabled(s, Enqueue(c, req)) <==> NotEnded(es, ss, i, c) && |q| < 10)
            && (Enabled(s, Recv(c)) <==> g == Idle && q != [])
            && (Enabled(s, Handle(c)) <==> g.Handling?)
            && (Enabled(s, Register(c)) <==> g.Registering?)
            && (Enabled(s, Write(c)) <==> g.Writing?)
            && (Enabled(s, Stop(c)) <==> NotEnded(es, ss, i, c))
            && (Enabled(s, Unregister(c)) <==> !NotEnded(es, ss, i, c) && Unregister(c) !in es[..i])
            && (Enabled(s, Drop(c)) <==> Unregister(c) in es[..i] && Drop(c) !in es[..i])
  {
    assert Live(ss[i].conns[c].stage) <==> NotEnded(es, ss, i, c) by { PhaseIs(es, ss, i, c); }
    assert (Gone(ss[i].conns[c].stage) <==> Unregister(c) in es[..i])
           && (ss[i].conns[c].stage.Closed? <==> Drop(c) in es[..i]) by { PhaseIs(es, ss, i, c); }
    CanHappenIn(ss[i], c, req);
  }
}
