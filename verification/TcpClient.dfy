/**
 * src/tcp/client.rs: the listener's loops and the initiator's connect, and what the server's
 * guarantees come to for them.
 */
module TcpClient {
  import opened Base
  import opened Messages
  import opened Codec
  import opened CodedStreams
  import opened Framing
  import opened TcpProtocol
  import opened TcpTrace
  import opened TcpProvenance
  import opened TcpWire
  import TcpRegistry
  import opened Sequences

  /** The parser does not accept the empty string, and reads back the addresses the server has
      observed as it printed them. */
  ghost predicate ReadsBack(parse: AddrParser, s: State) {
    parse([]) == None && forall d :: 0 <= d < |s.conns| ==> parse(s.conns[d].addr) == Some(s.conns[d].addr)
  }

  /** What read_loop sends in answer to responses: one Rsync for each Fsync, up to the first Fsync
      whose address does not parse. */
  function RsyncsFor(parse: AddrParser, resps: seq<Response>): seq<ReqCmd> {
    if resps == [] then []
    else if resps[0].cmd.Some? && resps[0].cmd.value.FsyncResp? then
      if parse(resps[0].cmd.value.addr).None? then []
      else [Rsync(resps[0].cmd.value.id)] + RsyncsFor(parse, resps[1..])
    else RsyncsFor(parse, resps[1..])
  }

  /** Told from the end: an Fsync is answered with an Rsync for its id, whatever the id is, as long as no
      Fsync up to it, itself included, has an address that does not parse; nothing else is answered. */
  lemma {:induction false} RsyncsExact(parse: AddrParser, resps: seq<Response>, last: Response)
    ensures RsyncsFor(parse, []) == []
    ensures RsyncsFor(parse, resps + [last]) == RsyncsFor(parse, resps) +
            match last.cmd
            case Some(FsyncResp(id, addr)) => if AllParse(parse, resps + [last]) then [Rsync(id)] else []
            case _ => []
  {
    var all := resps + [last];
    ParsesOneMore(parse, all);
    if resps == [] {
      assert all[1..] == [];
    } else {
      assert all[1..] == resps[1..] + [last] && all[0] == resps[0];
      RsyncsExact(parse, resps[1..], last);
    }
  }

  /** No Fsync among the responses has an address that does not parse. */
  predicate AllParse(parse: AddrParser, resps: seq<Response>) {
    forall i :: 0 <= i < |resps| && resps[i].cmd.Some? && resps[i].cmd.value.FsyncResp? ==>
      parse(resps[i].cmd.value.addr).Some?
  }

  /** How read_loop comes to its end: with the stream, with an error, or by the panic of a send whose
      receiver, the write loop, is gone. */
  datatype LoopEnd = StreamOver | BadAddress | Panicked

  /** read_loop, over a stream that arrives in chunks; `works` is the number of sends that succeed. */
  method ReadLoop(parse: AddrParser, r: ByteStream, works: nat) returns (tx: seq<ReqCmd>, end: LoopEnd)
    modifies r
    ensures var resps := Receive(ParseResponse, MAX_BODY, Concat(old(r.chunks)));
            var rsyncs := RsyncsFor(parse, resps);
            if works < |rsyncs| then tx == rsyncs[..works] && end == Panicked
            else tx == rsyncs && end == if AllParse(parse, resps) then StreamOver else BadAddress
  {
    tx := [];
    ghost var all := Receive(ParseResponse, MAX_BODY, Concat(r.chunks));
    ghost var left := all;
    while true
      invariant left == Receive(ParseResponse, MAX_BODY, Concat(r.chunks))
      invariant Reading(parse, all, left, works, tx)
      decreases |left|
    {
      var resp := r.ReadResp();
      if resp == None {
        NothingLeft(parse, all, works, tx);
        return tx, StreamOver;
      }
      OneResponse(parse, all, left, works, tx);
      left := left[1..];
      match resp.value.cmd {
        case Some(FsyncResp(id, addr)) =>
          if parse(addr) == None {
            return tx, BadAddress;
          }
          if |tx| == works {
            return tx, Panicked;
          }
          tx := tx + [Rsync(id)];
        case _ =>
      }
    }
  }

  /** What read_loop has sent at its end, given all the responses. */
  predicate Ends(parse: AddrParser, all: seq<Response>, works: nat, tx: seq<ReqCmd>, end: LoopEnd) {
    var rsyncs := RsyncsFor(parse, all);
    if works < |rsyncs| then tx == rsyncs[..works] && end == Panicked
    else tx == rsyncs && end == if AllParse(parse, all) then StreamOver else BadAddress
  }

  /** The state of read_loop with `left` still to be read. */
  ghost predicate Reading(parse: AddrParser, all: seq<Response>, left: seq<Response>, works: nat, tx: seq<ReqCmd>) {
    && |tx| <= works && tx + RsyncsFor(parse, left) == RsyncsFor(parse, all)
    && (AllParse(parse, left) <==> AllParse(parse, all))
  }

  lemma NothingLeft(parse: AddrParser, all: seq<Response>, works: nat, tx: seq<ReqCmd>)
    requires Reading(parse, all, [], works, tx)
    ensures Ends(parse, all, works, tx, StreamOver)
  {
    assert tx + [] == tx;
  }

  /** What reading one more response comes to. */
  lemma OneResponse(parse: AddrParser, all: seq<Response>, left: seq<Response>, works: nat, tx: seq<ReqCmd>)
    requires left != [] && Reading(parse, all, left, works, tx)
    ensures var cmd := left[0].cmd;
            if cmd.Some? && cmd.value.FsyncResp? then
              if parse(cmd.value.addr) == None then Ends(parse, all, works, tx, BadAddress)
              else if |tx| == works then Ends(parse, all, works, tx, Panicked)
              else Reading(parse, all, left[1..], works, tx + [Rsync(cmd.value.id)])
            else Reading(parse, all, left[1..], works, tx)
  {
    ParsesOneMore(parse, left);
    var cmd := left[0].cmd;
    if cmd.Some? && cmd.value.FsyncResp? {
      if parse(cmd.value.addr) == None {
        assert tx + [] == tx;
      } else {
        Associates(tx, [Rsync(cmd.value.id)], RsyncsFor(parse, left[1..]));
      }
    }
  }

  lemma ParsesOneMore(parse: AddrParser, resps: seq<Response>)
    requires resps != []
    ensures var cmd := resps[0].cmd;
            AllParse(parse, resps) <==>
            (cmd.Some? && cmd.value.FsyncResp? ==> parse(cmd.value.addr).Some?) && AllParse(parse, resps[1..])
  {
    assert forall i :: 1 <= i < |resps| ==> resps[i] == resps[1..][i - 1];
  }

  /** What a command, or a receive that timed out, becomes. */
  function Command(x: Option<ReqCmd>): ReqCmd {
    if x.Some? then x.value else Ping
  }

  /** What write_loop sends: the client's id on every command, a Ping on every timeout. */
  function Outgoing(id: Id, rx: seq<Option<ReqCmd>>): seq<Request> {
    if rx == [] then []
    else [Request(id, Some(Command(rx[0])))] + Outgoing(id, rx[1..])
  }

  /** Each command goes out under the client's id, in order, and each timeout as a Ping. */
  lemma {:induction false} OutgoingExact(id: Id, rx: seq<Option<ReqCmd>>, i: nat)
    requires i < |rx|
    ensures |Outgoing(id, rx)| == |rx|
    ensures rx[i] == None ==> Outgoing(id, rx)[i] == Request(id, Some(Ping))
    ensures rx[i].Some? ==> Outgoing(id, rx)[i] == Request(id, rx[i])
  {
    if i > 0 {
      OutgoingExact(id, rx[1..], i - 1);
    } else if |rx| > 1 {
      OutgoingExact(id, rx[1..], 0);
    }
  }

  /** The bytes of a frame that go out before a write fails. */
  function Part(f: Bytes, cut: nat): Bytes {
    if cut < |f| then f[..cut] else f
  }

  /** write_req on a connection that fails after `cut` bytes. */
  method WriteReqFails(id: Id, cmd: ReqCmd, w: CodedOutputStream, cut: nat)
    requires CmdWeight(cmd) < U64
    modifies w
    ensures w.out == old(w.out) + Part(Frame(EncodeRequest(Request(id, Some(cmd)))), cut)
  {
    var os := new CodedOutputStream();
    WriteReq(id, cmd, os);
    assert os.out == Frame(EncodeRequest(Request(id, Some(cmd))));
    w.out := w.out + Part(os.out, cut);
  }

  function FrameFor(id: Id, x: Option<ReqCmd>): Bytes {
    Frame(EncodeRequest(Request(id, Some(Command(x)))))
  }

  /** The bytes write_loop puts on the stream if `works` writes succeed and `cut` bytes go out of the
      one that fails. */
  function WrittenBytes(id: Id, rx: seq<Option<ReqCmd>>, works: nat, cut: nat): Bytes {
    if works >= |rx| then Transmit(EncodeRequest, Outgoing(id, rx))
    else Transmit(EncodeRequest, Outgoing(id, rx[..works])) + Part(FrameFor(id, rx[works]), cut)
  }

  /** They are a prefix of all the bytes there would be, which holds the first `works` frames whole and is
      all of them if no write fails. */
  lemma WrittenIsPrefix(id: Id, rx: seq<Option<ReqCmd>>, works: nat, cut: nat)
    ensures var all := Transmit(EncodeRequest, Outgoing(id, rx));
            && WrittenBytes(id, rx, works, cut) <= all
            && (works >= |rx| ==> WrittenBytes(id, rx, works, cut) == all)
            && (works < |rx| ==>
                  var (whole, f) := (Transmit(EncodeRequest, Outgoing(id, rx[..works])), FrameFor(id, rx[works]));
                  && whole <= WrittenBytes(id, rx, works, cut)
                  && |WrittenBytes(id, rx, works, cut)| == |whole| + if cut < |f| then cut else |f|)
  {
    if works < |rx| {
      OutgoingAt(id, rx, works);
      OutgoingMonotone(id, rx, works + 1);
    }
  }

  lemma {:induction false} OutgoingMonotone(id: Id, rx: seq<Option<ReqCmd>>, i: nat)
    requires i <= |rx|
    ensures Transmit(EncodeRequest, Outgoing(id, rx[..i])) <= Transmit(EncodeRequest, Outgoing(id, rx))
    decreases |rx| - i
  {
    if i == |rx| {
      assert rx[..i] == rx;
    } else {
      OutgoingAt(id, rx, i);
      OutgoingMonotone(id, rx, i + 1);
    }
  }

  /** write_loop until the channel is closed, or until a write fails; None is a receive that timed out. */
  method WriteLoop(id: Id, w: CodedOutputStream, rx: seq<Option<ReqCmd>>, works: nat, cut: nat)
    requires forall i :: 0 <= i < |rx| && rx[i].Some? ==> CmdWeight(rx[i].value) < U64
    modifies w
    ensures w.out == old(w.out) + WrittenBytes(id, rx, works, cut)
  {
    var i := 0;
    WroteNone(id, rx, w.out);
    while i < |rx|
      invariant i <= |rx| && i <= works
      invariant Wrote(id, rx, i, old(w.out), w.out)
    {
      if i == works {
        WriteReqFails(id, Command(rx[i]), w, cut);
        Associates(old(w.out), Transmit(EncodeRequest, Outgoing(id, rx[..i])), Part(FrameFor(id, rx[i]), cut));
        return;
      }
      ghost var before := w.out;
      WriteReq(id, Command(rx[i]), w);
      WroteOne(id, rx, i, old(w.out), before);
      i := i + 1;
    }
    assert rx[..|rx|] == rx;
  }

  /** The first i commands have been written. */
  ghost predicate Wrote(id: Id, rx: seq<Option<ReqCmd>>, i: nat, before: Bytes, out: Bytes)
    requires i <= |rx|
  {
    out == before + Transmit(EncodeRequest, Outgoing(id, rx[..i]))
  }

  lemma WroteNone(id: Id, rx: seq<Option<ReqCmd>>, out: Bytes)
    ensures Wrote(id, rx, 0, out, out)
  {
    assert rx[..0] == [] && out + [] == out;
  }

  lemma WroteOne(id: Id, rx: seq<Option<ReqCmd>>, i: nat, before: Bytes, out: Bytes)
    requires i < |rx| && Wrote(id, rx, i, before, out)
    ensures Wrote(id, rx, i + 1, before, out + FrameFor(id, rx[i]))
  {
    OutgoingAt(id, rx, i);
    Associates(before, Transmit(EncodeRequest, Outgoing(id, rx[..i])), FrameFor(id, rx[i]));
  }

  lemma OutgoingAt(id: Id, rx: seq<Option<ReqCmd>>, i: nat)
    requires i < |rx|
    ensures Transmit(EncodeRequest, Outgoing(id, rx[..i + 1])) ==
            Transmit(EncodeRequest, Outgoing(id, rx[..i])) + FrameFor(id, rx[i])
  {
    var init, next := rx[..i], rx[..i + 1];
    assert next == init + [rx[i]];
    OutgoingSnoc(id, init, rx[i]);
  }

  lemma {:induction false} OutgoingSnoc(id: Id, rx: seq<Option<ReqCmd>>, x: Option<ReqCmd>)
    ensures Transmit(EncodeRequest, Outgoing(id, rx + [x])) ==
            Transmit(EncodeRequest, Outgoing(id, rx)) + FrameFor(id, x)
  {
    var f := FrameFor(id, x);
    if rx == [] {
      assert f + [] == f;
    } else {
      assert (rx + [x])[1..] == rx[1..] + [x];
      OutgoingSnoc(id, rx[1..], x);
      var r := Request(id, Some(Command(rx[0])));
      assert ([r] + Outgoing(id, rx[1..]))[1..] == Outgoing(id, rx[1..]);
      assert ([r] + Outgoing(id, rx[1..] + [x]))[1..] == Outgoing(id, rx[1..] + [x]);
      Associates(Frame(EncodeRequest(r)), Transmit(EncodeRequest, Outgoing(id, rx[1..])), f);
    }
  }

  /** The shipped listener keeps to the discipline: an Rsync it sends answers an Fsync among the
      responses it has read, which are a prefix of those written to it. */
  lemma {:induction false} ListenerIsPolite(
      s: State, c: nat, who: nat -> Id, parse: AddrParser, got: seq<Response>, cmd: ReqCmd)
    requires c < |s.conns| && got <= Responses(s.conns[c].out) && who(c) != []
    requires cmd == Ping || cmd in RsyncsFor(parse, got)
    ensures Polite(s, Enqueue(c, Request(who(c), Some(cmd))), who)
  {
    if cmd != Ping {
      var i := AnsweredFsync(parse, got, cmd);
      assert FsyncFor(s.conns[c].out[i], cmd.id);
    }
  }

  lemma {:induction false} AnsweredFsync(parse: AddrParser, got: seq<Response>, cmd: ReqCmd) returns (i: nat)
    requires cmd in RsyncsFor(parse, got)
    ensures i < |got| && cmd.Rsync? && got[i].cmd.Some? && got[i].cmd.value.FsyncResp? && got[i].cmd.value.id == cmd.id
  {
    var first := got[0].cmd;
    if first.Some? && first.value.FsyncResp? && cmd == Rsync(first.value.id) {
      i := 0;
    } else {
      i := AnsweredFsync(parse, got[1..], cmd);
      i := i + 1;
    }
  }

  /** How connect gets on until it has the peer's address: the address, or one of its errors. */
  datatype Answer = PeerAt(addr: SocketAddr) | WriteFailed | NoResponse | InvalidResponse | TargetNotFound

  /** connect's reading of the first response. */
  function Target(parse: AddrParser, resps: seq<Response>): Answer {
    if resps == [] then NoResponse
    else if resps[0].cmd.Some? && resps[0].cmd.value.Redirect? then
      match parse(resps[0].cmd.value.addr) case None => TargetNotFound case Some(addr) => PeerAt(addr)
    else InvalidResponse
  }

  /** The first response decides, whatever ids it carries. */
  lemma TargetExact(parse: AddrParser, first: Response, rest: seq<Response>, id: Id, addr: Text)
    ensures Target(parse, []) == NoResponse
    ensures first.cmd == Some(Redirect(id, addr)) ==>
              (parse(addr) == None ==> Target(parse, [first] + rest) == TargetNotFound)
              && (parse(addr).Some? ==> Target(parse, [first] + rest) == PeerAt(parse(addr).value))
    ensures first.cmd == None || first.cmd == Some(Pong) || first.cmd == Some(FsyncResp(id, addr)) ==>
              Target(parse, [first] + rest) == InvalidResponse
  {
    assert ([first] + rest)[0] == first;
  }

  /** connect up to that point. If the write fails, `cut` bytes of the request have gone out. */
  method Connect(id: Id, target: Id, parse: AddrParser, svrOut: CodedOutputStream, svrIn: ByteStream, writes: bool, cut: nat)
    returns (answer: Answer)
    requires |target| < U64
    modifies svrOut, svrIn
    ensures var f := Frame(EncodeRequest(Request(id, Some(Isync(target)))));
            svrOut.out == old(svrOut.out) + if writes then f else Part(f, cut)
    ensures answer == if writes then Target(parse, Receive(ParseResponse, MAX_BODY, Concat(old(svrIn.chunks)))) else WriteFailed
  {
    if !writes {
      WriteReqFails(id, Isync(target), svrOut, cut);
      return WriteFailed;
    }
    WriteReq(id, Isync(target), svrOut);
    var resp := svrIn.ReadResp();
    if resp == None {
      return NoResponse;
    }
    match resp.value.cmd {
      case Some(Redirect(_, a)) =>
        var addr := parse(a);
        answer := if addr == None then TargetNotFound else PeerAt(addr.value);
      case _ => answer := InvalidResponse;
    }
  }

  /** From the server's map to the initiator's socket: if every Isync under a client's id names
      `target`, then an address its connect arrives at, from however much of the stream has
      reached it, is the observed address of a connection that registered as `target`. */
  lemma ConnectReachesTarget(
      es: seq<Event>, ss: seq<State>, who: nat -> Id, i: nat, c: nat, p: nat, target: Id, parse: AddrParser)
    requires IsPoliteRun(es, ss, who) && i < |ss| && c < |ss[i].conns| && AllReceived(ss[i]) && ReadsBack(parse, ss[i])
    requires forall t :: Asked(ss[i], who(c), t) ==> t == target
    requires p <= |Transmit(EncodeResponse, Responses(ss[i].conns[c].out))|
    ensures var s := ss[i];
            var bytes := Transmit(EncodeResponse, Responses(s.conns[c].out))[..p];
            var answer := Target(parse, Receive(ParseResponse, MAX_BODY, bytes));
            answer.PeerAt? ==>
              exists d :: 0 <= d < |s.conns| && who(d) == target && Registered(target, d) in s.log && s.conns[d].addr == answer.addr
  {
    var s := ss[i];
    var bytes := Transmit(EncodeResponse, Responses(s.conns[c].out))[..p];
    var got := Receive(ParseResponse, MAX_BODY, bytes);
    ClientReads(es, ss, i, c, p);
    if Target(parse, got).PeerAt? {
      assert got[0] == s.conns[c].out[0].resp;
      RedirectedToTarget(es, ss, who, i, c, 0, target);
      var d :| 0 <= d < |s.conns| && who(d) == target && Registered(target, d) in s.log
               && s.conns[d].addr == got[0].cmd.value.addr;
      assert parse(s.conns[d].addr) == Some(s.conns[d].addr);
    }
  }

  // ---- runs of the shipped clients ----

  /** What read_loop sends once p bytes of what the server has written to connection c have arrived. */
  ghost predicate Answering(s: State, c: nat, parse: AddrParser, p: nat, cmd: ReqCmd)
    requires c < |s.conns|
  {
    var bytes := Transmit(EncodeResponse, Responses(s.conns[c].out));
    p <= |bytes| && cmd in RsyncsFor(parse, Receive(ParseResponse, MAX_BODY, bytes[..p]))
  }

  /** A request a shipped client sends, under its id: connect's Isync, the listener's Ping or an answer
      of its read_loop. Or the Bye that the server's own reader makes up. */
  ghost predicate Shipped(s: State, c: nat, id: Id, parse: AddrParser, req: Request)
    requires c < |s.conns|
  {
    || req == Request([], Some(Bye))
    || (req.id == id != [] && req.cmd.Some?
        && (req.cmd.value.Ping? || req.cmd.value.Isync? || exists p :: Answering(s, c, parse, p, req.cmd.value)))
  }

  ghost predicate IsShippedRun(es: seq<Event>, ss: seq<State>, who: nat -> Id, parse: AddrParser) {
    && IsRun(es, ss)
    && forall i {:trigger es[i]} :: 0 <= i < |es| && es[i].Enqueue? && es[i].c < |ss[i].conns| ==>
         Shipped(ss[i], es[i].c, who(es[i].c), parse, es[i].req)
  }

  lemma AnsweringIsPolite(
      es: seq<Event>, ss: seq<State>, i: nat, c: nat, who: nat -> Id, parse: AddrParser, p: nat, cmd: ReqCmd)
    requires IsRun(es, ss) && i < |ss| && c < |ss[i].conns| && AllReceived(ss[i])
    requires who(c) != [] && Answering(ss[i], c, parse, p, cmd)
    ensures Polite(ss[i], Enqueue(c, Request(who(c), Some(cmd))), who)
  {
    var bytes := Transmit(EncodeResponse, Responses(ss[i].conns[c].out));
    var got := Receive(ParseResponse, MAX_BODY, bytes[..p]);
    assert got <= Responses(ss[i].conns[c].out) by { ClientReads(es, ss, i, c, p); }
    ListenerIsPolite(ss[i], c, who, parse, got, cmd);
  }

  lemma ShippedIsPolite(es: seq<Event>, ss: seq<State>, who: nat -> Id, parse: AddrParser, i: nat, c: nat, req: Request)
    requires IsRun(es, ss) && i < |ss| && c < |ss[i].conns| && AllReceived(ss[i])
    requires Shipped(ss[i], c, who(c), parse, req)
    ensures Polite(ss[i], Enqueue(c, req), who)
  {
    if req != Request([], Some(Bye)) && !req.cmd.value.Ping? && !req.cmd.value.Isync? {
      var p :| Answering(ss[i], c, parse, p, req.cmd.value);
      AnsweringIsPolite(es, ss, i, c, who, parse, p, req.cmd.value);
    }
  }

  /** A run in which every client is a shipped one is polite: whatever arrives of the server's responses,
      and whenever, the loops answer only what they were sent. */
  lemma ShippedRunIsPolite(es: seq<Event>, ss: seq<State>, who: nat -> Id, parse: AddrParser)
    requires IsShippedRun(es, ss, who, parse) && AllReceived(ss[|es|])
    ensures IsPoliteRun(es, ss, who)
  {
    forall i | 0 <= i < |es| ensures Polite(ss[i], es[i], who) {
      var e := es[i];
      if e.Enqueue? && e.c < |ss[i].conns| {
        ReceivedBefore(es, ss, i);
        ShippedIsPolite(es, ss, who, parse, i, e.c, e.req);
      }
    }
  }

  lemma ReceivedBefore(es: seq<Event>, ss: seq<State>, i: nat)
    requires IsRun(es, ss) && i < |es| && AllReceived(ss[|es|])
    ensures AllReceived(ss[i])
  {
    TcpRegistry.LogGrows(es, ss, i, |es|);
    forall k | 0 <= k < |ss[i].accepted| ensures Received(ss[i].accepted[k].req) {
      assert ss[i].accepted[k] == ss[|es|].accepted[k];
    }
  }

  /** The whole system of shipped parts: if every Isync under a client's id names `target`, the address
      its connect arrives at is the observed address of a connection that registered as `target`. */
  lemma ShippedConnectReachesTarget(
      es: seq<Event>, ss: seq<State>, who: nat -> Id, c: nat, p: nat, target: Id, parse: AddrParser)
    requires IsShippedRun(es, ss, who, parse) && AllReceived(ss[|es|]) && c < |ss[|es|].conns| && ReadsBack(parse, ss[|es|])
    requires forall t :: Asked(ss[|es|], who(c), t) ==> t == target
    requires p <= |Transmit(EncodeResponse, Responses(ss[|es|].conns[c].out))|
    ensures var s := ss[|es|];
            var bytes := Transmit(EncodeResponse, Responses(s.conns[c].out))[..p];
            var answer := Target(parse, Receive(ParseResponse, MAX_BODY, bytes));
            answer.PeerAt? ==>
              exists d :: 0 <= d < |s.conns| && who(d) == target && Registered(target, d) in s.log && s.conns[d].addr == answer.addr
  {
    ShippedRunIsPolite(es, ss, who, parse);
    ConnectReachesTarget(es, ss, who, |es|, c, p, target, parse);
  }
}
