/**
 * From the TCP state machine to the bytes on its connections: no response is ever too long for its
 * 16-bit length, so a client reads exactly what was written, however the stream is cut.
 */
module TcpWire {
  import opened Base
  import opened Messages
  import opened Wire
  import opened Codec
  import opened CodedStreams
  import opened Framing
  import opened TcpProtocol
  import opened TcpTrace
  import opened Sequences

  /** The bound every response body stays below. */
  const RESPONSE_BOUND: nat := 1566

  /** The server's reader got the request out of a frame within its limit, or made up a Bye. */
  ghost predicate Received(req: Request) {
    || req == Request([], Some(Bye))
    || exists b: Bytes :: |b| <= MAX_REQUEST && ParseRequest(b) == Some(req)
  }

  /** That is what the reader's loop gets out of the bytes of a connection. */
  lemma {:induction false} ReaderDelivers(b: Bytes, req: Request)
    requires req in Receive(ParseRequest, MAX_REQUEST, b)
    ensures Received(req)
    decreases |b|
  {
    var Body(body, rest) := ReadFrame(b, MAX_REQUEST);
    if ParseRequest(body) != Some(req) {
      ReaderDelivers(rest, req);
    }
  }

  /** So every accepted request is one, if each connection's were enqueued by its reader. */
  lemma ReadersDeliver(s: State, streams: nat -> Bytes)
    requires forall k :: 0 <= k < |s.accepted| ==>
               || s.accepted[k].req == Request([], Some(Bye))
               || s.accepted[k].req in Receive(ParseRequest, MAX_REQUEST, streams(s.accepted[k].conn))
    ensures AllReceived(s)
  {
    forall k | 0 <= k < |s.accepted| ensures Received(s.accepted[k].req) {
      if s.accepted[k].req != Request([], Some(Bye)) {
        ReaderDelivers(streams(s.accepted[k].conn), s.accepted[k].req);
      }
    }
  }

  ghost predicate AllReceived(s: State) {
    forall k :: 0 <= k < |s.accepted| ==> Received(s.accepted[k].req)
  }

  lemma ReceivedWeight(req: Request)
    requires Received(req)
    ensures Weight(req) <= MAX_REQUEST
  {
    if req != Request([], Some(Bye)) {
      var b: Bytes :| |b| <= MAX_REQUEST && ParseRequest(b) == Some(req);
      ParsedWeight(b);
    }
  }

  /** No request carries more string bytes than a frame within the limit has. */
  ghost predicate AllLight(s: State) {
    forall k :: 0 <= k < |s.accepted| ==> Weight(s.accepted[k].req) <= MAX_REQUEST
  }

  lemma ReceivedIsLight(s: State)
    requires AllReceived(s)
    ensures AllLight(s)
  {
    forall k | 0 <= k < |s.accepted| ensures Weight(s.accepted[k].req) <= MAX_REQUEST {
      ReceivedWeight(s.accepted[k].req);
    }
  }

  lemma TextSizeBound(t: Text, n: nat)
    requires |t| <= n && n < 0x4000
    ensures TextSize(t) <= 1 + VarintSize(n) + |t|
  {
  }

  /** Whatever handler built it, a response is short. */
  lemma ReplyIsShort(s: State, c: nat, r: Reply)
    requires AllLight(s) && Faithful(s, c, r)
    ensures ResponseFits(r.resp) && ResponseSize(r.resp) <= RESPONSE_BOUND
    ensures |EncodeResponse(r.resp)| <= RESPONSE_BOUND < U16
  {
    var o := s.accepted[r.ticket];
    match r.resp.cmd.value {
      case Pong =>
      case Redirect(id, addr) => TextSizeBound(id, 1500); TextSizeBound(addr, if addr == [] then 0 else MAX_ADDR);
      case FsyncResp(id, addr) =>
        TextSizeBound(id, 1500);
        if o.req.cmd.value.Isync? { TextSizeBound(addr, MAX_ADDR); } else { TextSizeBound(addr, 1500); }
    }
    ResponseSizeExact(r.resp);
  }

  /** What send_response puts on the stream is never truncated: in every run, for every response
      written or being written, the 16-bit length is the length of the body. */
  lemma NoTruncation(es: seq<Event>, ss: seq<State>, i: nat, c: nat, r: Reply)
    requires IsRun(es, ss) && i < |ss| && c < |ss[i].conns| && AllReceived(ss[i])
    requires r in ss[i].conns[c].out || ss[i].conns[c].stage == Writing(r)
    ensures var body := EncodeResponse(r.resp);
            |body| <= 1566 && ReadFrame(Frame(body), MAX_BODY) == Body(body, [])
  {
    var s := ss[i];
    RunTraced(es, ss, i);
    ReceivedIsLight(s);
    assert ConnTraced(s, c, s.conns[c]);
    ReplyIsShort(s, c, r);
    FrameLosslessIff(EncodeResponse(r.resp));
  }

  /** The responses on a connection, without the tickets. */
  function Responses(out: seq<Reply>): (rs: seq<Response>)
    ensures |rs| == |out| && forall i :: 0 <= i < |out| ==> rs[i] == out[i].resp
  {
    if out == [] then [] else [out[0].resp] + Responses(out[1..])
  }

  predicate Short(r: Response) {
    ResponseFits(r) && ResponseSize(r) <= MAX_BODY
  }

  ghost predicate AllShort(rs: seq<Response>) {
    forall j :: 0 <= j < |rs| ==> Short(rs[j])
  }

  lemma WrittenIsShort(es: seq<Event>, ss: seq<State>, i: nat, c: nat)
    requires IsRun(es, ss) && i < |ss| && c < |ss[i].conns| && AllReceived(ss[i])
    ensures AllShort(Responses(ss[i].conns[c].out))
    ensures ss[i].conns[c].stage.Writing? ==> Short(ss[i].conns[c].stage.reply.resp)
  {
    var s := ss[i];
    RunTraced(es, ss, i);
    ReceivedIsLight(s);
    assert ConnTraced(s, c, s.conns[c]);
    var out := s.conns[c].out;
    forall j | 0 <= j < |out| ensures Short(out[j].resp) {
      ReplyIsShort(s, c, out[j]);
    }
    if s.conns[c].stage.Writing? {
      ReplyIsShort(s, c, s.conns[c].stage.reply);
    }
  }

  /** The client reads a prefix of the responses written to its connection, unaltered, from any
      prefix of the bytes; all of them, once all the bytes have arrived. */
  lemma ClientReads(es: seq<Event>, ss: seq<State>, i: nat, c: nat, p: nat)
    requires IsRun(es, ss) && i < |ss| && c < |ss[i].conns| && AllReceived(ss[i])
    requires p <= |Transmit(EncodeResponse, Responses(ss[i].conns[c].out))|
    ensures var written := Responses(ss[i].conns[c].out);
            var bytes := Transmit(EncodeResponse, written);
            var got := Receive(ParseResponse, MAX_BODY, bytes[..p]);
            && WholeInside(EncodeResponse, written, p, got)
            && (p == |bytes| ==> got == written)
  {
    WrittenIsShort(es, ss, i, c);
    ResponsesPrefixSafe(Responses(ss[i].conns[c].out), p);
  }

  lemma {:induction false} TransmitSnoc(rs: seq<Response>, r: Response)
    ensures Transmit(EncodeResponse, rs + [r]) == Transmit(EncodeResponse, rs) + Frame(EncodeResponse(r))
  {
    var f := Frame(EncodeResponse(r));
    if rs == [] {
      assert f + [] == f;
    } else {
      assert (rs + [r])[1..] == rs[1..] + [r];
      TransmitSnoc(rs[1..], r);
      Associates(Frame(EncodeResponse(rs[0])), Transmit(EncodeResponse, rs[1..]), f);
    }
  }

  /** A handler that is cancelled in the middle of a write leaves part of a frame behind what it has
      written. The client makes nothing of it: it reads exactly the responses written before. */
  lemma TornWriteIsSilent(es: seq<Event>, ss: seq<State>, i: nat, c: nat, r: Reply, q: nat)
    requires IsRun(es, ss) && i < |ss| && c < |ss[i].conns| && AllReceived(ss[i])
    requires ss[i].conns[c].stage == Writing(r) && q < |Frame(EncodeResponse(r.resp))|
    ensures var written := Responses(ss[i].conns[c].out);
            Receive(ParseResponse, MAX_BODY, Transmit(EncodeResponse, written) + Frame(EncodeResponse(r.resp))[..q]) == written
  {
    WrittenIsShort(es, ss, i, c);
    CutAfter(Responses(ss[i].conns[c].out), r.resp, q);
  }

  lemma CutAfter(rs: seq<Response>, r: Response, q: nat)
    requires AllShort(rs) && Short(r) && q < |Frame(EncodeResponse(r))|
    ensures Receive(ParseResponse, MAX_BODY, Transmit(EncodeResponse, rs) + Frame(EncodeResponse(r))[..q]) == rs
  {
    var all, p := rs + [r], |Transmit(EncodeResponse, rs)| + q;
    CutBytes(rs, r, q);
    ShortInside(rs, r, p);
    WholeBefore(rs, r, p, Receive(ParseResponse, MAX_BODY, Transmit(EncodeResponse, all)[..p]));
  }

  lemma ShortInside(rs: seq<Response>, r: Response, p: nat)
    requires AllShort(rs) && Short(r) && p <= |Transmit(EncodeResponse, rs + [r])|
    ensures WholeInside(EncodeResponse, rs + [r], p,
                        Receive(ParseResponse, MAX_BODY, Transmit(EncodeResponse, rs + [r])[..p]))
  {
    var all := rs + [r];
    assert AllShort(all);
    ResponsesPrefixSafe(all, p);
  }

  lemma CutBytes(rs: seq<Response>, r: Response, q: nat)
    requires q < |Frame(EncodeResponse(r))|
    ensures var head, all := Transmit(EncodeResponse, rs), Transmit(EncodeResponse, rs + [r]);
            |head| + q < |all| && all[..|head| + q] == head + Frame(EncodeResponse(r))[..q]
  {
    TransmitSnoc(rs, r);
  }

  lemma WholeBefore(rs: seq<Response>, r: Response, p: nat, got: seq<Response>)
    requires WholeInside(EncodeResponse, rs + [r], p, got)
    requires |Transmit(EncodeResponse, rs)| <= p < |Transmit(EncodeResponse, rs + [r])|
    ensures got == rs
  {
    var all := rs + [r];
    assert |got| == |all| ==> got == all;
    if |got| < |rs| {
      assert all[..|got| + 1] == rs[..|got| + 1];
      TransmitPrefix(EncodeResponse, rs, |got| + 1);
    } else {
      assert got == all[..|rs|] == rs;
    }
  }
}
