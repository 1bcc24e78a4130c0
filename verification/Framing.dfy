/**
 * The TCP framing: a 16-bit big-endian length before each message (src/tcp/client.rs write_req and
 * read_resp, src/tcp/server.rs read_req and send_response).
 */
module Framing {
  import opened Base
  import opened Messages
  import opened Codec
  import opened CodedStreams
  import opened Sequences

  const MAX_REQUEST: nat := 1500
  const MAX_BODY: nat := 0xFFFF

  /** (len as u16).to_be_bytes(), then the body. */
  function Frame(body: Bytes): (f: Bytes)
    ensures |f| == 2 + |body|
  {
    var size := |body| % U16;
    [(size / 256) as byte, (size % 256) as byte] + body
  }

  datatype Read = Starved | Oversize | Body(body: Bytes, rest: Bytes)

  /** read_exact of the length, the size check, read_exact of the body. */
  function ReadFrame(b: Bytes, limit: nat): (r: Read)
    ensures r.Body? ==> |r.body| + |r.rest| + 2 == |b|
  {
    if |b| < 2 then Starved
    else
      var size := b[0] as nat * 256 + b[1] as nat;
      if size > limit then Oversize
      else if |b| - 2 < size then Starved
      else Body(b[2..2 + size], b[2 + size..])
  }

  /** The messages a receive loop gets out of the bytes of a stream before its first error: the
      stream ending, an oversized frame, or a body that does not parse. */
  function Receive<M>(parse: Bytes -> Option<M>, limit: nat, b: Bytes): seq<M>
    decreases |b|
  {
    match ReadFrame(b, limit)
    case Starved => []
    case Oversize => []
    case Body(body, rest) =>
      match parse(body)
      case None => []
      case Some(m) => [m] + Receive(parse, limit, rest)
  }

  /** The bytes a sender puts on the stream for a list of messages. */
  function Transmit<M>(enc: M -> Bytes, ms: seq<M>): Bytes {
    if ms == [] then [] else Frame(enc(ms[0])) + Transmit(enc, ms[1..])
  }

  /** The printer fits the receiver's limit and the parser undoes it. */
  ghost predicate Understood<M>(enc: M -> Bytes, parse: Bytes -> Option<M>, limit: nat, m: M) {
    |enc(m)| <= limit && parse(enc(m)) == Some(m)
  }

  /** The two length bytes are the low 16 bits of the length. */
  lemma FrameHead(body: Bytes)
    ensures Frame(body)[0] as nat * 256 + Frame(body)[1] as nat == |body| % U16
    ensures |body| < U16 ==> |body| % U16 == |body|
  {
  }

  lemma FrameRoundTrip(body: Bytes, rest: Bytes, limit: nat)
    requires |body| <= limit < U16
    ensures ReadFrame(Frame(body) + rest, limit) == Body(body, rest)
  {
    var all := Frame(body) + rest;
    FrameHead(body);
    assert all[0] == Frame(body)[0] && all[1] == Frame(body)[1];
    assert all[2..2 + |body|] == body;
    assert all[2 + |body|..] == rest;
  }

  /** The cast to 16 bits is lossless exactly below 65536 bytes. */
  lemma FrameLosslessIff(body: Bytes)
    ensures ReadFrame(Frame(body), MAX_BODY) == Body(body, []) <==> |body| < U16
  {
    if |body| < U16 {
      FrameRoundTrip(body, [], MAX_BODY);
      assert Frame(body) + [] == Frame(body);
    }
  }

  /** A frame cut anywhere before its end yields nothing. */
  lemma CutFrame(body: Bytes, rest: Bytes, limit: nat, p: nat)
    requires |body| <= limit < U16 && p < |Frame(body)|
    ensures ReadFrame((Frame(body) + rest)[..p], limit) == Starved
  {
    var cut := (Frame(body) + rest)[..p];
    FrameHead(body);
    if p >= 2 {
      assert cut[0] == Frame(body)[0] && cut[1] == Frame(body)[1];
    }
  }

  /** `got` is the longest prefix of `ms` that lies wholly inside the first `p` bytes. */
  ghost predicate WholeInside<M>(enc: M -> Bytes, ms: seq<M>, p: nat, got: seq<M>) {
    && got <= ms
    && |Transmit(enc, got)| <= p
    && (|got| < |ms| ==> p < |Transmit(enc, ms[..|got| + 1])|)
  }

  lemma InsideExtends<M>(enc: M -> Bytes, ms: seq<M>, p: nat, got: seq<M>)
    requires ms != [] && WholeInside(enc, ms[1..], p, got)
    ensures WholeInside(enc, ms, |Frame(enc(ms[0]))| + p, [ms[0]] + got)
  {
    assert ([ms[0]] + got)[1..] == got;
    if |got| + 1 < |ms| {
      assert ms[..|got| + 2][1..] == ms[1..][..|got| + 1];
    }
  }

  /** Framing is prefix-safe: from any prefix of the bytes of a list of messages, the receiver gets
      exactly the messages that lie wholly inside it, unaltered and in order. */
  lemma {:induction false} PrefixSafe<M>(
      enc: M -> Bytes, parse: Bytes -> Option<M>, limit: nat, ms: seq<M>, p: nat)
    requires limit < U16 && p <= |Transmit(enc, ms)|
    requires forall i :: 0 <= i < |ms| ==> Understood(enc, parse, limit, ms[i])
    ensures WholeInside(enc, ms, p, Receive(parse, limit, Transmit(enc, ms)[..p]))
    decreases |ms|
  {
    if ms != [] {
      var f, tail := Frame(enc(ms[0])), Transmit(enc, ms[1..]);
      assert Understood(enc, parse, limit, ms[0]);
      if p < |f| {
        CutFrame(enc(ms[0]), tail, limit, p);
        assert ms[..1][1..] == [];
      } else {
        var q := p - |f|;
        assert (f + tail)[..p] == f + tail[..q];
        FrameRoundTrip(enc(ms[0]), tail[..q], limit);
        PrefixSafe(enc, parse, limit, ms[1..], q);
        InsideExtends(enc, ms, q, Receive(parse, limit, tail[..q]));
      }
    }
  }

  /** A receive loop ends at its first error: a frame over the limit, or a body that does not parse,
      whatever comes after it. */
  lemma {:induction false} StopsAtError<M>(
      enc: M -> Bytes, parse: Bytes -> Option<M>, limit: nat, ms: seq<M>, bad: Bytes, rest: Bytes)
    requires limit < U16 && forall i :: 0 <= i < |ms| ==> Understood(enc, parse, limit, ms[i])
    requires |bad| < U16 && (|bad| > limit || parse(bad) == None)
    ensures Receive(parse, limit, Transmit(enc, ms) + (Frame(bad) + rest)) == ms
    decreases |ms|
  {
    if ms == [] {
      assert [] + (Frame(bad) + rest) == Frame(bad) + rest;
      BadFrame(parse, bad, rest, limit);
    } else {
      var f, tail := Frame(enc(ms[0])), Transmit(enc, ms[1..]);
      assert Understood(enc, parse, limit, ms[0]);
      Associates(f, tail, Frame(bad) + rest);
      FrameRoundTrip(enc(ms[0]), tail + (Frame(bad) + rest), limit);
      StopsAtError(enc, parse, limit, ms[1..], bad, rest);
    }
  }

  lemma BadFrame<M>(parse: Bytes -> Option<M>, bad: Bytes, rest: Bytes, limit: nat)
    requires limit < U16 && |bad| < U16 && (|bad| > limit || parse(bad) == None)
    ensures Receive(parse, limit, Frame(bad) + rest) == []
  {
    if |bad| <= limit {
      FrameRoundTrip(bad, rest, limit);
    } else {
      FrameOverLimit(bad, rest, limit);
    }
  }

  lemma FrameOverLimit(bad: Bytes, rest: Bytes, limit: nat)
    requires limit < |bad| < U16
    ensures ReadFrame(Frame(bad) + rest, limit) == Oversize
  {
    FrameHead(bad);
    var all := Frame(bad) + rest;
    assert all[0] == Frame(bad)[0] && all[1] == Frame(bad)[1];
  }

  /** The server takes a request of 1500 bytes and refuses a longer one. */
  lemma RequestLimit(body: Bytes, rest: Bytes)
    requires |body| < U16
    ensures ReadFrame(Frame(body) + rest, MAX_REQUEST) == if |body| <= 1500 then Body(body, rest) else Oversize
  {
    if |body| <= 1500 {
      FrameRoundTrip(body, rest, MAX_REQUEST);
    } else {
      FrameOverLimit(body, rest, MAX_REQUEST);
    }
  }

  /** The frame on the wire: two bytes, the more significant one first, then the body. */
  lemma FrameIsBigEndian(body: Bytes)
    requires |body| < 65536
    ensures var f := Frame(body);
            f[0] as nat == |body| / 256 && f[1] as nat == |body| % 256 && f[2..] == body
  {
    FrameHead(body);
  }

  /** All the bytes give all the messages. */
  lemma WholeStream<M>(enc: M -> Bytes, ms: seq<M>, got: seq<M>)
    requires WholeInside(enc, ms, |Transmit(enc, ms)|, got)
    ensures got == ms
  {
    if |got| < |ms| {
      TransmitPrefix(enc, ms, |got| + 1);
    }
  }

  lemma {:induction false} TransmitPrefix<M>(enc: M -> Bytes, ms: seq<M>, n: nat)
    requires n <= |ms|
    ensures |Transmit(enc, ms[..n])| <= |Transmit(enc, ms)|
    decreases n
  {
    if n > 0 {
      assert ms[..n][1..] == ms[1..][..n - 1];
      TransmitPrefix(enc, ms[1..], n - 1);
    }
  }

  /** Requests whose encoding is within the server's limit arrive whole and in order, wherever the
      stream is cut. */
  lemma RequestsPrefixSafe(ms: seq<Request>, p: nat)
    requires p <= |Transmit(EncodeRequest, ms)|
    requires forall i :: 0 <= i < |ms| ==> RequestFits(ms[i]) && RequestSize(ms[i]) <= MAX_REQUEST
    ensures var got := Receive(ParseRequest, MAX_REQUEST, Transmit(EncodeRequest, ms)[..p]);
            && WholeInside(EncodeRequest, ms, p, got)
            && (p == |Transmit(EncodeRequest, ms)| ==> got == ms)
  {
    forall i | 0 <= i < |ms| ensures Understood(EncodeRequest, ParseRequest, MAX_REQUEST, ms[i]) {
      RequestRoundTrip(ms[i]);
      RequestSizeExact(ms[i]);
    }
    PrefixSafe(EncodeRequest, ParseRequest, MAX_REQUEST, ms, p);
    if p == |Transmit(EncodeRequest, ms)| {
      WholeStream(EncodeRequest, ms, Receive(ParseRequest, MAX_REQUEST, Transmit(EncodeRequest, ms)[..p]));
    }
  }

  /** Responses below 65536 bytes arrive whole and in order. */
  lemma ResponsesPrefixSafe(ms: seq<Response>, p: nat)
    requires p <= |Transmit(EncodeResponse, ms)|
    requires forall i :: 0 <= i < |ms| ==> ResponseFits(ms[i]) && ResponseSize(ms[i]) <= MAX_BODY
    ensures var got := Receive(ParseResponse, MAX_BODY, Transmit(EncodeResponse, ms)[..p]);
            && WholeInside(EncodeResponse, ms, p, got)
            && (p == |Transmit(EncodeResponse, ms)| ==> got == ms)
  {
    forall i | 0 <= i < |ms| ensures Understood(EncodeResponse, ParseResponse, MAX_BODY, ms[i]) {
      ResponseRoundTrip(ms[i]);
      ResponseSizeExact(ms[i]);
    }
    PrefixSafe(EncodeResponse, ParseResponse, MAX_BODY, ms, p);
    if p == |Transmit(EncodeResponse, ms)| {
      WholeStream(EncodeResponse, ms, Receive(ParseResponse, MAX_BODY, Transmit(EncodeResponse, ms)[..p]));
    }
  }

  // ---- the loops over a stream that arrives in chunks ----

  function Concat(chunks: seq<Bytes>): Bytes {
    if chunks == [] then [] else chunks[0] + Concat(chunks[1..])
  }

  lemma OneMoreRequest(sent: seq<Request>, req: Request, left: seq<Request>)
    requires left != [] && left[0] == req
    ensures left == [req] + left[1..] && (sent + [req]) + left[1..] == sent + left
  {
  }

  /** The reading half of a TCP connection: each read gets at most one arrived chunk. */
  class ByteStream {
    var chunks: seq<Bytes>

    constructor (arrivals: seq<Bytes>)
      ensures chunks == arrivals
    {
      chunks := arrivals;
    }

    /** read_exact: keeps reading until `n` bytes have arrived or the stream ends. */
    method ReadExact(n: nat) returns (r: Option<Bytes>)
      modifies this
      ensures match r
              case None => |Concat(old(chunks))| < n
              case Some(b) => |b| == n && b + Concat(chunks) == Concat(old(chunks))
    {
      var buf := [];
      while |buf| < n
        invariant |buf| <= n
        invariant buf + Concat(chunks) == Concat(old(chunks))
        decreases n - |buf|, |chunks|
      {
        if chunks == [] {
          return None;
        }
        var head, tail := chunks[0], chunks[1..];
        var k := if |head| <= n - |buf| then |head| else n - |buf|;
        assert head == head[..k] + head[k..];
        Associates(head[..k], head[k..], Concat(tail));
        Associates(buf, head[..k], head[k..] + Concat(tail));
        buf := buf + head[..k];
        if k == |head| {
          assert head[k..] + Concat(tail) == Concat(tail);
          chunks := tail;
        } else {
          chunks := [head[k..]] + tail;
          assert chunks[1..] == tail;
        }
      }
      return Some(buf);
    }

    /** The body of one frame; None when the stream ends or the length is over the limit. */
    method ReadBody(limit: nat) returns (r: Option<Bytes>)
      modifies this
      ensures match ReadFrame(Concat(old(chunks)), limit)
              case Body(body, rest) => r == Some(body) && Concat(chunks) == rest
              case _ => r == None
    {
      ghost var all := Concat(chunks);
      var head := ReadExact(2);
      if head == None {
        return None;
      }
      var size := head.value[0] as nat * 256 + head.value[1] as nat;
      assert all[0] == head.value[0] && all[1] == head.value[1];
      if size > limit {
        return None;
      }
      assert Concat(chunks) == all[2..];
      r := ReadExact(size);
      if r.Some? {
        assert all[2..2 + size] == all[2..][..size] == r.value;
        assert all[2 + size..] == all[2..][size..] == Concat(chunks);
      }
    }

    /** Server read_req: the next request, or None at the first error. */
    method ReadReq() returns (req: Option<Request>)
      modifies this
      ensures match req
              case None => Receive(ParseRequest, MAX_REQUEST, Concat(old(chunks))) == []
              case Some(m) =>
                && Receive(ParseRequest, MAX_REQUEST, Concat(old(chunks))) == [m] + Receive(ParseRequest, MAX_REQUEST, Concat(chunks))
                && |Concat(chunks)| < |Concat(old(chunks))|
    {
      var body := ReadBody(MAX_REQUEST);
      if body == None {
        return None;
      }
      req := ParseRequestBytes(body.value);
    }

    /** Server read_reqs: what it sends on its handler's queue. Each read must be over within 30 s, and
        `patience` is the number of those that are; a read that is not ends the loop at once, one that
        fails makes it send a Bye first. However the bytes were split into chunks, the requests are
        those of the whole. */
    method ReadReqs(patience: nat) returns (sent: seq<Request>)
      modifies this
      ensures var all := Receive(ParseRequest, MAX_REQUEST, Concat(old(chunks)));
              sent == if patience <= |all| then all[..patience] else all + [Request([], Some(Bye))]
    {
      sent := [];
      ghost var all := Receive(ParseRequest, MAX_REQUEST, Concat(chunks));
      ghost var left := all;
      while |sent| < patience
        invariant |sent| <= patience
        invariant left == Receive(ParseRequest, MAX_REQUEST, Concat(chunks)) && sent + left == all
      {
        var req := ReadReq();
        if req == None {
          assert sent == all;
          return sent + [Request([], Some(Bye))];
        }
        OneMoreRequest(sent, req.value, left);
        left := left[1..];
        sent := sent + [req.value];
      }
      assert sent == all[..patience];
    }

    /** Client read_resp. */
    method ReadResp() returns (resp: Option<Response>)
      modifies this
      ensures match resp
              case None => Receive(ParseResponse, MAX_BODY, Concat(old(chunks))) == []
              case Some(m) =>
                && Receive(ParseResponse, MAX_BODY, Concat(old(chunks))) == [m] + Receive(ParseResponse, MAX_BODY, Concat(chunks))
                && |Concat(chunks)| < |Concat(old(chunks))|
    {
      var body := ReadBody(MAX_BODY);
      if body == None {
        return None;
      }
      resp := ParseResponseBytes(body.value);
    }
  }

  /** Client write_req: the encoded request behind its 16-bit length. */
  method WriteReq(id: Id, cmd: ReqCmd, w: CodedOutputStream)
    requires CmdWeight(cmd) < U64
    modifies w
    ensures w.out == old(w.out) + Frame(EncodeRequest(Request(id, Some(cmd))))
  {
    var os := new CodedOutputStream();
    os.WriteRequest(Request(id, Some(cmd)));
    var buf := os.out;
    assert buf == EncodeRequest(Request(id, Some(cmd)));
    var size := |buf| % U16;
    w.out := w.out + [(size / 256) as byte, (size % 256) as byte];
    w.out := w.out + buf;
  }

  /** Server send_response: the id of the response is left empty. */
  method SendResponse(cmd: RespCmd, w: CodedOutputStream)
    requires RespCmdWeight(cmd) < U64
    modifies w
    ensures w.out == old(w.out) + Frame(EncodeResponse(Response([], Some(cmd))))
  {
    var os := new CodedOutputStream();
    os.WriteResponse(Response([], Some(cmd)));
    var buf := os.out;
    assert buf == EncodeResponse(Response([], Some(cmd)));
    var size := |buf| % U16;
    w.out := w.out + [(size / 256) as byte, (size % 256) as byte];
    w.out := w.out + buf;
  }
}
