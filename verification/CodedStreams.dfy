/**
 * The loops of src/proto/rndz.rs over a coded input and a coded output stream, each proved to
 * compute the function of the bytes that Codec states the laws about.
 */
module CodedStreams {
  import opened Base
  import opened Messages
  import opened Wire
  import opened Codec
  import opened Sequences

  class CodedInputStream {
    const data: Bytes
    var pos: nat

    ghost predicate Valid()
      reads this
    {
      pos <= |data|
    }

    ghost function Rest(): Bytes
      requires Valid()
      reads this
    {
      data[pos..]
    }

    constructor (b: Bytes)
      ensures Valid() && Rest() == b
    {
      data := b;
      pos := 0;
    }

    /** The runtime's varint reader: it moves past what it read. */
    method ReadRawVarint() returns (r: Option<nat>)
      requires Valid()
      modifies this`pos
      ensures Valid()
      ensures match ReadVarint64(old(Rest()))
              case None => r == None
              case Some((v, n)) => r == Some(v) && Rest() == old(Rest())[n..]
    {
      match ReadVarint64(data[pos..])
      case None => r := None;
      case Some((v, n)) =>
        pos := pos + n;
        r := Some(v);
    }

    /** The payload of a field whose tag has been read. */
    method ReadPayloadOf(tag: nat) returns (r: Option<Field>)
      requires Valid()
      modifies this`pos
      ensures Valid()
      ensures match ReadPayload(tag, old(Rest()))
              case None => r == None
              case Some((f, rest)) => r == Some(f) && Rest() == rest
    {
      var num, wire := tag / 8, tag % 8;
      if num == 0 || tag >= U32 {
        return None;
      }
      var size := if wire == 1 then 8 else 4;
      if wire == 0 || wire == 2 {
        var v := ReadRawVarint();
        if v == None || wire == 0 {
          return if v == None then None else Some(Varint(num, v.value));
        }
        size := v.value;
      } else if wire != 1 && wire != 5 {
        return None;
      }
      if |data| - pos < size {
        return None;
      }
      var bits := data[pos..pos + size];
      assert bits == Rest()[..size];
      ghost var after := Rest()[size..];
      pos := pos + size;
      assert after == Rest();
      return Some(if wire == 1 then Fixed64(num, bits) else if wire == 2 then Len(num, bits) else Fixed32(num, bits));
    }

    /** The loop of merge_from: a tag, then its payload, until the end of the input. `step` is the
        match on the tag of the message being read. */
    method MergeFrom<M>(step: (M, Field) -> Option<M>, m: M) returns (r: Option<M>)
      requires Valid()
      modifies this`pos
      ensures r == Merge(step, m, old(Rest()))
    {
      ghost var b := Rest();
      var cur := m;
      while pos < |data|
        invariant Valid()
        invariant Merge(step, m, b) == Merge(step, cur, Rest())
        decreases |Rest()|
      {
        var tag := ReadRawVarint();
        if tag == None {
          return None;
        }
        var f := ReadPayloadOf(tag.value);
        if f == None {
          return None;
        }
        var next := step(cur, f.value);
        if next == None {
          return None;
        }
        cur := next.value;
      }
      return Some(cur);
    }
  }

  method ParseRequestBytes(b: Bytes) returns (r: Option<Request>)
    ensures r == ParseRequest(b)
  {
    var input := new CodedInputStream(b);
    r := input.MergeFrom(ReqStep, NEW_REQUEST);
  }

  method ParseResponseBytes(b: Bytes) returns (r: Option<Response>)
    ensures r == ParseResponse(b)
  {
    var input := new CodedInputStream(b);
    r := input.MergeFrom(RespStep, NEW_RESPONSE);
  }

  /** Request::compute_size; the cached size is the low 32 bits. */
  method ComputeRequestSize(m: Request) returns (mySize: nat, cached: nat)
    ensures RequestFits(m) ==> mySize == |EncodeRequest(m)|
    ensures cached == mySize % U32
  {
    mySize := 0;
    if m.id != [] {
      mySize := mySize + 1 + VarintSize(|m.id|) + |m.id|;
    }
    if m.cmd.Some? {
      var len := ComputeReqBodySize(m.cmd.value);
      mySize := mySize + 1 + VarintSize(len) + len;
    }
    if RequestFits(m) {
      RequestSizeExact(m);
    }
    cached := mySize % U32;
  }

  method ComputeReqBodySize(c: ReqCmd) returns (mySize: nat)
    ensures mySize == ReqBodySize(c)
    ensures CmdWeight(c) < U64 ==> mySize == |ReqBody(c)|
  {
    mySize := 0;
    match c {
      case Ping =>
      case Bye =>
      case Isync(id) => mySize := mySize + TextSize(id);
      case Rsync(id) => mySize := mySize + TextSize(id);
      case Fsync(id, addr) =>
        mySize := mySize + TextSize(id);
        mySize := mySize + TextSize(addr);
    }
    if CmdWeight(c) < U64 {
      ReqBodySizeExact(c);
    }
  }

  method ComputeRespBodySize(c: RespCmd) returns (mySize: nat)
    ensures mySize == RespBodySize(c)
    ensures RespCmdWeight(c) < U64 ==> mySize == |RespBody(c)|
  {
    mySize := 0;
    match c {
      case Pong =>
      case Redirect(id, addr) =>
        mySize := mySize + TextSize(id);
        mySize := mySize + TextSize(addr);
      case FsyncResp(id, addr) =>
        mySize := mySize + TextSize(id);
        mySize := mySize + TextSize(addr);
    }
    if RespCmdWeight(c) < U64 {
      RespBodySizeExact(c);
    }
  }

  class CodedOutputStream {
    var out: Bytes

    constructor ()
      ensures out == []
    {
      out := [];
    }

    method WriteRawVarint(v: nat)
      modifies this
      ensures out == old(out) + EncodeVarint(v)
    {
      var left := v;
      while left >= 128
        invariant out + EncodeVarint(left) == old(out) + EncodeVarint(v)
      {
        out := out + [(128 + left % 128) as byte];
        left := left / 128;
      }
      out := out + [left as byte];
    }

    method WriteString(num: nat, t: Text)
      modifies this
      ensures out == old(out) + EncodeLen(num, |t|, t)
    {
      WriteRawVarint(8 * num + 2);
      WriteRawVarint(|t|);
      out := out + t;
    }

    method WriteMessageHeader(num: nat, cached: nat)
      modifies this
      ensures out == old(out) + (EncodeVarint(8 * num + 2) + EncodeVarint(cached))
    {
      WriteRawVarint(8 * num + 2);
      WriteRawVarint(cached);
    }

    /** The optional string of a proto3 message. */
    method WriteText(num: nat, t: Text)
      modifies this
      ensures out == old(out) + EncodeText(num, t)
    {
      if t != [] {
        WriteString(num, t);
      }
    }

    method WritePair(id: Id, addr: Text)
      modifies this
      ensures out == old(out) + EncodePair(id, addr)
    {
      WriteText(1, id);
      WriteText(2, addr);
    }

    method WriteReqBody(c: ReqCmd)
      modifies this
      ensures out == old(out) + ReqBody(c)
    {
      match c {
        case Ping =>
        case Bye =>
        case Isync(id) => WriteText(1, id);
        case Rsync(id) => WriteText(1, id);
        case Fsync(id, addr) => WritePair(id, addr);
      }
    }

    method WriteRespBody(c: RespCmd)
      modifies this
      ensures out == old(out) + RespBody(c)
    {
      match c {
        case Pong =>
        case Redirect(id, addr) => WritePair(id, addr);
        case FsyncResp(id, addr) => WritePair(id, addr);
      }
    }

    /** A sub-message: its tag, its cached size, its bytes. */
    method WriteReqCmd(c: ReqCmd)
      requires CmdWeight(c) < U64
      modifies this
      ensures out == old(out) + EncodeMessage(ReqNum(c), ReqBody(c))
    {
      var len := ComputeReqBodySize(c);
      var cached := len % U32;
      WriteMessageHeader(ReqNum(c), cached);
      WriteReqBody(c);
      Associates(old(out), EncodeVarint(8 * ReqNum(c) + 2) + EncodeVarint(cached), ReqBody(c));
    }

    method WriteRespCmd(c: RespCmd)
      requires RespCmdWeight(c) < U64
      modifies this
      ensures out == old(out) + EncodeMessage(RespNum(c), RespBody(c))
    {
      var len := ComputeRespBodySize(c);
      var cached := len % U32;
      WriteMessageHeader(RespNum(c), cached);
      WriteRespBody(c);
      Associates(old(out), EncodeVarint(8 * RespNum(c) + 2) + EncodeVarint(cached), RespBody(c));
    }

    /** write_to_with_cached_sizes. */
    method WriteRequest(m: Request)
      requires m.cmd.Some? ==> CmdWeight(m.cmd.value) < U64
      modifies this
      ensures out == old(out) + EncodeRequest(m)
    {
      WriteText(1, m.id);
      if m.cmd.Some? {
        var c := m.cmd.value;
        WriteReqCmd(c);
        Associates(old(out), EncodeText(1, m.id), EncodeMessage(ReqNum(c), ReqBody(c)));
      } else {
        assert EncodeText(1, m.id) + [] == EncodeText(1, m.id);
      }
    }

    method WriteResponse(m: Response)
      requires m.cmd.Some? ==> RespCmdWeight(m.cmd.value) < U64
      modifies this
      ensures out == old(out) + EncodeResponse(m)
    {
      WriteText(1, m.id);
      if m.cmd.Some? {
        var c := m.cmd.value;
        WriteRespCmd(c);
        Associates(old(out), EncodeText(1, m.id), EncodeMessage(RespNum(c), RespBody(c)));
      } else {
        assert EncodeText(1, m.id) + [] == EncodeText(1, m.id);
      }
    }
  }
}
