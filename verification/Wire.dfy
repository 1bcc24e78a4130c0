/**
 * The Protocol Buffers wire primitives the generated code is written in terms of: base-128
 * varints, tags, and the fields of a message. Follows the Protocol Buffers Encoding guide,
 * sections "Base 128 Varints", "Message Structure" and "Length-Delimited Records".
 */
module Wire {
  import opened Base

  /** 128 to the power k. */
  function Pow128(k: nat): (p: nat)
    ensures p >= 1
  {
    if k == 0 then 1 else 128 * Pow128(k - 1)
  }

  function EncodeVarint(v: nat): (b: Bytes)
    ensures b != []
  {
    if v < 128 then [v as byte] else [(128 + v % 128) as byte] + EncodeVarint(v / 128)
  }

  /** The number of bytes of a varint, by comparing with each boundary. */
  function VarintSize(v: nat): nat
  {
    if v < 0x80 then 1
    else if v < 0x4000 then 2
    else if v < 0x20_0000 then 3
    else if v < 0x1000_0000 then 4
    else if v < 0x8_0000_0000 then 5
    else if v < 0x400_0000_0000 then 6
    else if v < 0x2_0000_0000_0000 then 7
    else if v < 0x100_0000_0000_0000 then 8
    else if v < 0x8000_0000_0000_0000 then 9
    else 10
  }

  /** A varint of at most `room` bytes at the front of `b`: its value and its length. */
  function ReadVarint(b: Bytes, room: nat): (r: Option<(nat, nat)>)
    ensures r.Some? ==> 1 <= r.value.1 <= |b| && r.value.1 <= room
    decreases |b|
  {
    if room == 0 || b == [] then None
    else if b[0] < 128 then Some((b[0] as nat, 1))
    else
      match ReadVarint(b[1..], room - 1)
      case None => None
      case Some((v, n)) => Some(((b[0] as nat - 128) + 128 * v, n + 1))
  }

  /** A 64-bit varint: at most ten bytes and below 2^64. */
  function ReadVarint64(b: Bytes): (r: Option<(nat, nat)>)
    ensures r.Some? ==> 1 <= r.value.1 <= |b|
  {
    var r := ReadVarint(b, 10);
    if r.Some? && r.value.0 < U64 then r else None
  }

  /** One field of a message. Group fields are not modelled. */
  datatype Field =
    | Varint(num: nat, v: nat)
    | Fixed64(num: nat, bits: Bytes)
    | Len(num: nat, body: Bytes)
    | Fixed32(num: nat, bits: Bytes)

  /** Splits `n` bytes off the front. */
  function Take(b: Bytes, n: nat): (r: Option<(Bytes, Bytes)>)
    ensures r.Some? <==> n <= |b|
    ensures r.Some? ==> b == r.value.0 + r.value.1 && |r.value.0| == n
  {
    if n <= |b| then Some((b[..n], b[n..])) else None
  }

  /** The payload of a field whose tag has been read, and what follows it. */
  function ReadPayload(tag: nat, b: Bytes): (r: Option<(Field, Bytes)>)
    ensures r.Some? ==> |r.value.1| <= |b|
    ensures r.Some? && r.value.0.Len? ==> |r.value.0.body| + |r.value.1| < |b|
  {
    var num := tag / 8;
    if num == 0 || tag >= U32 then None
    else match tag % 8
      case 0 =>
        (match ReadVarint64(b)
         case None => None
         case Some((v, n)) => Some((Varint(num, v), b[n..])))
      case 1 =>
        (match Take(b, 8)
         case None => None
         case Some((bits, rest)) => Some((Fixed64(num, bits), rest)))
      case 2 =>
        (match ReadVarint64(b)
         case None => None
         case Some((size, n)) =>
           match Take(b[n..], size)
           case None => None
           case Some((body, rest)) => Some((Len(num, body), rest)))
      case 5 =>
        (match Take(b, 4)
         case None => None
         case Some((bits, rest)) => Some((Fixed32(num, bits), rest)))
      case _ => None
  }

  /** The field `b` starts with, and what follows it. */
  function ReadField(b: Bytes): (r: Option<(Field, Bytes)>)
    ensures r.Some? ==> |r.value.1| < |b|
    ensures r.Some? && r.value.0.Len? ==> |r.value.0.body| + |r.value.1| < |b|
  {
    match ReadVarint64(b)
    case None => None
    case Some((tag, n)) => ReadPayload(tag, b[n..])
  }

  /** The fields of a message in order; None if the bytes are malformed. */
  function Fields(b: Bytes): Option<seq<Field>>
    decreases |b|
  {
    if b == [] then Some([])
    else
      match ReadField(b)
      case None => None
      case Some((f, rest)) =>
        match Fields(rest)
        case None => None
        case Some(fs) => Some([f] + fs)
  }

  /** A length-delimited field as the generated code writes it. The length prefix is given apart
      because the code takes it from a 32-bit cache. */
  function EncodeLen(num: nat, size: nat, body: Bytes): Bytes
  {
    EncodeVarint(8 * num + 2) + EncodeVarint(size) + body
  }

  // ---- properties ----

  lemma {:induction false} VarintLength(v: nat, k: nat)
    requires k >= 1 && v < Pow128(k)
    requires k >= 2 ==> Pow128(k - 1) <= v
    ensures |EncodeVarint(v)| == k
  {
    if k >= 2 {
      assert v >= 128 by { assert Pow128(k - 1) == 128 * Pow128(k - 2); }
      if k >= 3 {
        assert Pow128(k - 1) == 128 * Pow128(k - 2);
      }
      VarintLength(v / 128, k - 1);
    }
  }

  lemma Powers()
    ensures Pow128(1) == 0x80 && Pow128(2) == 0x4000 && Pow128(3) == 0x20_0000
    ensures Pow128(4) == 0x1000_0000 && Pow128(5) == 0x8_0000_0000
    ensures Pow128(6) == 0x400_0000_0000 && Pow128(7) == 0x2_0000_0000_0000
    ensures Pow128(8) == 0x100_0000_0000_0000 && Pow128(9) == 0x8000_0000_0000_0000
    ensures Pow128(10) == 0x40_0000_0000_0000_0000
  {
    assert Pow128(1) == 0x80;
    assert Pow128(2) == 0x4000;
    assert Pow128(3) == 0x20_0000;
    assert Pow128(4) == 0x1000_0000;
    assert Pow128(5) == 0x8_0000_0000;
    assert Pow128(6) == 0x400_0000_0000;
    assert Pow128(7) == 0x2_0000_0000_0000;
    assert Pow128(8) == 0x100_0000_0000_0000;
    assert Pow128(9) == 0x8000_0000_0000_0000;
  }

  /** The size function is exact across all ten boundaries. */
  lemma VarintSizeExact(v: nat)
    requires v < U64
    ensures |EncodeVarint(v)| == VarintSize(v)
  {
    Powers();
    VarintLength(v, VarintSize(v));
  }

  lemma {:induction false} ReadEncodedVarint(v: nat, rest: Bytes, room: nat)
    requires |EncodeVarint(v)| <= room
    ensures ReadVarint(EncodeVarint(v) + rest, room) == Some((v, |EncodeVarint(v)|))
    decreases v
  {
    if v >= 128 {
      ReadEncodedVarint(v / 128, rest, room - 1);
      assert (EncodeVarint(v) + rest)[1..] == EncodeVarint(v / 128) + rest;
    }
  }

  /** What the writer emits for a 64-bit value, the reader reads back, whatever follows. */
  lemma VarintRoundTrip(v: nat, rest: Bytes)
    requires v < U64
    ensures ReadVarint64(EncodeVarint(v) + rest) == Some((v, |EncodeVarint(v)|))
  {
    VarintSizeExact(v);
    ReadEncodedVarint(v, rest, 10);
  }

  lemma TakeFront(a: Bytes, b: Bytes)
    ensures Take(a + b, |a|) == Some((a, b))
    ensures (a + b)[|a|..] == b
  {
  }

  lemma LenPayloadRoundTrip(tag: nat, body: Bytes, rest: Bytes)
    requires 1 <= tag / 8 && tag % 8 == 2 && tag < U32 && |body| < U64
    ensures ReadPayload(tag, EncodeVarint(|body|) + (body + rest)) == Some((Len(tag / 8, body), rest))
  {
    VarintRoundTrip(|body|, body + rest);
    TakeFront(EncodeVarint(|body|), body + rest);
    TakeFront(body, rest);
  }

  /** A length-delimited field with a true length prefix is read back whole, whatever follows. */
  lemma LenFieldRoundTrip(num: nat, body: Bytes, rest: Bytes)
    requires 1 <= num && 8 * num + 2 < U32 && |body| < U64
    ensures ReadField(EncodeLen(num, |body|, body) + rest) == Some((Len(num, body), rest))
  {
    var tag := EncodeVarint(8 * num + 2);
    var after := EncodeVarint(|body|) + (body + rest);
    var all := EncodeLen(num, |body|, body) + rest;
    assert all == tag + after;
    VarintRoundTrip(8 * num + 2, after);
    TakeFront(tag, after);
    LenPayloadRoundTrip(8 * num + 2, body, rest);
  }

  lemma {:induction false} VarintPrefixStable(a: Bytes, b: Bytes, room: nat)
    requires ReadVarint(a, room).Some?
    ensures ReadVarint(a + b, room) == ReadVarint(a, room)
    decreases room
  {
    if a[0] >= 128 {
      assert (a + b)[1..] == a[1..] + b;
      VarintPrefixStable(a[1..], b, room - 1);
    }
  }

  lemma TakePrefixStable(a: Bytes, b: Bytes, n: nat)
    requires Take(a, n).Some?
    ensures Take(a + b, n) == Some((Take(a, n).value.0, Take(a, n).value.1 + b))
  {
    assert (a + b)[..n] == a[..n];
    assert (a + b)[n..] == a[n..] + b;
  }

  lemma PayloadPrefixStable(tag: nat, a: Bytes, b: Bytes)
    requires ReadPayload(tag, a).Some?
    ensures ReadPayload(tag, a + b) ==
            Some((ReadPayload(tag, a).value.0, ReadPayload(tag, a).value.1 + b))
  {
    match tag % 8
    case 0 =>
      VarintPrefixStable(a, b, 10);
      TakePrefixStable(a, b, ReadVarint64(a).value.1);
    case 1 => TakePrefixStable(a, b, 8);
    case 2 =>
      VarintPrefixStable(a, b, 10);
      var (size, n) := ReadVarint64(a).value;
      TakePrefixStable(a, b, n);
      TakePrefixStable(a[n..], b, size);
    case _ => TakePrefixStable(a, b, 4);
  }

  /** Bytes appended after a complete field do not change how it is read. */
  lemma FieldPrefixStable(a: Bytes, b: Bytes)
    requires ReadField(a).Some?
    ensures ReadField(a + b) == Some((ReadField(a).value.0, ReadField(a).value.1 + b))
  {
    VarintPrefixStable(a, b, 10);
    var n := ReadVarint64(a).value.1;
    assert (a + b)[n..] == a[n..] + b;
    PayloadPrefixStable(ReadVarint64(a).value.0, a[n..], b);
  }

  // ---- the forms themselves, apart from the reader and the writer ----

  /** Base 128, least significant group first. */
  function Value(b: Bytes): nat {
    if b == [] then 0 else b[0] as nat % 128 + 128 * Value(b[1..])
  }

  /** Every byte but the last has its continuation bit set. */
  predicate IsVarint(b: Bytes) {
    b != [] && b[|b| - 1] < 128 && forall i :: 0 <= i < |b| - 1 ==> b[i] >= 128
  }

  /** The writer emits the shortest varint of its value. */
  lemma {:induction false} VarintMeaning(v: nat)
    ensures var b := EncodeVarint(v); IsVarint(b) && Value(b) == v && (|b| > 1 ==> b[|b| - 1] > 0)
    decreases v
  {
    if v >= 128 {
      VarintMeaning(v / 128);
      var b, tail := EncodeVarint(v), EncodeVarint(v / 128);
      assert b[1..] == tail && b[|b| - 1] == tail[|tail| - 1];
      assert forall i :: 1 <= i < |b| - 1 ==> b[i] == tail[i - 1];
    }
  }

  /** The reader accepts exactly the varints of at most `room` bytes, and yields their value. */
  lemma {:induction false} ReadVarintExact(b: Bytes, room: nat, n: nat)
    ensures (exists v :: ReadVarint(b, room) == Some((v, n))) <==> n <= |b| && n <= room && IsVarint(b[..n])
    ensures n <= |b| && n <= room && IsVarint(b[..n]) ==> ReadVarint(b, room) == Some((Value(b[..n]), n))
    decreases |b|
  {
    if room > 0 && b != [] {
      if b[0] < 128 {
        if 1 <= n <= |b| {
          var f := b[..n];
          assert f[0] == b[0];
          assert n == 1 ==> f[1..] == [];
        }
      } else if n > 0 {
        ReadVarintExact(b[1..], room - 1, n - 1);
        if n <= |b| {
          var f := b[..n];
          assert f[1..] == b[1..][..n - 1];
          ContinuedVarint(f);
        }
      }
    }
  }

  /** Of those it takes the ones of at most ten bytes and below 2^64. */
  lemma ReadVarint64Exact(b: Bytes, n: nat)
    ensures (exists v :: ReadVarint64(b) == Some((v, n))) <==>
            n <= |b| && n <= 10 && IsVarint(b[..n]) && Value(b[..n]) < 0x1_0000_0000_0000_0000
    ensures n <= |b| && n <= 10 && IsVarint(b[..n]) && Value(b[..n]) < 0x1_0000_0000_0000_0000 ==>
              ReadVarint64(b) == Some((Value(b[..n]), n))
  {
    ReadVarintExact(b, 10, n);
    if v :| ReadVarint64(b) == Some((v, n)) {
      assert ReadVarint(b, 10) == Some((v, n));
    }
  }

  lemma ContinuedVarint(f: Bytes)
    requires f != [] && f[0] >= 128
    ensures IsVarint(f) <==> IsVarint(f[1..])
    ensures Value(f) == f[0] as nat - 128 + 128 * Value(f[1..])
  {
    assert forall i :: 1 <= i < |f| ==> f[i] == f[1..][i - 1];
  }

  /** A tag, then the payload. */
  lemma TaggedField(tag: nat, after: Bytes)
    requires tag < U64
    ensures ReadField(EncodeVarint(tag) + after) == ReadPayload(tag, after)
  {
    VarintRoundTrip(tag, after);
    TakeFront(EncodeVarint(tag), after);
  }

  /** The wire types: 0 is a varint, */
  lemma VarintForm(num: nat, v: nat, rest: Bytes)
    requires 1 <= num && 8 * num < U32 && v < U64
    ensures ReadField(EncodeVarint(8 * num) + (EncodeVarint(v) + rest)) == Some((Varint(num, v), rest))
  {
    TaggedField(8 * num, EncodeVarint(v) + rest);
    VarintRoundTrip(v, rest);
    TakeFront(EncodeVarint(v), rest);
  }

  /** 1 eight bytes and 5 four bytes; */
  lemma FixedForm(num: nat, bits: Bytes, rest: Bytes)
    requires 1 <= num && 8 * num + 5 < U32
    ensures |bits| == 8 ==> ReadField(EncodeVarint(8 * num + 1) + (bits + rest)) == Some((Fixed64(num, bits), rest))
    ensures |bits| == 4 ==> ReadField(EncodeVarint(8 * num + 5) + (bits + rest)) == Some((Fixed32(num, bits), rest))
  {
    TaggedField(8 * num + 1, bits + rest);
    TaggedField(8 * num + 5, bits + rest);
    TakeFront(bits, rest);
    assert (8 * num + 1) / 8 == num && (8 * num + 1) % 8 == 1 && (8 * num + 5) / 8 == num && (8 * num + 5) % 8 == 5;
  }

  /** 2 is length-delimited. */
  lemma LenForm(num: nat, body: Bytes, rest: Bytes)
    requires 1 <= num && 8 * num + 2 < U32 && |body| < U64
    ensures ReadField(EncodeVarint(8 * num + 2) + (EncodeVarint(|body|) + (body + rest))) == Some((Len(num, body), rest))
  {
    TaggedField(8 * num + 2, EncodeVarint(|body|) + (body + rest));
    LenPayloadRoundTrip(8 * num + 2, body, rest);
  }

  /** No other wire type is read, nor a field without a number or a tag over 32 bits. */
  lemma BadTag(tag: nat, after: Bytes)
    requires tag < U64 && (tag % 8 in [3, 4, 6, 7] || tag < 8 || tag >= U32)
    ensures ReadField(EncodeVarint(tag) + after) == None
  {
    TaggedField(tag, after);
  }
}
