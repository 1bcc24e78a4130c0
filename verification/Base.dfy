/** Types every other module shares: bytes, UTF-8 text, options. */
module Base {

  newtype byte = x: int | 0 <= x < 256

  type Bytes = seq<byte>

  datatype Option<+T> = None | Some(value: T)

  const U16: nat := 0x1_0000
  const U32: nat := 0x1_0000_0000
  const U64: nat := 0x1_0000_0000_0000_0000

  /** A UTF-8 continuation byte. */
  predicate Continues(b: byte) {
    0x80 <= b < 0xC0
  }

  /** The length of the well-formed UTF-8 character `b` starts with, 0 if it starts with none
      (the table of well-formed byte sequences in section 4 of RFC 3629). */
  function CharLength(b: Bytes): (n: nat)
    requires b != []
    ensures n <= |b|
  {
    if b[0] < 0x80 then 1
    else if |b| >= 2 && 0xC2 <= b[0] < 0xE0 && Continues(b[1]) then 2
    else if |b| >= 3 && 0xE0 <= b[0] < 0xF0 && Continues(b[1]) && Continues(b[2])
            && (b[0] == 0xE0 ==> 0xA0 <= b[1]) && (b[0] == 0xED ==> b[1] < 0xA0) then 3
    else if |b| >= 4 && 0xF0 <= b[0] < 0xF5 && Continues(b[1]) && Continues(b[2]) && Continues(b[3])
            && (b[0] == 0xF0 ==> 0x90 <= b[1]) && (b[0] == 0xF4 ==> b[1] < 0x90) then 4
    else 0
  }

  predicate ValidUtf8(b: Bytes)
    decreases |b|
  {
    b == [] || (var n := CharLength(b); n > 0 && ValidUtf8(b[n..]))
  }

  /** A Unicode scalar value and its encoding (section 3 of RFC 3629). */
  predicate IsScalar(v: nat) {
    v < 0xD800 || 0xE000 <= v < 0x11_0000
  }

  function Utf8(v: nat): Bytes
    requires IsScalar(v)
  {
    if v < 0x80 then [v as byte]
    else if v < 0x800 then [(0xC0 + v / 64) as byte, (0x80 + v % 64) as byte]
    else if v < 0x1_0000 then [(0xE0 + v / 64 / 64) as byte, (0x80 + v / 64 % 64) as byte, (0x80 + v % 64) as byte]
    else [(0xF0 + v / 64 / 64 / 64) as byte, (0x80 + v / 64 / 64 % 64) as byte, (0x80 + v / 64 % 64) as byte, (0x80 + v % 64) as byte]
  }

  lemma SixBits(high: nat, low: byte)
    requires Continues(low)
    ensures var v := high * 64 + (low as nat - 0x80); v / 64 == high && (0x80 + v % 64) == low as nat
  {
  }

  /** What CharLength recognises is the encoding of a scalar value, */
  lemma CharIsEncoded(b: Bytes) returns (v: nat)
    requires b != [] && CharLength(b) > 0
    ensures IsScalar(v) && Utf8(v) == b[..CharLength(b)]
  {
    if b[0] < 0x80 {
      v := b[0] as nat;
    } else if b[0] < 0xE0 {
      v := TwoBytes(b);
    } else if b[0] < 0xF0 {
      v := ThreeBytes(b);
    } else {
      v := FourBytes(b);
    }
  }

  lemma TwoBytes(b: Bytes) returns (v: nat)
    requires b != [] && 0x80 <= b[0] < 0xE0 && CharLength(b) > 0
    ensures IsScalar(v) && Utf8(v) == b[..CharLength(b)]
  {
    var h := b[0] as nat - 0xC0;
    v := h * 64 + (b[1] as nat - 0x80);
    SixBits(h, b[1]);
  }

  lemma ThreeBytes(b: Bytes) returns (v: nat)
    requires b != [] && 0xE0 <= b[0] < 0xF0 && CharLength(b) > 0
    ensures IsScalar(v) && Utf8(v) == b[..CharLength(b)]
  {
    var h := b[0] as nat - 0xE0;
    var m := h * 64 + (b[1] as nat - 0x80);
    v := m * 64 + (b[2] as nat - 0x80);
    SixBits(h, b[1]);
    SixBits(m, b[2]);
  }

  lemma FourBytes(b: Bytes) returns (v: nat)
    requires b != [] && 0xF0 <= b[0] && CharLength(b) > 0
    ensures IsScalar(v) && Utf8(v) == b[..CharLength(b)]
  {
    var h := b[0] as nat - 0xF0;
    var m := h * 64 + (b[1] as nat - 0x80);
    var l := m * 64 + (b[2] as nat - 0x80);
    v := l * 64 + (b[3] as nat - 0x80);
    SixBits(h, b[1]);
    SixBits(m, b[2]);
    SixBits(l, b[3]);
  }

  /** and it recognises every one. */
  lemma EncodedIsChar(v: nat, rest: Bytes)
    requires IsScalar(v)
    ensures CharLength(Utf8(v) + rest) == |Utf8(v)|
  {
  }

  function EncodedAll(vs: seq<nat>): Bytes
    requires forall i :: 0 <= i < |vs| ==> IsScalar(vs[i])
  {
    if vs == [] then [] else Utf8(vs[0]) + EncodedAll(vs[1..])
  }

  /** Valid text is a sequence of encoded scalar values, */
  lemma {:induction false} ValidIsEncoded(b: Bytes) returns (vs: seq<nat>)
    requires ValidUtf8(b)
    ensures (forall i :: 0 <= i < |vs| ==> IsScalar(vs[i])) && EncodedAll(vs) == b
    decreases |b|
  {
    if b == [] {
      vs := [];
    } else {
      var v := CharIsEncoded(b);
      var n := CharLength(b);
      var rest := ValidIsEncoded(b[n..]);
      vs := [v] + rest;
      assert vs[1..] == rest && b == b[..n] + b[n..];
    }
  }

  /** and every such sequence is valid. */
  lemma {:induction false} EncodedIsValid(vs: seq<nat>)
    requires forall i :: 0 <= i < |vs| ==> IsScalar(vs[i])
    ensures ValidUtf8(EncodedAll(vs))
  {
    if vs != [] {
      EncodedIsChar(vs[0], EncodedAll(vs[1..]));
      EncodedIsValid(vs[1..]);
      var b := EncodedAll(vs);
      assert b[|Utf8(vs[0])|..] == EncodedAll(vs[1..]);
    }
  }

  /** A Rust `String`: bytes that are valid UTF-8. */
  type Text = b: Bytes | ValidUtf8(b) witness []

  /** The name a peer registers under. */
  type Id = Text

  /** The longest printed socket address: an IPv6 address with scope id and port. */
  const MAX_ADDR: nat := 58

  /** A socket address, represented by the text it prints as. Only equality of addresses matters. */
  type SocketAddr = t: Text | 1 <= |t| <= MAX_ADDR witness AddrWitness()

  function AddrWitness(): (t: Text)
    ensures |t| == 1
  {
    assert ValidUtf8([0x3A][1..]);
    [0x3A]
  }

  /** SocketAddr's FromStr, of which only what a lemma asks for is known. */
  type AddrParser = Text -> Option<SocketAddr>
}
