/**
 * src/proto/rndz.rs: what the generated merge_from, compute_size and write_to_with_cached_sizes
 * compute, as functions of the bytes, and the laws that tie them together. The loops themselves
 * are in CodedStreams.
 */
module Codec {
  import opened Base
  import opened Messages
  import opened Wire

  // ---- reading ----

  /** The loop of every merge_from: `step` is the match on the tag. */
  function Merge<M>(step: (M, Field) -> Option<M>, m: M, b: Bytes): Option<M>
    decreases |b|
  {
    if b == [] then Some(m)
    else
      match ReadField(b)
      case None => None
      case Some((f, rest)) =>
        match step(m, f)
        case None => None
        case Some(m') => Merge(step, m', rest)
  }

  function AsText(b: Bytes): Option<Text> {
    if ValidUtf8(b) then Some(b) else None
  }

  /** Ping, Pong and Bye have no fields: every field is unknown. */
  function EmptyStep(m: (), f: Field): Option<()> {
    Some(m)
  }

  /** Isync and Rsync. */
  function IdStep(id: Id, f: Field): Option<Id> {
    if f.Len? && f.num == 1 then AsText(f.body) else Some(id)
  }

  /** Fsync and Redirect. */
  function PairStep(m: (Id, Text), f: Field): Option<(Id, Text)> {
    if f.Len? && f.num == 1 then
      (match AsText(f.body) case None => None case Some(t) => Some((t, m.1)))
    else if f.Len? && f.num == 2 then
      (match AsText(f.body) case None => None case Some(t) => Some((m.0, t)))
    else Some(m)
  }

  function ParseEmpty(b: Bytes): Option<()> { Merge<()>(EmptyStep, (), b) }
  function ParseId(b: Bytes): Option<Id> { Merge<Id>(IdStep, [], b) }
  function ParsePair(b: Bytes): Option<(Id, Text)> { Merge<(Id, Text)>(PairStep, ([], []), b) }

  /** A request sub-message: each arm starts from a new message, so an earlier one is replaced. */
  function ParseReqCmd(num: nat, b: Bytes): Option<ReqCmd>
    requires 2 <= num <= 6
  {
    match num
    case 2 => (match ParseEmpty(b) case None => None case Some(_) => Some(Ping))
    case 3 => (match ParseId(b) case None => None case Some(id) => Some(Isync(id)))
    case 4 => (match ParsePair(b) case None => None case Some((id, addr)) => Some(Fsync(id, addr)))
    case 5 => (match ParseId(b) case None => None case Some(id) => Some(Rsync(id)))
    case 6 => (match ParseEmpty(b) case None => None case Some(_) => Some(Bye))
  }

  function ReqStep(m: Request, f: Field): Option<Request> {
    if f.Len? && f.num == 1 then
      (match AsText(f.body) case None => None case Some(t) => Some(m.(id := t)))
    else if f.Len? && 2 <= f.num <= 6 then
      (match ParseReqCmd(f.num, f.body) case None => None case Some(c) => Some(m.(cmd := Some(c))))
    else Some(m)
  }

  function ParseRespCmd(num: nat, b: Bytes): Option<RespCmd>
    requires 2 <= num <= 4
  {
    match num
    case 2 => (match ParseEmpty(b) case None => None case Some(_) => Some(Pong))
    case 3 => (match ParsePair(b) case None => None case Some((id, addr)) => Some(Redirect(id, addr)))
    case 4 => (match ParsePair(b) case None => None case Some((id, addr)) => Some(FsyncResp(id, addr)))
  }

  function RespStep(m: Response, f: Field): Option<Response> {
    if f.Len? && f.num == 1 then
      (match AsText(f.body) case None => None case Some(t) => Some(m.(id := t)))
    else if f.Len? && 2 <= f.num <= 4 then
      (match ParseRespCmd(f.num, f.body) case None => None case Some(c) => Some(m.(cmd := Some(c))))
    else Some(m)
  }

  const NEW_REQUEST := Request([], None)
  const NEW_RESPONSE := Response([], None)

  function ParseRequest(b: Bytes): Option<Request> { Merge(ReqStep, NEW_REQUEST, b) }
  function ParseResponse(b: Bytes): Option<Response> { Merge(RespStep, NEW_RESPONSE, b) }

  // ---- writing ----

  /** special_fields.cached_size().set(my_size as u32) */
  function Cached(size: nat): nat { size % U32 }

  function EncodeText(num: nat, t: Text): Bytes {
    if t == [] then [] else EncodeLen(num, |t|, t)
  }

  function EncodePair(id: Id, addr: Text): Bytes {
    EncodeText(1, id) + EncodeText(2, addr)
  }

  function ReqNum(c: ReqCmd): nat {
    match c case Ping => 2 case Isync(_) => 3 case Fsync(_, _) => 4 case Rsync(_) => 5 case Bye => 6
  }

  function ReqBody(c: ReqCmd): Bytes {
    match c
    case Ping => []
    case Isync(id) => EncodeText(1, id)
    case Fsync(id, addr) => EncodePair(id, addr)
    case Rsync(id) => EncodeText(1, id)
    case Bye => []
  }

  function RespNum(c: RespCmd): nat {
    match c case Pong => 2 case Redirect(_, _) => 3 case FsyncResp(_, _) => 4
  }

  function RespBody(c: RespCmd): Bytes {
    match c
    case Pong => []
    case Redirect(id, addr) => EncodePair(id, addr)
    case FsyncResp(id, addr) => EncodePair(id, addr)
  }

  /** write_message_field_with_cached_size: the length prefix is the 32-bit cached size. */
  function EncodeMessage(num: nat, body: Bytes): Bytes {
    EncodeLen(num, Cached(|body|), body)
  }

  function EncodeRequest(m: Request): Bytes {
    EncodeText(1, m.id) + match m.cmd case None => [] case Some(c) => EncodeMessage(ReqNum(c), ReqBody(c))
  }

  function EncodeResponse(m: Response): Bytes {
    EncodeText(1, m.id) + match m.cmd case None => [] case Some(c) => EncodeMessage(RespNum(c), RespBody(c))
  }

  // ---- sizes ----

  /** string_size, guarded as in compute_size. */
  function TextSize(t: Text): nat {
    if t == [] then 0 else 1 + VarintSize(|t|) + |t|
  }

  function ReqBodySize(c: ReqCmd): nat {
    match c
    case Ping => 0
    case Isync(id) => TextSize(id)
    case Fsync(id, addr) => TextSize(id) + TextSize(addr)
    case Rsync(id) => TextSize(id)
    case Bye => 0
  }

  function RespBodySize(c: RespCmd): nat {
    match c
    case Pong => 0
    case Redirect(id, addr) => TextSize(id) + TextSize(addr)
    case FsyncResp(id, addr) => TextSize(id) + TextSize(addr)
  }

  function MessageSize(body: nat): nat { 1 + VarintSize(body) + body }

  function RequestSize(m: Request): nat {
    TextSize(m.id) + if m.cmd.Some? then MessageSize(ReqBodySize(m.cmd.value)) else 0
  }

  function ResponseSize(m: Response): nat {
    TextSize(m.id) + if m.cmd.Some? then MessageSize(RespBodySize(m.cmd.value)) else 0
  }

  /** The id fits a 64-bit length and the sub-message its 32-bit cached size. */
  predicate RequestFits(m: Request) {
    |m.id| < U64 && (m.cmd.Some? ==> ReqBodySize(m.cmd.value) < U32)
  }

  predicate ResponseFits(m: Response) {
    |m.id| < U64 && (m.cmd.Some? ==> RespBodySize(m.cmd.value) < U32)
  }

  /** The number of string bytes a request carries. */
  function Weight(m: Request): nat {
    |m.id| + if m.cmd.Some? then CmdWeight(m.cmd.value) else 0
  }

  function CmdWeight(c: ReqCmd): nat {
    match c
    case Isync(id) => |id|
    case Rsync(id) => |id|
    case Fsync(id, addr) => |id| + |addr|
    case _ => 0
  }

  function RespCmdWeight(c: RespCmd): nat {
    match c
    case Redirect(id, addr) => |id| + |addr|
    case FsyncResp(id, addr) => |id| + |addr|
    case Pong => 0
  }

  // ---- concatenation ----

  /** Merging is a homomorphism: the bytes may be merged in two goes, cut at a field boundary. */
  lemma {:induction false} MergeConcat<M>(step: (M, Field) -> Option<M>, m: M, a: Bytes, b: Bytes)
    requires Merge(step, m, a).Some?
    ensures Merge(step, m, a + b) == Merge(step, Merge(step, m, a).value, b)
    decreases |a|
  {
    if a == [] {
      assert a + b == b;
    } else {
      FieldPrefixStable(a, b);
      var (f, rest) := ReadField(a).value;
      MergeConcat(step, step(m, f).value, rest, b);
    }
  }

  /** One whole field at the front is one step. */
  lemma MergeLenField<M>(step: (M, Field) -> Option<M>, m: M, num: nat, body: Bytes, rest: Bytes)
    requires 1 <= num && 8 * num + 2 < U32 && |body| < U64
    ensures Merge(step, m, EncodeLen(num, |body|, body) + rest) ==
            match step(m, Len(num, body)) case None => None case Some(m') => Merge(step, m', rest)
  {
    LenFieldRoundTrip(num, body, rest);
  }

  lemma MergeOneField<M>(step: (M, Field) -> Option<M>, m: M, num: nat, body: Bytes)
    requires 1 <= num <= 6 && |body| < U32
    ensures Merge(step, m, EncodeMessage(num, body)) == step(m, Len(num, body))
  {
    assert EncodeMessage(num, body) == EncodeLen(num, |body|, body) + [];
    MergeLenField(step, m, num, body, []);
  }

  /** The fold of a step over a list of fields. */
  function MergeFields<M>(step: (M, Field) -> Option<M>, m: M, fs: seq<Field>): Option<M> {
    if fs == [] then Some(m)
    else match step(m, fs[0]) case None => None case Some(m') => MergeFields(step, m', fs[1..])
  }

  lemma {:induction false} MergeIsFold<M>(step: (M, Field) -> Option<M>, m: M, b: Bytes)
    requires Fields(b).Some?
    ensures Merge(step, m, b) == MergeFields(step, m, Fields(b).value)
    decreases |b|
  {
    if b != [] {
      var (f, rest) := ReadField(b).value;
      if step(m, f).Some? {
        MergeIsFold(step, step(m, f).value, rest);
      }
    }
  }

  lemma {:induction false} MergeNeedsFields<M>(step: (M, Field) -> Option<M>, m: M, b: Bytes)
    requires Merge(step, m, b).Some?
    ensures Fields(b).Some?
    decreases |b|
  {
    if b != [] {
      var (f, rest) := ReadField(b).value;
      MergeNeedsFields(step, step(m, f).value, rest);
    }
  }

  predicate IsIdField(f: Field) { f.Len? && f.num == 1 }
  predicate IsAddrField(f: Field) { f.Len? && f.num == 2 }
  predicate IsReqCmdField(f: Field) { f.Len? && 2 <= f.num <= 6 }
  predicate IsRespCmdField(f: Field) { f.Len? && 2 <= f.num <= 4 }

  /** A known field whose contents the parser accepts; unknown fields are always accepted. */
  predicate GoodIdField(f: Field) { IsIdField(f) ==> ValidUtf8(f.body) }
  predicate GoodPairField(f: Field) { IsIdField(f) || IsAddrField(f) ==> ValidUtf8(f.body) }
  predicate GoodReqField(f: Field) { GoodIdField(f) && (IsReqCmdField(f) ==> ParseReqCmd(f.num, f.body).Some?) }
  predicate GoodRespField(f: Field) { GoodIdField(f) && (IsRespCmdField(f) ==> ParseRespCmd(f.num, f.body).Some?) }

  ghost predicate AllGood(good: Field -> bool, fs: seq<Field>) {
    forall i :: 0 <= i < |fs| ==> good(fs[i])
  }

  /** The position of the last field satisfying `p`, -1 if none does. */
  function LastIndex(p: Field -> bool, fs: seq<Field>): (i: int)
    ensures -1 <= i < |fs|
    ensures i >= 0 ==> p(fs[i])
    ensures forall j :: i < j < |fs| ==> !p(fs[j])
  {
    if fs == [] then -1
    else if p(fs[|fs| - 1]) then |fs| - 1
    else LastIndex(p, fs[..|fs| - 1])
  }

  /** What the last field satisfying `p` holds, `v0` if none does. */
  function LastOf<V>(p: Field -> bool, val: Field -> V, fs: seq<Field>, v0: V): V {
    var i := LastIndex(p, fs);
    if i < 0 then v0 else val(fs[i])
  }

  lemma {:induction false} FoldSnoc<M>(step: (M, Field) -> Option<M>, m: M, fs: seq<Field>)
    requires fs != []
    ensures MergeFields(step, m, fs) ==
            match MergeFields(step, m, fs[..|fs| - 1]) case None => None case Some(m') => step(m', fs[|fs| - 1])
  {
    var init := fs[..|fs| - 1];
    if |fs| > 1 {
      assert init[0] == fs[0] && init[1..] == fs[1..][..|fs[1..]| - 1];
      if step(m, fs[0]).Some? {
        FoldSnoc(step, step(m, fs[0]).value, fs[1..]);
      }
    } else {
      assert fs[1..] == [];
    }
  }

  /** A step accepts exactly the good fields, and sets a part of the message from exactly the fields
      that satisfy `p`, each on its own. */
  ghost predicate Sets<M(!new), V>(
      step: (M, Field) -> Option<M>, good: Field -> bool, get: M -> V, p: Field -> bool, val: Field -> V)
  {
    forall m, f {:trigger step(m, f)} ::
      && (step(m, f).Some? <==> good(f))
      && (good(f) ==> get(step(m, f).value) == if p(f) then val(f) else get(m))
  }

  lemma {:induction false} FoldLastWins<M(!new), V>(
      step: (M, Field) -> Option<M>, good: Field -> bool, get: M -> V, p: Field -> bool, val: Field -> V,
      m0: M, fs: seq<Field>)
    requires Sets(step, good, get, p, val)
    ensures MergeFields(step, m0, fs).Some? <==> AllGood(good, fs)
    ensures AllGood(good, fs) ==> get(MergeFields(step, m0, fs).value) == LastOf(p, val, fs, get(m0))
    decreases |fs|
  {
    if fs != [] {
      var init := fs[..|fs| - 1];
      FoldSnoc(step, m0, fs);
      FoldLastWins(step, good, get, p, val, m0, init);
    }
  }

  /** Merging succeeds exactly on well-formed, good fields, and each part is then the last one given,
      whatever other fields lie between. */
  lemma LastWins<M(!new), V>(
      step: (M, Field) -> Option<M>, good: Field -> bool, get: M -> V, p: Field -> bool, val: Field -> V,
      m0: M, b: Bytes)
    requires Sets(step, good, get, p, val)
    ensures Merge(step, m0, b).Some? <==> Fields(b).Some? && AllGood(good, Fields(b).value)
    ensures Merge(step, m0, b).Some? ==>
              get(Merge(step, m0, b).value) == LastOf(p, val, Fields(b).value, get(m0))
  {
    if Merge(step, m0, b).Some? {
      MergeNeedsFields(step, m0, b);
    }
    if Fields(b).Some? {
      MergeIsFold(step, m0, b);
      FoldLastWins(step, good, get, p, val, m0, Fields(b).value);
    }
  }

  function TextOf(f: Field): Text { if f.Len? && ValidUtf8(f.body) then f.body else [] }
  function ReqCmdOf(f: Field): Option<ReqCmd> { if IsReqCmdField(f) then ParseReqCmd(f.num, f.body) else None }
  function RespCmdOf(f: Field): Option<RespCmd> { if IsRespCmdField(f) then ParseRespCmd(f.num, f.body) else None }

  function LastId(fs: seq<Field>): Text { LastOf<Text>(IsIdField, TextOf, fs, []) }
  function LastAddr(fs: seq<Field>): Text { LastOf<Text>(IsAddrField, TextOf, fs, []) }
  function LastReqCmd(fs: seq<Field>): Option<ReqCmd> { LastOf<Option<ReqCmd>>(IsReqCmdField, ReqCmdOf, fs, None) }
  function LastRespCmd(fs: seq<Field>): Option<RespCmd> { LastOf<Option<RespCmd>>(IsRespCmdField, RespCmdOf, fs, None) }

  function RequestId(m: Request): Id { m.id }
  function RequestCmd(m: Request): Option<ReqCmd> { m.cmd }
  function ResponseId(m: Response): Id { m.id }
  function ResponseCmd(m: Response): Option<RespCmd> { m.cmd }
  function Whole(id: Id): Id { id }
  function First(m: (Id, Text)): Id { m.0 }
  function Second(m: (Id, Text)): Text { m.1 }

  lemma RequestIdSets()
    ensures Sets<Request, Id>(ReqStep, GoodReqField, RequestId, IsIdField, TextOf)
  {
    forall m: Request, f: Field
      ensures (ReqStep(m, f).Some? <==> GoodReqField(f)) &&
              (GoodReqField(f) ==> RequestId(ReqStep(m, f).value) == if IsIdField(f) then TextOf(f) else RequestId(m))
    {
    }
  }

  lemma RequestCmdSets()
    ensures Sets<Request, Option<ReqCmd>>(ReqStep, GoodReqField, RequestCmd, IsReqCmdField, ReqCmdOf)
  {
    forall m: Request, f: Field
      ensures (ReqStep(m, f).Some? <==> GoodReqField(f)) &&
              (GoodReqField(f) ==> RequestCmd(ReqStep(m, f).value) == if IsReqCmdField(f) then ReqCmdOf(f) else RequestCmd(m))
    {
    }
  }

  lemma ResponseIdSets()
    ensures Sets<Response, Id>(RespStep, GoodRespField, ResponseId, IsIdField, TextOf)
  {
    forall m: Response, f: Field
      ensures (RespStep(m, f).Some? <==> GoodRespField(f)) &&
              (GoodRespField(f) ==> ResponseId(RespStep(m, f).value) == if IsIdField(f) then TextOf(f) else ResponseId(m))
    {
    }
  }

  lemma ResponseCmdSets()
    ensures Sets<Response, Option<RespCmd>>(RespStep, GoodRespField, ResponseCmd, IsRespCmdField, RespCmdOf)
  {
    forall m: Response, f: Field
      ensures (RespStep(m, f).Some? <==> GoodRespField(f)) &&
              (GoodRespField(f) ==> ResponseCmd(RespStep(m, f).value) == if IsRespCmdField(f) then RespCmdOf(f) else ResponseCmd(m))
    {
    }
  }

  lemma WholeSets()
    ensures Sets<Id, Id>(IdStep, GoodIdField, Whole, IsIdField, TextOf)
  {
    forall m: Id, f: Field
      ensures (IdStep(m, f).Some? <==> GoodIdField(f)) &&
              (GoodIdField(f) ==> Whole(IdStep(m, f).value) == if IsIdField(f) then TextOf(f) else Whole(m))
    {
    }
  }

  lemma FirstSets()
    ensures Sets<(Id, Text), Id>(PairStep, GoodPairField, First, IsIdField, TextOf)
  {
    forall m: (Id, Text), f: Field
      ensures (PairStep(m, f).Some? <==> GoodPairField(f)) &&
              (GoodPairField(f) ==> First(PairStep(m, f).value) == if IsIdField(f) then TextOf(f) else First(m))
    {
    }
  }

  lemma SecondSets()
    ensures Sets<(Id, Text), Text>(PairStep, GoodPairField, Second, IsAddrField, TextOf)
  {
    forall m: (Id, Text), f: Field
      ensures (PairStep(m, f).Some? <==> GoodPairField(f)) &&
              (GoodPairField(f) ==> Second(PairStep(m, f).value) == if IsAddrField(f) then TextOf(f) else Second(m))
    {
    }
  }

  /** Parsing succeeds exactly on well-formed fields with acceptable contents, and then the last id
      and the last command win, whatever unknown fields lie between them. A repeated command is
      replaced, not merged. */
  lemma RequestLastWins(b: Bytes)
    ensures ParseRequest(b).Some? <==> Fields(b).Some? && AllGood(GoodReqField, Fields(b).value)
    ensures ParseRequest(b).Some? ==>
              var fs := Fields(b).value;
              ParseRequest(b).value == Request(LastId(fs), LastReqCmd(fs))
  {
    RequestIdSets();
    RequestCmdSets();
    LastWins<Request, Id>(ReqStep, GoodReqField, RequestId, IsIdField, TextOf, NEW_REQUEST, b);
    LastWins<Request, Option<ReqCmd>>(ReqStep, GoodReqField, RequestCmd, IsReqCmdField, ReqCmdOf, NEW_REQUEST, b);
  }

  /** The same for responses. */
  lemma ResponseLastWins(b: Bytes)
    ensures ParseResponse(b).Some? <==> Fields(b).Some? && AllGood(GoodRespField, Fields(b).value)
    ensures ParseResponse(b).Some? ==>
              var fs := Fields(b).value;
              ParseResponse(b).value == Response(LastId(fs), LastRespCmd(fs))
  {
    ResponseIdSets();
    ResponseCmdSets();
    LastWins<Response, Id>(RespStep, GoodRespField, ResponseId, IsIdField, TextOf, NEW_RESPONSE, b);
    LastWins<Response, Option<RespCmd>>(RespStep, GoodRespField, ResponseCmd, IsRespCmdField, RespCmdOf, NEW_RESPONSE, b);
  }

  /** And for the sub-messages: Isync and Rsync, */
  lemma IdLastWins(b: Bytes)
    ensures ParseId(b).Some? <==> Fields(b).Some? && AllGood(GoodIdField, Fields(b).value)
    ensures ParseId(b).Some? ==> ParseId(b).value == LastId(Fields(b).value)
  {
    WholeSets();
    LastWins<Id, Id>(IdStep, GoodIdField, Whole, IsIdField, TextOf, [], b);
  }

  /** Fsync and Redirect. */
  lemma PairLastWins(b: Bytes)
    ensures ParsePair(b).Some? <==> Fields(b).Some? && AllGood(GoodPairField, Fields(b).value)
    ensures ParsePair(b).Some? ==>
              var fs := Fields(b).value;
              ParsePair(b).value == (LastId(fs), LastAddr(fs))
  {
    FirstSets();
    SecondSets();
    LastWins<(Id, Text), Id>(PairStep, GoodPairField, First, IsIdField, TextOf, ([], []), b);
    LastWins<(Id, Text), Text>(PairStep, GoodPairField, Second, IsAddrField, TextOf, ([], []), b);
  }

  // ---- sizes are exact ----

  lemma TextSizeExact(num: nat, t: Text)
    requires 1 <= num <= 2 && |t| < U64
    ensures |EncodeText(num, t)| == TextSize(t)
  {
    if t != [] {
      VarintSizeExact(|t|);
    }
  }

  lemma ReqBodySizeExact(c: ReqCmd)
    requires CmdWeight(c) < U64
    ensures |ReqBody(c)| == ReqBodySize(c)
  {
    match c
    case Isync(id) => TextSizeExact(1, id);
    case Rsync(id) => TextSizeExact(1, id);
    case Fsync(id, addr) => TextSizeExact(1, id); TextSizeExact(2, addr);
    case _ =>
  }

  lemma RespBodySizeExact(c: RespCmd)
    requires RespCmdWeight(c) < U64
    ensures |RespBody(c)| == RespBodySize(c)
  {
    match c
    case Redirect(id, addr) => TextSizeExact(1, id); TextSizeExact(2, addr);
    case FsyncResp(id, addr) => TextSizeExact(1, id); TextSizeExact(2, addr);
    case _ =>
  }

  /** compute_size is the number of bytes the writer emits. */
  lemma RequestSizeExact(m: Request)
    requires RequestFits(m)
    ensures RequestSize(m) == |EncodeRequest(m)|
  {
    TextSizeExact(1, m.id);
    if m.cmd.Some? {
      ReqBodySizeExact(m.cmd.value);
      VarintSizeExact(|ReqBody(m.cmd.value)|);
    }
  }

  lemma ResponseSizeExact(m: Response)
    requires ResponseFits(m)
    ensures ResponseSize(m) == |EncodeResponse(m)|
  {
    TextSizeExact(1, m.id);
    if m.cmd.Some? {
      RespBodySizeExact(m.cmd.value);
      VarintSizeExact(|RespBody(m.cmd.value)|);
    }
  }

  /** A prefix shorter than the body makes the reader stop inside it. */
  lemma ShortPrefix(num: nat, n: nat, body: Bytes)
    requires 1 <= num && 8 * num + 2 < U32 && n <= |body| < U64
    ensures ReadField(EncodeLen(num, n, body)) == Some((Len(num, body[..n]), body[n..]))
  {
    var head := EncodeVarint(8 * num + 2) + EncodeVarint(n);
    assert body == body[..n] + body[n..];
    assert head + body == (head + body[..n]) + body[n..];
    LenFieldRoundTrip(num, body[..n], body[n..]);
  }

  /** The emitted length prefix is the length of the body exactly when the body is below 2^32. */
  lemma PrefixTrueIffFits(num: nat, body: Bytes)
    requires 1 <= num <= 6 && |body| < U64
    ensures ReadField(EncodeMessage(num, body)) == Some((Len(num, body), [])) <==> |body| < 0x1_0000_0000
  {
    ShortPrefix(num, Cached(|body|), body);
    assert Cached(|body|) == |body| <==> |body| < U32;
    assert body[..|body|] == body && body[|body|..] == [];
  }

  // ---- round trips ----

  lemma IdBodyRoundTrip(id: Id)
    requires |id| < U64
    ensures ParseId(EncodeText(1, id)) == Some(id)
  {
    if id != [] {
      assert EncodeText(1, id) == EncodeLen(1, |id|, id) + [];
      MergeLenField<Id>(IdStep, [], 1, id, []);
    }
  }

  lemma PairBodyRoundTrip(id: Id, addr: Text)
    requires |id| < U64 && |addr| < U64
    ensures ParsePair(EncodePair(id, addr)) == Some((id, addr))
  {
    assert EncodePair(id, addr) == EncodeText(1, id) + EncodeText(2, addr);
    if id != [] {
      MergeLenField<(Id, Text)>(PairStep, ([], []), 1, id, EncodeText(2, addr));
    } else {
      assert EncodePair(id, addr) == EncodeText(2, addr);
    }
    if addr != [] {
      assert EncodeText(2, addr) == EncodeLen(2, |addr|, addr) + [];
      MergeLenField<(Id, Text)>(PairStep, (id, []), 2, addr, []);
    }
  }

  lemma ReqCmdRoundTrip(c: ReqCmd)
    requires ReqBodySize(c) < U32
    ensures ParseReqCmd(ReqNum(c), ReqBody(c)) == Some(c)
  {
    match c
    case Isync(id) => IdBodyRoundTrip(id);
    case Rsync(id) => IdBodyRoundTrip(id);
    case Fsync(id, addr) => PairBodyRoundTrip(id, addr);
    case _ =>
  }

  lemma RespCmdRoundTrip(c: RespCmd)
    requires RespBodySize(c) < U32
    ensures ParseRespCmd(RespNum(c), RespBody(c)) == Some(c)
  {
    match c
    case Redirect(id, addr) => PairBodyRoundTrip(id, addr);
    case FsyncResp(id, addr) => PairBodyRoundTrip(id, addr);
    case _ =>
  }

  /** The second half of the message: the command follows the id. */
  lemma ReqTailRoundTrip(id: Id, c: ReqCmd)
    requires ReqBodySize(c) < U32
    ensures Merge(ReqStep, Request(id, None), EncodeMessage(ReqNum(c), ReqBody(c))) == Some(Request(id, Some(c)))
  {
    ReqBodySizeExact(c);
    ReqCmdRoundTrip(c);
    MergeOneField(ReqStep, Request(id, None), ReqNum(c), ReqBody(c));
  }

  /** The first half: the id, then whatever follows it. */
  lemma ReqHeadRoundTrip(id: Id, tail: Bytes)
    requires |id| < U64
    ensures Merge(ReqStep, NEW_REQUEST, EncodeText(1, id) + tail) == Merge(ReqStep, Request(id, None), tail)
  {
    if id != [] {
      MergeLenField(ReqStep, NEW_REQUEST, 1, id, tail);
    } else {
      assert EncodeText(1, id) + tail == tail;
    }
  }

  /** Parsing what the writer emits gives the message back. */
  lemma RequestRoundTrip(m: Request)
    requires RequestFits(m)
    ensures ParseRequest(EncodeRequest(m)) == Some(m)
  {
    if m.cmd.Some? {
      var c := m.cmd.value;
      ReqHeadRoundTrip(m.id, EncodeMessage(ReqNum(c), ReqBody(c)));
      ReqTailRoundTrip(m.id, c);
    } else {
      ReqHeadRoundTrip(m.id, []);
    }
  }

  /** The second half of the message: the command follows the id. */
  lemma RespTailRoundTrip(id: Id, c: RespCmd)
    requires RespBodySize(c) < U32
    ensures Merge(RespStep, Response(id, None), EncodeMessage(RespNum(c), RespBody(c))) == Some(Response(id, Some(c)))
  {
    RespBodySizeExact(c);
    RespCmdRoundTrip(c);
    MergeOneField(RespStep, Response(id, None), RespNum(c), RespBody(c));
  }

  /** The first half: the id, then whatever follows it. */
  lemma RespHeadRoundTrip(id: Id, tail: Bytes)
    requires |id| < U64
    ensures Merge(RespStep, NEW_RESPONSE, EncodeText(1, id) + tail) == Merge(RespStep, Response(id, None), tail)
  {
    if id != [] {
      MergeLenField(RespStep, NEW_RESPONSE, 1, id, tail);
    } else {
      assert EncodeText(1, id) + tail == tail;
    }
  }

  /** Parsing what the writer emits gives the message back. */
  lemma ResponseRoundTrip(m: Response)
    requires ResponseFits(m)
    ensures ParseResponse(EncodeResponse(m)) == Some(m)
  {
    if m.cmd.Some? {
      var c := m.cmd.value;
      RespHeadRoundTrip(m.id, EncodeMessage(RespNum(c), RespBody(c)));
      RespTailRoundTrip(m.id, c);
    } else {
      RespHeadRoundTrip(m.id, []);
    }
  }

  // ---- parsed strings come from the input ----

  lemma {:induction false} IdWeight(id: Id, b: Bytes)
    requires Merge<Id>(IdStep, id, b).Some?
    ensures |Merge<Id>(IdStep, id, b).value| <= |id| + |b|
    decreases |b|
  {
    if b != [] {
      var (f, rest) := ReadField(b).value;
      IdWeight(IdStep(id, f).value, rest);
    }
  }

  lemma {:induction false} PairWeight(m: (Id, Text), b: Bytes)
    requires Merge<(Id, Text)>(PairStep, m, b).Some?
    ensures var r := Merge<(Id, Text)>(PairStep, m, b).value; |r.0| + |r.1| <= |m.0| + |m.1| + |b|
    decreases |b|
  {
    if b != [] {
      var (f, rest) := ReadField(b).value;
      PairWeight(PairStep(m, f).value, rest);
    }
  }

  lemma ReqCmdWeight(num: nat, b: Bytes)
    requires 2 <= num <= 6 && ParseReqCmd(num, b).Some?
    ensures CmdWeight(ParseReqCmd(num, b).value) <= |b|
  {
    match num
    case 3 => IdWeight([], b);
    case 5 => IdWeight([], b);
    case 4 => PairWeight(([], []), b);
    case _ =>
  }

  lemma {:induction false} MergeWeight(m: Request, b: Bytes)
    requires Merge(ReqStep, m, b).Some?
    ensures Weight(Merge(ReqStep, m, b).value) <= Weight(m) + |b|
    decreases |b|
  {
    if b != [] {
      var (f, rest) := ReadField(b).value;
      if IsReqCmdField(f) {
        ReqCmdWeight(f.num, f.body);
      }
      MergeWeight(ReqStep(m, f).value, rest);
    }
  }

  /** The strings of a parsed request are together no longer than its bytes. */
  lemma ParsedWeight(b: Bytes)
    requires ParseRequest(b).Some?
    ensures Weight(ParseRequest(b).value) <= |b|
  {
    MergeWeight(NEW_REQUEST, b);
  }

  /** Ping, Pong and Bye: any well-formed fields. */
  lemma EmptyAccepts(b: Bytes)
    ensures ParseEmpty(b).Some? <==> Fields(b).Some?
  {
    if ParseEmpty(b).Some? {
      MergeNeedsFields<()>(EmptyStep, (), b);
    }
    if Fields(b).Some? {
      MergeIsFold<()>(EmptyStep, (), b);
      FoldEmpty(Fields(b).value);
    }
  }

  lemma {:induction false} FoldEmpty(fs: seq<Field>)
    ensures MergeFields<()>(EmptyStep, (), fs) == Some(())
  {
    if fs != [] {
      FoldEmpty(fs[1..]);
    }
  }

  // ---- the bytes of each message ----

  /** A string field, by its tag byte. */
  function TextField(tag: byte, t: Text): Bytes {
    if t == [] then [] else [tag] + EncodeVarint(|t|) + t
  }

  /** A sub-message, by its tag byte. */
  function Tagged(tag: byte, body: Bytes): Bytes {
    [tag] + EncodeVarint(|body|) + body
  }

  lemma TaggedIsMessage(tag: byte, num: nat, body: Bytes)
    requires tag as nat == 8 * num + 2 && tag < 128 && |body| < U32
    ensures Tagged(tag, body) == EncodeMessage(num, body)
  {
    assert EncodeVarint(tag as nat) == [tag];
  }

  lemma TextIsTagged(tag: byte, num: nat, t: Text)
    requires tag as nat == 8 * num + 2 && tag < 128
    ensures EncodeText(num, t) == TextField(tag, t)
  {
    assert EncodeVarint(tag as nat) == [tag];
  }

  lemma IdBodyBytes(id: Id)
    requires TextSize(id) < U32
    ensures EncodeText(1, id) == TextField(10, id) && |TextField(10, id)| == TextSize(id)
  {
    TextIsTagged(10, 1, id);
    TextSizeExact(1, id);
  }

  lemma PairBodyBytes(id: Id, addr: Text)
    requires TextSize(id) + TextSize(addr) < U32
    ensures EncodePair(id, addr) == TextField(10, id) + TextField(18, addr)
    ensures |TextField(10, id) + TextField(18, addr)| == TextSize(id) + TextSize(addr)
  {
    TextIsTagged(10, 1, id);
    TextIsTagged(18, 2, addr);
    TextSizeExact(1, id);
    TextSizeExact(2, addr);
  }

  /** What the writer emits for each request, byte by byte: the id under tag 10; Ping under 18, Isync 26,
      Fsync 34, Rsync 42, Bye 50; in them the id under 10 and the address under 18. */
  lemma RequestBytes(m: Request)
    requires RequestFits(m)
    ensures EncodeRequest(m) == TextField(10, m.id) +
            match m.cmd
            case None => []
            case Some(Ping) => Tagged(18, [])
            case Some(Isync(id)) => Tagged(26, TextField(10, id))
            case Some(Fsync(id, addr)) => Tagged(34, TextField(10, id) + TextField(18, addr))
            case Some(Rsync(id)) => Tagged(42, TextField(10, id))
            case Some(Bye) => Tagged(50, [])
  {
    TextIsTagged(10, 1, m.id);
    match m.cmd
    case None =>
    case Some(Ping) => TaggedIsMessage(18, 2, []);
    case Some(Isync(id)) =>
      IdBodyBytes(id);
      TaggedIsMessage(26, 3, TextField(10, id));
    case Some(Fsync(id, addr)) =>
      PairBodyBytes(id, addr);
      TaggedIsMessage(34, 4, TextField(10, id) + TextField(18, addr));
    case Some(Rsync(id)) =>
      IdBodyBytes(id);
      TaggedIsMessage(42, 5, TextField(10, id));
    case Some(Bye) => TaggedIsMessage(50, 6, []);
  }

  /** And for each response: Pong under 18, Redirect 26, Fsync 34. */
  lemma ResponseBytes(m: Response)
    requires ResponseFits(m)
    ensures EncodeResponse(m) == TextField(10, m.id) +
            match m.cmd
            case None => []
            case Some(Pong) => Tagged(18, [])
            case Some(Redirect(id, addr)) => Tagged(26, TextField(10, id) + TextField(18, addr))
            case Some(FsyncResp(id, addr)) => Tagged(34, TextField(10, id) + TextField(18, addr))
  {
    TextIsTagged(10, 1, m.id);
    match m.cmd
    case None =>
    case Some(Pong) => TaggedIsMessage(18, 2, []);
    case Some(Redirect(id, addr)) =>
      PairBodyBytes(id, addr);
      TaggedIsMessage(26, 3, TextField(10, id) + TextField(18, addr));
    case Some(FsyncResp(id, addr)) =>
      PairBodyBytes(id, addr);
      TaggedIsMessage(34, 4, TextField(10, id) + TextField(18, addr));
  }

  /** One more field, by its tag byte, after bytes that parse. */
  lemma MergeTagged<M>(step: (M, Field) -> Option<M>, m: M, b: Bytes, tag: byte, num: nat, body: Bytes)
    requires Merge(step, m, b).Some? && 1 <= num <= 6 && tag as nat == 8 * num + 2 && |body| < U32
    ensures Merge(step, m, b + Tagged(tag, body)) == step(Merge(step, m, b).value, Len(num, body))
  {
    TaggedIsMessage(tag, num, body);
    MergeConcat(step, m, b, EncodeMessage(num, body));
    MergeOneField(step, Merge(step, m, b).value, num, body);
  }

  /** What the parser makes of each field of a request, after anything that parses: under 10 the id,
      under 18 a Ping, 26 an Isync, 34 an Fsync, 42 an Rsync, 50 a Bye, each in place of what was there. */
  lemma RequestTags(b: Bytes, body: Bytes)
    requires ParseRequest(b).Some? && |body| < U32
    ensures var m := ParseRequest(b).value;
            && ParseRequest(b + Tagged(10, body)) == (if ValidUtf8(body) then Some(Request(body, m.cmd)) else None)
            && ParseRequest(b + Tagged(18, body)) == (if ParseEmpty(body).Some? then Some(Request(m.id, Some(Ping))) else None)
            && ParseRequest(b + Tagged(26, body)) ==
                 (match ParseId(body) case None => None case Some(id) => Some(Request(m.id, Some(Isync(id)))))
            && ParseRequest(b + Tagged(34, body)) ==
                 (match ParsePair(body) case None => None case Some((id, addr)) => Some(Request(m.id, Some(Fsync(id, addr)))))
            && ParseRequest(b + Tagged(42, body)) ==
                 (match ParseId(body) case None => None case Some(id) => Some(Request(m.id, Some(Rsync(id)))))
            && ParseRequest(b + Tagged(50, body)) == (if ParseEmpty(body).Some? then Some(Request(m.id, Some(Bye))) else None)
  {
    MergeTagged(ReqStep, NEW_REQUEST, b, 10, 1, body);
    MergeTagged(ReqStep, NEW_REQUEST, b, 18, 2, body);
    MergeTagged(ReqStep, NEW_REQUEST, b, 26, 3, body);
    MergeTagged(ReqStep, NEW_REQUEST, b, 34, 4, body);
    MergeTagged(ReqStep, NEW_REQUEST, b, 42, 5, body);
    MergeTagged(ReqStep, NEW_REQUEST, b, 50, 6, body);
  }

  /** The same for a response: under 10 the id, under 18 a Pong, 26 a Redirect, 34 an Fsync. */
  lemma ResponseTags(b: Bytes, body: Bytes)
    requires ParseResponse(b).Some? && |body| < U32
    ensures var m := ParseResponse(b).value;
            && ParseResponse(b + Tagged(10, body)) == (if ValidUtf8(body) then Some(Response(body, m.cmd)) else None)
            && ParseResponse(b + Tagged(18, body)) == (if ParseEmpty(body).Some? then Some(Response(m.id, Some(Pong))) else None)
            && ParseResponse(b + Tagged(26, body)) ==
                 (match ParsePair(body) case None => None case Some((id, addr)) => Some(Response(m.id, Some(Redirect(id, addr)))))
            && ParseResponse(b + Tagged(34, body)) ==
                 (match ParsePair(body) case None => None case Some((id, addr)) => Some(Response(m.id, Some(FsyncResp(id, addr)))))
  {
    MergeTagged(RespStep, NEW_RESPONSE, b, 10, 1, body);
    MergeTagged(RespStep, NEW_RESPONSE, b, 18, 2, body);
    MergeTagged(RespStep, NEW_RESPONSE, b, 26, 3, body);
    MergeTagged(RespStep, NEW_RESPONSE, b, 34, 4, body);
  }

  /** And for the sub-messages: under 10 the id, under 18 the address; Ping, Pong and Bye have no field. */
  lemma SubMessageTags(b: Bytes, body: Bytes)
    requires |body| < U32
    ensures ParseId([]) == Some([]) && ParsePair([]) == Some(([], [])) && ParseEmpty([]).Some?
    ensures ParseId(b).Some? ==>
              ParseId(b + Tagged(10, body)) == if ValidUtf8(body) then Some(body) else None
    ensures ParsePair(b).Some? ==>
              && ParsePair(b + Tagged(10, body)) == (if ValidUtf8(body) then Some((body, ParsePair(b).value.1)) else None)
              && ParsePair(b + Tagged(18, body)) == (if ValidUtf8(body) then Some((ParsePair(b).value.0, body)) else None)
    ensures ParseEmpty(b).Some? ==> ParseEmpty(b + Tagged(10, body)).Some?
  {
    if ParseId(b).Some? {
      MergeTagged<Id>(IdStep, [], b, 10, 1, body);
    }
    if ParsePair(b).Some? {
      MergeTagged<(Id, Text)>(PairStep, ([], []), b, 10, 1, body);
      MergeTagged<(Id, Text)>(PairStep, ([], []), b, 18, 2, body);
    }
    if ParseEmpty(b).Some? {
      MergeTagged<()>(EmptyStep, (), b, 10, 1, body);
    }
  }
}
