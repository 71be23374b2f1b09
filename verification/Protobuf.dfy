/** nanopb's encoder and decoder for the fields of `mesh_MeshMessage`. */
module Protobuf {
  import opened Types
  import opened Varints

  const WT_VARINT := 0
  const WT_64BIT := 1
  const WT_STRING := 2
  const WT_32BIT := 5
  const PB_SIZE_MAX := 0xFFFF

  /** A static bytes field: presence flag, size, and a buffer of fixed capacity. */
  datatype BlobData = Blob(has: bool, size: nat, buf: seq<Byte>)
  type Blob = b: BlobData | b.size <= |b.buf| witness Blob(false, 0, [])

  datatype OptVar = OptVar(has: bool, value: U32)

  /** `mesh_MeshMessage`; its callback field is never given an encoder or a decoder. */
  datatype PbMsg = PbMsg(
    messageType: U32, dataType: I32, origin: Bytes6, target: Bytes6, lastHop: Bytes6,
    data: Blob, hopCount: U32, epochNum: U32, seqNum: U32, protoVersion: U32,
    publicKey: Blob, routeLen: OptVar, routePath: Blob, authTag: Blob)

  const DATA_CAP := 64
  const KEY_CAP := 32
  const PATH_CAP := 48
  const TAG_CAP := 16

  predicate Shaped(m: PbMsg) {
    && |m.data.buf| == DATA_CAP && |m.publicKey.buf| == KEY_CAP
    && |m.routePath.buf| == PATH_CAP && |m.authTag.buf| == TAG_CAP
  }

  function Zeros(n: nat): (r: seq<Byte>)
    ensures |r| == n && forall i :: 0 <= i < n ==> r[i] == 0
  {
    if n == 0 then [] else [0] + Zeros(n - 1)
  }

  function NoBlob(cap: nat): Blob {
    Blob(false, 0, Zeros(cap))
  }

  /** Every field at its default. */
  function Defaults(): PbMsg {
    PbMsg(0, 0, Zeros(6), Zeros(6), Zeros(6), NoBlob(DATA_CAP), 0, 0, 0, 0, NoBlob(KEY_CAP),
          OptVar(false, 0), NoBlob(PATH_CAP), NoBlob(TAG_CAP))
  }

  // ---- Encoding ----

  function TagBytes(tag: nat, wt: nat): seq<Byte> {
    Base128(8 * tag + wt)
  }

  /** `pb_encode_string`. */
  function StringBytes(s: seq<Byte>): seq<Byte> {
    Base128(|s|) + s
  }

  /** A proto3 singular integer is left out when zero. */
  function VarField(tag: nat, v: U32): seq<Byte> {
    if v == 0 then [] else TagBytes(tag, WT_VARINT) + Base128(v)
  }

  function SignedField(tag: nat, n: I32): seq<Byte> {
    if n == 0 then [] else TagBytes(tag, WT_VARINT) + Base128(Zigzag(n))
  }

  function FixedField(tag: nat, s: seq<Byte>): seq<Byte> {
    TagBytes(tag, WT_STRING) + StringBytes(s)
  }

  /** An optional field is written exactly when present. */
  function BlobField(tag: nat, b: Blob): seq<Byte> {
    if b.has then FixedField(tag, b.buf[..b.size]) else []
  }

  function OptField(tag: nat, o: OptVar): seq<Byte> {
    if o.has then TagBytes(tag, WT_VARINT) + Base128(o.value) else []
  }

  /** The bytes of the `i`-th field of the descriptor. */
  function FieldBytes(m: PbMsg, i: nat): seq<Byte> {
    if i == 0 then VarField(1, m.messageType)
    else if i == 1 then SignedField(2, m.dataType)
    else if i == 2 then FixedField(3, m.origin)
    else if i == 3 then FixedField(4, m.target)
    else if i == 4 then FixedField(5, m.lastHop)
    else if i == 5 then BlobField(6, m.data)
    else if i == 6 then VarField(7, m.hopCount)
    else if i == 7 then VarField(8, m.epochNum)
    else if i == 8 then VarField(9, m.seqNum)
    else if i == 9 then VarField(10, m.protoVersion)
    else if i == 10 then BlobField(11, m.publicKey)
    else if i == 11 then OptField(12, m.routeLen)
    else if i == 12 then BlobField(13, m.routePath)
    else if i == 13 then BlobField(14, m.authTag)
    else []
  }

  const FIELD_COUNT := 15

  function AllFields(m: PbMsg): (r: seq<seq<Byte>>)
    ensures |r| == FIELD_COUNT && forall i :: 0 <= i < FIELD_COUNT ==> r[i] == FieldBytes(m, i)
  {
    seq(FIELD_COUNT, i requires 0 <= i < FIELD_COUNT => FieldBytes(m, i))
  }

  /** The pieces from `i` on, joined. */
  function Flat(fs: seq<seq<Byte>>, i: nat): seq<Byte>
    decreases |fs| - i
  {
    if i >= |fs| then [] else fs[i] + Flat(fs, i + 1)
  }

  function Encoded(m: PbMsg): seq<Byte> {
    Flat(AllFields(m), 0)
  }

  // ---- Decoding ----

  /** `pb_read` of `n` bytes. */
  function Take(s: seq<Byte>, n: nat): (r: Read<seq<Byte>>)
    ensures r.Got? ==> |r.rest| <= |s| && |r.value| == n
  {
    if |s| < n then Fail else Got(s[..n], s[n..])
  }

  /** `pb_skip_varint`: any number of continued bytes. */
  function SkipVarint(s: seq<Byte>): (r: Read<()>)
    ensures r.Got? ==> |r.rest| <= |s|
  {
    if s == [] then Fail else if s[0] < 0x80 then Got((), s[1..]) else SkipVarint(s[1..])
  }

  function Dropped(r: Read<seq<Byte>>): Read<()> {
    if r.Fail? then Fail else Got((), r.rest)
  }

  /** `pb_skip_string`; a callback field without a decoder is skipped the same way. */
  function SkipString(s: seq<Byte>): (r: Read<()>)
    ensures r.Got? ==> |r.rest| <= |s|
  {
    match Varint32(s)
    case Fail => Fail
    case Got(n, rest) => Dropped(Take(rest, n))
  }

  /** `pb_skip_field`. */
  function Skipped(s: seq<Byte>, wt: nat): (r: Read<()>)
    ensures r.Got? ==> |r.rest| <= |s|
  {
    if wt == WT_VARINT then SkipVarint(s)
    else if wt == WT_64BIT then Dropped(Take(s, 8))
    else if wt == WT_STRING then SkipString(s)
    else if wt == WT_32BIT then Dropped(Take(s, 4))
    else Fail
  }

  /** `read_raw_value` of a varint: at most `room` bytes. */
  function RawVarint(s: seq<Byte>, room: nat): (r: Read<()>)
    ensures r.Got? ==> |r.rest| <= |s|
  {
    if s == [] || room == 0 then Fail
    else if s[0] < 0x80 then Got((), s[1..]) else RawVarint(s[1..], room - 1)
  }

  /** `decode_callback_field` under the default callback, which consumes nothing. */
  function CallbackField(s: seq<Byte>, wt: nat): (r: Read<()>)
    ensures r.Got? ==> |r.rest| <= |s|
  {
    if wt == WT_VARINT then RawVarint(s, 10) else Skipped(s, wt)
  }

  /** `pb_dec_varint` into 32 unsigned bits: a larger value is an error. */
  function ReadU32(s: seq<Byte>): (r: Read<U32>)
    ensures r.Got? ==> |r.rest| <= |s|
  {
    match Varint(s)
    case Fail => Fail
    case Got(v, rest) => if v < 0x1_0000_0000 then Got(v, rest) else Fail
  }

  /** `pb_dec_varint` into 32 signed bits, zigzag. */
  function ReadS32(s: seq<Byte>): (r: Read<I32>)
    ensures r.Got? ==> |r.rest| <= |s|
  {
    match Varint(s)
    case Fail => Fail
    case Got(v, rest) =>
      if v >= 0x1_0000_0000_0000_0000 then Fail
      else if -0x8000_0000 <= Unzigzag(v) < 0x8000_0000 then Got(Unzigzag(v), rest) else Fail
  }

  /** `pb_dec_fixed_length_bytes`: an empty string stands for all zeros. */
  function ReadFixed(s: seq<Byte>): (r: Read<Bytes6>)
    ensures r.Got? ==> |r.rest| <= |s|
  {
    match Varint32(s)
    case Fail => Fail
    case Got(n, rest) =>
      if n == 0 then Got(Zeros(6), rest) else if n != 6 then Fail else Take(rest, 6)
  }

  /** `pb_dec_bytes`: sets the size and the first bytes; what an earlier value left behind them
      stays. */
  function ReadBlob(s: seq<Byte>, b: Blob): (r: Read<Blob>)
    ensures r.Got? ==> |r.rest| <= |s| && |r.value.buf| == |b.buf| && r.value.has
  {
    match Varint32(s)
    case Fail => Fail
    case Got(n, rest) =>
      if n > PB_SIZE_MAX || n > |b.buf| then Fail
      else
        match Take(rest, n)
        case Fail => Fail
        case Got(bytes, rest') => Got(Blob(true, n, bytes + b.buf[n..]), rest')
  }

  function WithVar(m: PbMsg, tag: nat, v: U32): PbMsg {
    if tag == 1 then m.(messageType := v) else if tag == 7 then m.(hopCount := v)
    else if tag == 8 then m.(epochNum := v) else if tag == 9 then m.(seqNum := v)
    else if tag == 10 then m.(protoVersion := v) else m.(routeLen := OptVar(true, v))
  }

  function WithFixed(m: PbMsg, tag: nat, v: Bytes6): PbMsg {
    if tag == 3 then m.(origin := v) else if tag == 4 then m.(target := v) else m.(lastHop := v)
  }

  function BlobOf(m: PbMsg, tag: nat): Blob {
    if tag == 6 then m.data else if tag == 11 then m.publicKey else if tag == 13 then m.routePath else m.authTag
  }

  function WithBlob(m: PbMsg, tag: nat, b: Blob): PbMsg {
    if tag == 6 then m.(data := b) else if tag == 11 then m.(publicKey := b)
    else if tag == 13 then m.(routePath := b) else m.(authTag := b)
  }

  predicate IsVarTag(tag: nat) { tag == 1 || 7 <= tag <= 10 || tag == 12 }
  predicate IsFixedTag(tag: nat) { 3 <= tag <= 5 }
  predicate IsBlobTag(tag: nat) { tag == 6 || tag == 11 || tag == 13 || tag == 14 }

  /** `decode_field` for a tag of the message; any other tag is skipped. */
  function DecodedField(s: seq<Byte>, tag: nat, wt: nat, m: PbMsg): (r: Read<PbMsg>)
    ensures r.Got? ==> |r.rest| <= |s| && (Shaped(m) ==> Shaped(r.value))
  {
    if IsVarTag(tag) then
      if wt != WT_VARINT then Fail
      else match ReadU32(s) case Fail => Fail case Got(v, rest) => Got(WithVar(m, tag, v), rest)
    else if tag == 2 then
      if wt != WT_VARINT then Fail
      else match ReadS32(s) case Fail => Fail case Got(v, rest) => Got(m.(dataType := v), rest)
    else if IsFixedTag(tag) then
      if wt != WT_STRING then Fail
      else match ReadFixed(s) case Fail => Fail case Got(v, rest) => Got(WithFixed(m, tag, v), rest)
    else if IsBlobTag(tag) then
      if wt != WT_STRING then Fail
      else match ReadBlob(s, BlobOf(m, tag)) case Fail => Fail case Got(b, rest) => Got(WithBlob(m, tag, b), rest)
    else
      match if tag == 17 then CallbackField(s, wt) else Skipped(s, wt)
      case Fail => Fail
      case Got(_, rest) => Got(m, rest)
  }

  /** `pb_decode_inner`: field after field until the input ends. */
  function DecodedFrom(s: seq<Byte>, m: PbMsg): (r: Option<PbMsg>)
    ensures r.Some? && Shaped(m) ==> Shaped(r.value)
    decreases |s|
  {
    if s == [] then Some(m)
    else
      match Varint32(s)
      case Fail => None
      case Got(key, rest) =>
        if key / 8 == 0 then None
        else
          match DecodedField(rest, key / 8, key % 8, m)
          case Fail => None
          case Got(m', rest') => DecodedFrom(rest', m')
  }

  function Decoded(s: seq<Byte>): Option<PbMsg> {
    DecodedFrom(s, Defaults())
  }

  // ---- Round trip ----

  lemma KeyReads(tag: nat, wt: nat, rest: seq<Byte>)
    requires 0 < tag <= 17 && wt < 8
    ensures Varint32(TagBytes(tag, wt) + rest) == Got(8 * tag + wt, rest)
    ensures (8 * tag + wt) / 8 == tag && (8 * tag + wt) % 8 == wt
  {
    Varint32RoundTrip(8 * tag + wt, rest);
  }

  /** A written field is decoded as one field, whatever follows. */
  lemma FieldStep(tag: nat, wt: nat, body: seq<Byte>, rest: seq<Byte>, m: PbMsg, m': PbMsg)
    requires 0 < tag <= 17 && wt < 8
    requires DecodedField(body + rest, tag, wt, m) == Got(m', rest)
    ensures DecodedFrom((TagBytes(tag, wt) + body) + rest, m) == DecodedFrom(rest, m')
  {
    KeyReads(tag, wt, body + rest);
    assert (TagBytes(tag, wt) + body) + rest == TagBytes(tag, wt) + (body + rest);
  }

  lemma VarFieldReads(tag: nat, v: U32, rest: seq<Byte>, m: PbMsg)
    requires IsVarTag(tag)
    ensures DecodedFrom((TagBytes(tag, WT_VARINT) + Base128(v)) + rest, m) == DecodedFrom(rest, WithVar(m, tag, v))
  {
    VarintRoundTrip(v, rest);
    FieldStep(tag, WT_VARINT, Base128(v), rest, m, WithVar(m, tag, v));
  }

  lemma SignedFieldReads(n: I32, rest: seq<Byte>, m: PbMsg)
    ensures DecodedFrom((TagBytes(2, WT_VARINT) + Base128(Zigzag(n))) + rest, m)
         == DecodedFrom(rest, m.(dataType := n))
  {
    VarintRoundTrip(Zigzag(n), rest);
    ZigzagBijective(n, 0);
    FieldStep(2, WT_VARINT, Base128(Zigzag(n)), rest, m, m.(dataType := n));
  }

  lemma StringReads(s: seq<Byte>, rest: seq<Byte>)
    requires |s| < 0x1_0000_0000
    ensures Varint32(StringBytes(s) + rest) == Got(|s|, s + rest)
    ensures Take(s + rest, |s|) == Got(s, rest)
  {
    Varint32RoundTrip(|s|, s + rest);
    assert StringBytes(s) + rest == Base128(|s|) + (s + rest);
  }

  lemma FixedFieldReads(tag: nat, s: Bytes6, rest: seq<Byte>, m: PbMsg)
    requires IsFixedTag(tag)
    ensures DecodedFrom(FixedField(tag, s) + rest, m) == DecodedFrom(rest, WithFixed(m, tag, s))
  {
    StringReads(s, rest);
    FieldStep(tag, WT_STRING, StringBytes(s), rest, m, WithFixed(m, tag, s));
  }

  lemma BlobFieldReads(tag: nat, s: seq<Byte>, rest: seq<Byte>, m: PbMsg)
    requires IsBlobTag(tag) && |s| <= |BlobOf(m, tag).buf| && |s| <= PB_SIZE_MAX
    ensures DecodedFrom(FixedField(tag, s) + rest, m)
         == DecodedFrom(rest, WithBlob(m, tag, Blob(true, |s|, s + BlobOf(m, tag).buf[|s|..])))
  {
    StringReads(s, rest);
    FieldStep(tag, WT_STRING, StringBytes(s), rest, m,
              WithBlob(m, tag, Blob(true, |s|, s + BlobOf(m, tag).buf[|s|..])));
  }

  /** A bytes field as the decoder leaves it: nothing beyond its size, nothing when absent. */
  function CleanBlob(b: Blob): (r: Blob)
    ensures |r.buf| == |b.buf|
  {
    if b.has then Blob(true, b.size, b.buf[..b.size] + Zeros(|b.buf|)[b.size..]) else NoBlob(|b.buf|)
  }

  function CleanVar(o: OptVar): OptVar {
    if o.has then o else OptVar(false, 0)
  }

  function Clean(m: PbMsg): PbMsg {
    m.(data := CleanBlob(m.data), publicKey := CleanBlob(m.publicKey), routeLen := CleanVar(m.routeLen),
       routePath := CleanBlob(m.routePath), authTag := CleanBlob(m.authTag))
  }

  /** The first `i` fields of `m` over the defaults. */
  function Upto(m: PbMsg, i: nat): PbMsg {
    var d := Defaults();
    PbMsg(if i > 0 then m.messageType else d.messageType,
          if i > 1 then m.dataType else d.dataType,
          if i > 2 then m.origin else d.origin,
          if i > 3 then m.target else d.target,
          if i > 4 then m.lastHop else d.lastHop,
          if i > 5 then m.data else d.data,
          if i > 6 then m.hopCount else d.hopCount,
          if i > 7 then m.epochNum else d.epochNum,
          if i > 8 then m.seqNum else d.seqNum,
          if i > 9 then m.protoVersion else d.protoVersion,
          if i > 10 then m.publicKey else d.publicKey,
          if i > 11 then m.routeLen else d.routeLen,
          if i > 12 then m.routePath else d.routePath,
          if i > 13 then m.authTag else d.authTag)
  }

  lemma VarStep(m: PbMsg, i: nat, rest: seq<Byte>)
    requires i == 0 || 6 <= i <= 9 || i == 11
    ensures DecodedFrom(FieldBytes(m, i) + rest, Upto(Clean(m), i)) == DecodedFrom(rest, Upto(Clean(m), i + 1))
  {
    var before := Upto(Clean(m), i);
    assert [] + rest == rest;
    if i == 0 {
      VarFieldReads(1, m.messageType, rest, before);
    } else if i == 6 {
      VarFieldReads(7, m.hopCount, rest, before);
    } else if i == 7 {
      VarFieldReads(8, m.epochNum, rest, before);
    } else if i == 8 {
      VarFieldReads(9, m.seqNum, rest, before);
    } else if i == 9 {
      VarFieldReads(10, m.protoVersion, rest, before);
    } else {
      VarFieldReads(12, m.routeLen.value, rest, before);
    }
  }

  lemma FixedStep(m: PbMsg, i: nat, rest: seq<Byte>)
    requires 2 <= i <= 4
    ensures DecodedFrom(FieldBytes(m, i) + rest, Upto(Clean(m), i)) == DecodedFrom(rest, Upto(Clean(m), i + 1))
  {
    var before := Upto(Clean(m), i);
    if i == 2 {
      FixedFieldReads(3, m.origin, rest, before);
    } else if i == 3 {
      FixedFieldReads(4, m.target, rest, before);
    } else {
      FixedFieldReads(5, m.lastHop, rest, before);
    }
  }

  lemma BlobStep(m: PbMsg, i: nat, rest: seq<Byte>)
    requires Shaped(m) && (i == 5 || i == 10 || i == 12 || i == 13)
    ensures DecodedFrom(FieldBytes(m, i) + rest, Upto(Clean(m), i)) == DecodedFrom(rest, Upto(Clean(m), i + 1))
  {
    var b := BlobOf(m, i + 1);
    assert [] + rest == rest;
    if b.has {
      BlobFieldReads(i + 1, b.buf[..b.size], rest, Upto(Clean(m), i));
    }
  }

  lemma SignedStep(m: PbMsg, rest: seq<Byte>)
    ensures DecodedFrom(FieldBytes(m, 1) + rest, Upto(Clean(m), 1)) == DecodedFrom(rest, Upto(Clean(m), 2))
  {
    assert [] + rest == rest;
    SignedFieldReads(m.dataType, rest, Upto(Clean(m), 1));
  }

  lemma AnyStep(m: PbMsg, i: nat, rest: seq<Byte>)
    requires Shaped(m) && i < FIELD_COUNT
    ensures DecodedFrom(FieldBytes(m, i) + rest, Upto(Clean(m), i)) == DecodedFrom(rest, Upto(Clean(m), i + 1))
  {
    if i == 0 || 6 <= i <= 9 || i == 11 { VarStep(m, i, rest); }
    else if i == 1 { SignedStep(m, rest); }
    else if i <= 4 { FixedStep(m, i, rest); }
    else if i < 14 { BlobStep(m, i, rest); }
    else { assert [] + rest == rest; }
  }

  lemma {:induction false} DecodesFrom(m: PbMsg, i: nat)
    requires Shaped(m) && i <= FIELD_COUNT
    ensures DecodedFrom(Flat(AllFields(m), i), Upto(Clean(m), i)) == Some(Clean(m))
    decreases FIELD_COUNT - i
  {
    if i < FIELD_COUNT {
      DecodesFrom(m, i + 1);
      AnyStep(m, i, Flat(AllFields(m), i + 1));
    }
  }

  /** Decoding an encoded message restores every field: presence, sizes and the bytes below
      them; what lies beyond a size, or in an absent field, comes back zero. */
  lemma MessageRoundTrip(m: PbMsg)
    requires Shaped(m)
    ensures Decoded(Encoded(m)) == Some(Clean(m))
  {
    DecodesFrom(m, 0);
  }
}
