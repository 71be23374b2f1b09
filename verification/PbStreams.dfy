/** nanopb's stream objects and its encoder and decoder over them. */
module PbStreams {
  import opened Types
  import opened Varints
  import opened Protobuf

  /** `pb_ostream_t` over a buffer of fixed size. */
  class OStream {
    const maxSize: nat
    var written: seq<Byte>

    predicate Valid()
      reads this
    {
      |written| <= maxSize
    }

    constructor (size: nat)
      ensures Valid() && maxSize == size && written == []
    {
      maxSize := size;
      written := [];
    }

    /** The outcome of appending `s`, in one write or several: all of it, or failure exactly when
        it does not fit. */
    twostate predicate Appended(ok: bool, s: seq<Byte>)
      reads this
    {
      && Valid() && (ok <==> |old(written)| + |s| <= maxSize)
      && (ok ==> written == old(written) + s)
      && (!ok ==> old(written) <= written)
    }

    /** `pb_write`. */
    method Write(s: seq<Byte>) returns (ok: bool)
      requires Valid()
      modifies `written
      ensures Appended(ok, s)
    {
      if |s| > 0 && |written| + |s| > maxSize {
        return false;
      }
      written := written + s;
      return true;
    }

    method WriteVarint(v: U64) returns (ok: bool)
      requires Valid()
      modifies `written
      ensures Appended(ok, Base128(v))
    {
      var buffer := EncodeVarint(v);
      ok := Write(buffer);
    }

    /** `pb_encode_tag`. */
    method WriteTag(tag: nat, wt: nat) returns (ok: bool)
      requires Valid() && tag <= 17 && wt < 8
      modifies `written
      ensures Appended(ok, TagBytes(tag, wt))
    {
      ok := WriteVarint(8 * tag + wt);
    }

    /** `pb_encode_string`, after the tag. */
    method WriteFixed(tag: nat, s: seq<Byte>) returns (ok: bool)
      requires Valid() && tag <= 17 && |s| <= PB_SIZE_MAX
      modifies `written
      ensures Appended(ok, FixedField(tag, s))
    {
      ok := WriteTag(tag, WT_STRING);
      if !ok { return; }
      ok := WriteVarint(|s|);
      if !ok { return; }
      ok := Write(s);
    }

    method WriteVar(tag: nat, v: U64) returns (ok: bool)
      requires Valid() && tag <= 17
      modifies `written
      ensures Appended(ok, TagBytes(tag, WT_VARINT) + Base128(v))
    {
      ok := WriteTag(tag, WT_VARINT);
      if !ok { return; }
      ok := WriteVarint(v);
    }

    /** A singular integer: nothing at all when zero. */
    method WriteSingular(tag: nat, v: U32) returns (ok: bool)
      requires Valid() && tag <= 17
      modifies `written
      ensures Appended(ok, VarField(tag, v))
    {
      if v == 0 { return true; }
      ok := WriteVar(tag, v);
    }

    method WriteBlob(tag: nat, b: Blob) returns (ok: bool)
      requires Valid() && tag <= 17 && |b.buf| <= PB_SIZE_MAX
      modifies `written
      ensures Appended(ok, BlobField(tag, b))
    {
      if !b.has { return true; }
      ok := WriteFixed(tag, b.buf[..b.size]);
    }

    /** `encode_field` of the `i`-th field. */
    method WriteField(m: PbMsg, i: nat) returns (ok: bool)
      requires Valid() && Shaped(m) && i < FIELD_COUNT
      modifies `written
      ensures Appended(ok, FieldBytes(m, i))
    {
      if i == 0 { ok := WriteSingular(1, m.messageType); }
      else if i == 1 {
        if m.dataType == 0 { return true; }
        ok := WriteVar(2, Zigzag(m.dataType));
      }
      else if i == 2 { ok := WriteFixed(3, m.origin); }
      else if i == 3 { ok := WriteFixed(4, m.target); }
      else if i == 4 { ok := WriteFixed(5, m.lastHop); }
      else if i == 5 { ok := WriteBlob(6, m.data); }
      else if i == 6 { ok := WriteSingular(7, m.hopCount); }
      else if i == 7 { ok := WriteSingular(8, m.epochNum); }
      else if i == 8 { ok := WriteSingular(9, m.seqNum); }
      else if i == 9 { ok := WriteSingular(10, m.protoVersion); }
      else if i == 10 { ok := WriteBlob(11, m.publicKey); }
      else if i == 11 {
        if !m.routeLen.has { return true; }
        ok := WriteVar(12, m.routeLen.value);
      }
      else if i == 12 { ok := WriteBlob(13, m.routePath); }
      else if i == 13 { ok := WriteBlob(14, m.authTag); }
      else { return true; }
    }

    /** `pb_encode`: succeeds exactly when the whole encoding fits. */
    method Encode(m: PbMsg) returns (ok: bool)
      requires Valid() && Shaped(m)
      modifies `written
      ensures Appended(ok, Encoded(m))
    {
      var i := 0;
      ghost var fs, whole := AllFields(m), old(written) + Encoded(m);
      while i < FIELD_COUNT
        invariant i <= FIELD_COUNT && Valid() && old(written) <= written
        invariant whole == written + Flat(fs, i)
      {
        Regrouped(whole, written, fs[i], Flat(fs, i + 1));
        ok := WriteField(m, i);
        if !ok { return; }
        i := i + 1;
      }
      ok := true;
    }
  }

  lemma Regrouped(whole: seq<Byte>, before: seq<Byte>, bytes: seq<Byte>, rest: seq<Byte>)
    requires whole == before + (bytes + rest)
    ensures whole == (before + bytes) + rest && |whole| >= |before| + |bytes|
  {
  }

  /** `pb_istream_t` over a buffer. */
  class IStream {
    const buf: seq<Byte>
    var pos: nat

    predicate Valid()
      reads this
    {
      pos <= |buf|
    }

    /** What is left to read. */
    function Rest(): seq<Byte>
      requires Valid()
      reads this
    {
      buf[pos..]
    }

    constructor (bytes: seq<Byte>)
      ensures Valid() && Rest() == bytes
    {
      buf := bytes;
      pos := 0;
    }

    /** A read that yields `v`, or nothing, as the format reader `r` does on the old input. */
    twostate predicate Reads<T(!new)>(new v: Option<T>, new r: Read<T>)
      reads this
    {
      && Valid()
      && (match r
          case Fail => v == None
          case Got(x, rest) => v == Some(x) && Rest() == rest)
    }

    /** `pb_readbyte`. */
    method ReadByte() returns (b: Option<Byte>)
      requires Valid()
      modifies `pos
      ensures Valid()
      ensures b.None? <==> old(Rest()) == []
      ensures b.Some? ==> b.value == old(Rest())[0] && Rest() == old(Rest())[1..]
    {
      if pos == |buf| {
        return None;
      }
      b := Some(buf[pos]);
      pos := pos + 1;
    }

    /** `pb_read`. */
    method ReadBytes(n: nat) returns (s: Option<seq<Byte>>)
      requires Valid()
      modifies `pos
      ensures Reads(s, Take(old(Rest()), n))
    {
      if |buf| - pos < n {
        return None;
      }
      ghost var before := Rest();
      s := Some(buf[pos..pos + n]);
      pos := pos + n;
      assert s.value == before[..n] && Rest() == before[n..];
    }

    /** `pb_decode_varint`. */
    method DecodeVarint() returns (v: Option<U64>)
      requires Valid()
      modifies `pos
      ensures Reads(v, Varint(old(Rest())))
    {
      VarintFits(Rest(), 0);
      RoomIs64Bits();
      var result: nat, k: nat := 0, 0;
      ghost var whole := Varint(Rest());
      while true
        invariant Valid()
        invariant whole == Shifted(result, k, VarintAt(Rest(), k))
        decreases |buf| - pos
      {
        ReadStep(result, k, Rest());
        var b := ReadByte();
        if b.None? || (7 * k >= 63 && b.value >= 2) {
          return None;
        }
        result := result + Pow128(k) * (b.value % 0x80);
        k := k + 1;
        if b.value < 0x80 {
          return Some(result);
        }
      }
    }

    /** `pb_decode_varint32`, with its one-byte case apart. */
    method DecodeVarint32() returns (v: Option<U32>)
      requires Valid()
      modifies `pos
      ensures Reads(v, Varint32(old(Rest())))
    {
      SmallPowers();
      ghost var whole := Varint32(Rest());
      var first := ReadByte();
      if first.None? {
        return None;
      }
      if first.value < 0x80 {
        return Some(first.value);
      }
      var result: nat, k: nat := first.value % 0x80, 1;
      while true
        invariant Valid() && k >= 1 && Fits32(result, k)
        invariant whole == Varint32At(Rest(), k, result)
        decreases |buf| - pos
      {
        var b := ReadByte();
        if b.None? {
          return None;
        }
        var next := Step32(result, b.value, k);
        if next.None? {
          return None;
        }
        StepFits(result, b.value, k);
        result := next.value;
        k := k + 1;
        if b.value < 0x80 {
          return Some(result);
        }
      }
    }

    /** `pb_skip_varint`. */
    method DropVarint() returns (v: Option<()>)
      requires Valid()
      modifies `pos
      ensures Reads(v, SkipVarint(old(Rest())))
    {
      ghost var whole := SkipVarint(Rest());
      while true
        invariant Valid() && whole == SkipVarint(Rest())
        decreases |buf| - pos
      {
        var b := ReadByte();
        if b.None? {
          return None;
        }
        if b.value < 0x80 {
          return Some(());
        }
      }
    }

    /** `read_raw_value` of a varint. */
    method DropRawVarint(room: nat) returns (v: Option<()>)
      requires Valid()
      modifies `pos
      ensures Reads(v, RawVarint(old(Rest()), room))
    {
      ghost var whole := RawVarint(Rest(), room);
      var size := 0;
      while true
        invariant Valid() && size <= room && whole == RawVarint(Rest(), room - size)
        decreases |buf| - pos
      {
        if size == room {
          return None;
        }
        size := size + 1;
        var b := ReadByte();
        if b.None? {
          return None;
        }
        if b.value < 0x80 {
          return Some(());
        }
      }
    }

    method Drop(n: nat) returns (v: Option<()>)
      requires Valid()
      modifies `pos
      ensures Reads(v, Dropped(Take(old(Rest()), n)))
    {
      var s := ReadBytes(n);
      v := if s.Some? then Some(()) else None;
    }

    /** `pb_skip_string`. */
    method DropString() returns (v: Option<()>)
      requires Valid()
      modifies `pos
      ensures Reads(v, SkipString(old(Rest())))
    {
      var n := DecodeVarint32();
      if n.None? {
        return None;
      }
      v := Drop(n.value);
    }

    /** `pb_skip_field`. */
    method SkipField(wt: nat) returns (v: Option<()>)
      requires Valid()
      modifies `pos
      ensures Reads(v, Skipped(old(Rest()), wt))
    {
      if wt == WT_VARINT { v := DropVarint(); }
      else if wt == WT_64BIT { v := Drop(8); }
      else if wt == WT_STRING { v := DropString(); }
      else if wt == WT_32BIT { v := Drop(4); }
      else { return None; }
    }

    /** `pb_dec_varint`, unsigned. */
    method DecodeU32() returns (v: Option<U32>)
      requires Valid()
      modifies `pos
      ensures Reads(v, ReadU32(old(Rest())))
    {
      var wide := DecodeVarint();
      if wide.None? || wide.value >= 0x1_0000_0000 {
        return None;
      }
      return Some(wide.value);
    }

    /** `pb_dec_varint`, zigzag. */
    method DecodeS32() returns (v: Option<I32>)
      requires Valid()
      modifies `pos
      ensures Reads(v, ReadS32(old(Rest())))
    {
      VarintFits(Rest(), 0);
      RoomIs64Bits();
      var wide := DecodeVarint();
      if wide.None? {
        return None;
      }
      var n := Unzigzag(wide.value);
      if !(-0x8000_0000 <= n < 0x8000_0000) {
        return None;
      }
      return Some(n);
    }

    /** `pb_dec_fixed_length_bytes`. */
    method DecodeFixed() returns (v: Option<Bytes6>)
      requires Valid()
      modifies `pos
      ensures Reads(v, ReadFixed(old(Rest())))
    {
      var n := DecodeVarint32();
      if n.None? {
        return None;
      }
      if n.value == 0 {
        return Some(Zeros(6));
      }
      if n.value != 6 {
        return None;
      }
      var s := ReadBytes(6);
      if s.None? {
        return None;
      }
      return Some(s.value);
    }

    /** `pb_dec_bytes` into a static field. */
    method DecodeBlob(b: Blob) returns (v: Option<Blob>)
      requires Valid()
      modifies `pos
      ensures Reads(v, ReadBlob(old(Rest()), b))
    {
      var n := DecodeVarint32();
      if n.None? || n.value > PB_SIZE_MAX || n.value > |b.buf| {
        return None;
      }
      var s := ReadBytes(n.value);
      if s.None? {
        return None;
      }
      return Some(Blob(true, n.value, s.value + b.buf[n.value..]));
    }

    /** `decode_field`, or the skip of an unknown one. */
    method DecodeField(tag: nat, wt: nat, m: PbMsg) returns (v: Option<PbMsg>)
      requires Valid()
      modifies `pos
      ensures Reads(v, DecodedField(old(Rest()), tag, wt, m))
    {
      if IsVarTag(tag) {
        if wt != WT_VARINT { return None; }
        var x := DecodeU32();
        v := if x.Some? then Some(WithVar(m, tag, x.value)) else None;
      } else if tag == 2 {
        if wt != WT_VARINT { return None; }
        var x := DecodeS32();
        v := if x.Some? then Some(m.(dataType := x.value)) else None;
      } else if IsFixedTag(tag) {
        if wt != WT_STRING { return None; }
        var x := DecodeFixed();
        v := if x.Some? then Some(WithFixed(m, tag, x.value)) else None;
      } else if IsBlobTag(tag) {
        if wt != WT_STRING { return None; }
        var x := DecodeBlob(BlobOf(m, tag));
        v := if x.Some? then Some(WithBlob(m, tag, x.value)) else None;
      } else {
        var x: Option<()>;
        if tag == 17 && wt == WT_VARINT { x := DropRawVarint(10); }
        else { x := SkipField(wt); }
        v := if x.Some? then Some(m) else None;
      }
    }

    /** `pb_decode`. */
    method Decode() returns (v: Option<PbMsg>)
      requires Valid()
      modifies `pos
      ensures v == Decoded(old(Rest()))
    {
      var m := Defaults();
      ghost var whole := Decoded(Rest());
      while pos < |buf|
        invariant Valid() && whole == DecodedFrom(Rest(), m)
        decreases |buf| - pos
      {
        ghost var before := Rest();
        var key := DecodeVarint32();
        if key.None? || key.value / 8 == 0 {
          return None;
        }
        var next := DecodeField(key.value / 8, key.value % 8, m);
        if next.None? {
          return None;
        }
        m := next.value;
      }
      return Some(m);
    }
  }

  /** `result` in the bits below byte `k`, the rest of the varint above them. */
  function Shifted(result: nat, k: nat, r: Read<nat>): Read<nat> {
    if r.Fail? then Fail else Got(result + Pow128(k) * r.value, r.rest)
  }

  /** One byte of `pb_decode_varint`. */
  lemma ReadStep(result: nat, k: nat, s: seq<Byte>)
    ensures s == [] || (7 * k >= 63 && s[0] >= 2) ==> VarintAt(s, k) == Fail
    ensures s != [] && !(7 * k >= 63 && s[0] >= 2) ==>
              var next := result + Pow128(k) * (s[0] % 0x80);
              Shifted(result, k, VarintAt(s, k))
              == if s[0] < 0x80 then Got(next, s[1..]) else Shifted(next, k + 1, VarintAt(s[1..], k + 1))
  {
    if s != [] && VarintAt(s[1..], k + 1).Got? {
      Distribute(Pow128(k), s[0] % 0x80, VarintAt(s[1..], k + 1).value);
    }
  }
}
