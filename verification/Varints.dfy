/** Base-128 varints and zigzag as nanopb reads and writes them. The format is that of the
    Protocol Buffers Encoding specification, "Base 128 Varints" and "Signed Integers". */
module Varints {
  import opened Types

  type I64 = x: int | -0x8000_0000_0000_0000 <= x < 0x8000_0000_0000_0000

  /** A read that succeeded leaves the rest of the stream; a failed one aborts the decode. */
  datatype Read<+T> = Fail | Got(value: T, rest: seq<Byte>)

  // ---- The format ----

  /** The minimal base-128 form: seven bits a byte, lowest first, the top bit on all but the last. */
  function Base128(v: nat): (r: seq<Byte>)
    ensures r != []
  {
    if v < 0x80 then [v] else [0x80 + v % 0x80] + Base128(v / 0x80)
  }

  function Pow128(k: nat): nat {
    if k == 0 then 1 else 0x80 * Pow128(k - 1)
  }

  /** The value of a whole varint, or nothing when `s` is not exactly one. */
  function ValueOf(s: seq<Byte>): Option<nat> {
    if s == [] then None
    else if s[0] < 0x80 then if |s| == 1 then Some(s[0]) else None
    else
      var tail := ValueOf(s[1..]);
      if tail.None? then None else Some(s[0] - 0x80 + 0x80 * tail.value)
  }

  lemma {:induction false} ValueOfBase128(v: nat)
    ensures ValueOf(Base128(v)) == Some(v)
  {
    if v >= 0x80 {
      ValueOfBase128(v / 0x80);
      assert Base128(v)[1..] == Base128(v / 0x80);
    }
  }

  /** Every varint of a value is at least as long as its base-128 form, and only that form is as
      short. */
  lemma {:induction false} Base128Minimal(s: seq<Byte>, v: nat)
    requires ValueOf(s) == Some(v)
    ensures |Base128(v)| <= |s|
    ensures |Base128(v)| == |s| ==> Base128(v) == s
  {
    if s[0] >= 0x80 {
      var t := ValueOf(s[1..]).value;
      Base128Minimal(s[1..], t);
      if v >= 0x80 {
        assert v / 0x80 == t && v % 0x80 == s[0] - 0x80;
        assert s == [s[0]] + s[1..];
      }
    }
  }

  lemma {:induction false} Base128Length(v: nat, k: nat)
    requires k > 0
    ensures |Base128(v)| <= k <==> v < Pow128(k)
    decreases k
  {
    if k == 1 {
      assert Pow128(1) == 0x80 * Pow128(0);
    } else if v < 0x80 {
      PowAtLeast(k);
    } else {
      Base128Length(v / 0x80, k - 1);
      assert v / 0x80 < Pow128(k - 1) <==> v < 0x80 * Pow128(k - 1);
    }
  }

  lemma {:induction false} PowAtLeast(k: nat)
    requires k > 0
    ensures Pow128(k) >= 0x80
  {
    if k > 1 { PowAtLeast(k - 1); }
  }

  // ---- Reading ----

  /** `pb_decode_varint` from its `k`-th byte on: at most ten bytes, the tenth at most 1. */
  function VarintAt(s: seq<Byte>, k: nat): (r: Read<nat>)
    ensures r.Got? ==> |r.rest| < |s|
  {
    if s == [] || (7 * k >= 63 && s[0] >= 2) then Fail
    else if s[0] < 0x80 then Got(s[0], s[1..])
    else
      match VarintAt(s[1..], k + 1)
      case Fail => Fail
      case Got(v, rest) => Got(s[0] - 0x80 + 0x80 * v, rest)
  }

  function Varint(s: seq<Byte>): (r: Read<nat>)
    ensures r.Got? ==> |r.rest| < |s|
  {
    VarintAt(s, 0)
  }

  /** Room left at byte `k` of a 64-bit value. */
  function Room(k: nat): nat
    requires k <= 9
    decreases 9 - k
  {
    if k == 9 then 2 else 0x80 * Room(k + 1)
  }

  lemma {:induction false} VarintFits(s: seq<Byte>, k: nat)
    requires k <= 9
    ensures VarintAt(s, k).Got? ==> VarintAt(s, k).value < Room(k)
    decreases |s|
  {
    RoomAtLeast(k);
    if s != [] && s[0] >= 0x80 && k < 9 {
      VarintFits(s[1..], k + 1);
    }
  }

  lemma {:induction false} RoomAtLeast(k: nat)
    requires k <= 9
    ensures Room(k) >= 2 && (k < 9 ==> Room(k) >= 0x100)
    decreases 9 - k
  {
    if k < 9 { RoomAtLeast(k + 1); }
  }

  lemma RoomIs64Bits()
    ensures Room(0) == 0x1_0000_0000_0000_0000
  {
    assert Room(8) == 0x100 && Room(7) == 0x8000 && Room(6) == 0x40_0000 && Room(5) == 0x2000_0000;
    assert Room(4) == 0x10_0000_0000 && Room(3) == 0x800_0000_0000 && Room(2) == 0x4_0000_0000_0000;
    assert Room(1) == 0x200_0000_0000_0000;
  }

  lemma {:induction false} ReadsBase128(v: nat, k: nat, rest: seq<Byte>)
    requires k <= 9 && v < Room(k)
    ensures VarintAt(Base128(v) + rest, k) == Got(v, rest)
    decreases v
  {
    var s := Base128(v) + rest;
    if v < 0x80 {
      assert s[1..] == rest;
    } else {
      ReadsBase128(v / 0x80, k + 1, rest);
      assert s[1..] == Base128(v / 0x80) + rest;
    }
  }

  /** Reading inverts writing for every 64-bit value and leaves the rest of the stream. */
  lemma VarintRoundTrip(v: U64, rest: seq<Byte>)
    ensures Varint(Base128(v) + rest) == Got(v, rest)
  {
    RoomIs64Bits();
    ReadsBase128(v, 0, rest);
  }

  // ---- The 32-bit reader ----

  /** A byte past bit 31 of `acc` carries zeros or extends its sign. */
  predicate Extends(acc: nat, b: Byte, k: nat) {
    b % 0x80 == 0 || (acc >= 0x8000_0000 && b == if 7 * k < 63 then 0xFF else 1)
  }

  /** What byte `k` adds to the accumulated 32 bits, if it is acceptable there. */
  function Step32(acc: nat, b: Byte, k: nat): Option<nat> {
    if 7 * k >= 32 then if 7 * k < 64 && Extends(acc, b, k) then Some(acc) else None
    else if 7 * k == 28 then
      if 0x10 <= b % 0x80 < 0x78 then None else Some(acc + b % 0x10 * 0x1000_0000)
    else Some(acc + Pow128(k) * (b % 0x80))
  }

  function Varint32At(s: seq<Byte>, k: nat, acc: nat): (r: Read<nat>)
    ensures r.Got? ==> |r.rest| < |s|
  {
    if s == [] || Step32(acc, s[0], k).None? then Fail
    else if s[0] < 0x80 then Got(Step32(acc, s[0], k).value, s[1..])
    else Varint32At(s[1..], k + 1, Step32(acc, s[0], k).value)
  }

  /** `pb_decode_varint32`. */
  function Varint32(s: seq<Byte>): (r: Read<nat>)
    ensures r.Got? ==> |r.rest| < |s|
  {
    Varint32At(s, 0, 0)
  }

  /** The accumulator after `k` bytes. */
  predicate Fits32(acc: nat, k: nat) {
    acc < 0x1_0000_0000 && (k <= 4 ==> acc < Pow128(k))
  }

  lemma SmallPowers()
    ensures Pow128(0) == 1 && Pow128(1) == 0x80 && Pow128(2) == 0x4000 && Pow128(3) == 0x20_0000
    ensures Pow128(4) == 0x1000_0000
  {
    assert Pow128(1) == 0x80 * Pow128(0) && Pow128(2) == 0x80 * Pow128(1);
    assert Pow128(3) == 0x80 * Pow128(2);
  }

  lemma StepFits(acc: nat, b: Byte, k: nat)
    requires Fits32(acc, k) && Step32(acc, b, k).Some?
    ensures Fits32(Step32(acc, b, k).value, k + 1)
  {
    SmallPowers();
  }

  /** From bit 35 on, whole multiples of 2^32. */
  lemma {:induction false} HighPower(k: nat) returns (q: nat)
    requires k >= 5
    ensures Pow128(k) == 0x1_0000_0000 * q
  {
    SmallPowers();
    if k == 5 {
      q := 8;
      assert Pow128(5) == 0x80 * Pow128(4);
    } else {
      q := HighPower(k - 1);
      q := 0x80 * q;
    }
  }

  lemma ModMultiple(a: nat, q: nat)
    ensures (a + 0x1_0000_0000 * q) % 0x1_0000_0000 == a % 0x1_0000_0000
  {
  }

  lemma Distribute(p: nat, b: nat, w: nat)
    ensures p * (b + 0x80 * w) == p * b + 0x80 * p * w
  {
  }

  lemma Regroup(p: nat, q: nat, b: nat)
    requires p == 0x1_0000_0000 * q
    ensures p * b == 0x1_0000_0000 * (q * b)
  {
  }

  /** The accumulator and the value of the bytes from `k` on, put together in 32 bits. */
  function Joined(acc: nat, k: nat, v: nat): nat {
    (acc + Pow128(k) * v) % 0x1_0000_0000
  }

  /** One byte's contribution agrees modulo 2^32. `w` is the value of the bytes after it. */
  lemma StepAgrees(acc: nat, b: Byte, k: nat, w: nat)
    requires Fits32(acc, k) && Step32(acc, b, k).Some?
    ensures Joined(acc, k, b % 0x80 + 0x80 * w) == Joined(Step32(acc, b, k).value, k + 1, w)
  {
    var tail := Pow128(k + 1) * w;
    Distribute(Pow128(k), b % 0x80, w);
    ByteAgrees(acc, b, k, tail);
  }

  lemma LowNibble(b: Byte)
    ensures b % 0x80 % 0x10 == b % 0x10
  {
  }

  lemma StepValue(acc: nat, b: Byte, k: nat)
    requires Step32(acc, b, k).Some?
    ensures k < 4 ==> Step32(acc, b, k).value == acc + Pow128(k) * (b % 0x80)
    ensures k == 4 ==> Step32(acc, b, k).value == acc + b % 0x80 % 0x10 * 0x1000_0000
    ensures k > 4 ==> Step32(acc, b, k).value == acc
  {
    hide Pow128, Extends;
    LowNibble(b);
  }

  lemma ByteAgrees(acc: nat, b: Byte, k: nat, tail: nat)
    requires Fits32(acc, k) && Step32(acc, b, k).Some?
    ensures (acc + Pow128(k) * (b % 0x80) + tail) % 0x1_0000_0000
         == (Step32(acc, b, k).value + tail) % 0x1_0000_0000
  {
    StepValue(acc, b, k);
    if k >= 5 {
      HighStepAgrees(acc, k, b % 0x80, tail);
    } else if k == 4 {
      FifthByteAgrees(acc, b % 0x80, tail);
    }
  }

  lemma HighStepAgrees(acc: nat, k: nat, c: nat, tail: nat)
    requires k >= 5
    ensures (acc + Pow128(k) * c + tail) % 0x1_0000_0000 == (acc + tail) % 0x1_0000_0000
  {
    var q := HighPower(k);
    Regroup(Pow128(k), q, c);
    ModMultiple(acc + tail, q * c);
  }

  lemma FifthByteAgrees(acc: nat, c: nat, tail: nat)
    ensures (acc + Pow128(4) * c + tail) % 0x1_0000_0000
         == (acc + c % 0x10 * 0x1000_0000 + tail) % 0x1_0000_0000
  {
    SmallPowers();
    assert 0x1000_0000 * c == 0x1000_0000 * (c % 0x10) + 0x1_0000_0000 * (c / 0x10);
    ModMultiple(acc + 0x1000_0000 * (c % 0x10) + tail, c / 0x10);
  }

  lemma JoinedDone(acc: nat, k: nat)
    requires Fits32(acc, k)
    ensures Joined(acc, k, 0) == acc
  {
  }

  /** Nothing is read past the tenth byte, and the tenth carries one bit at most. */
  lemma TenthByte(s: seq<Byte>, k: nat, acc: nat)
    requires k <= 9 && Varint32At(s, k, acc).Got?
    ensures k == 9 ==> s[0] < 2
  {
  }

  lemma ReadMore(s: seq<Byte>, k: nat, rest: Read<nat>)
    requires s != [] && k < 9 && s[0] >= 0x80 && rest == VarintAt(s[1..], k + 1) && rest.Got?
    ensures VarintAt(s, k) == Got(s[0] % 0x80 + 0x80 * rest.value, rest.rest)
  {
  }

  /** The two readers agree from byte `k` on. */
  predicate Follows(s: seq<Byte>, k: nat, acc: nat) {
    var wide, narrow := VarintAt(s, k), Varint32At(s, k, acc);
    narrow.Got? ==> wide.Got? && wide.rest == narrow.rest && narrow.value == Joined(acc, k, wide.value)
  }

  lemma FollowsLast(s: seq<Byte>, k: nat, acc: nat)
    requires Fits32(acc, k) && k <= 9 && s != [] && s[0] < 0x80
    ensures Follows(s, k, acc)
  {
    hide Step32, Fits32, Joined;
    if Step32(acc, s[0], k).Some? {
      TenthByte(s, k, acc);
      LastByteJoins(acc, s[0], k);
    }
  }

  lemma LastByteJoins(acc: nat, b: Byte, k: nat)
    requires Fits32(acc, k) && k <= 9 && b < 0x80 && Step32(acc, b, k).Some?
    ensures Step32(acc, b, k).value == Joined(acc, k, b)
  {
    hide Step32, Fits32;
    StepFits(acc, b, k);
    StepAgrees(acc, b, k, 0);
    JoinedDone(Step32(acc, b, k).value, k + 1);
  }

  lemma FollowsMore(s: seq<Byte>, k: nat, acc: nat)
    requires Fits32(acc, k) && k < 9 && s != [] && s[0] >= 0x80 && Step32(acc, s[0], k).Some?
    requires Follows(s[1..], k + 1, Step32(acc, s[0], k).value)
    ensures Follows(s, k, acc)
  {
    var rest := VarintAt(s[1..], k + 1);
    if rest.Got? {
      ReadMore(s, k, rest);
      StepAgrees(acc, s[0], k, rest.value);
    }
  }

  lemma {:induction false} Varint32Follows(s: seq<Byte>, k: nat, acc: nat)
    requires Fits32(acc, k) && k <= 9
    ensures Follows(s, k, acc)
    decreases |s|
  {
    if s != [] && s[0] < 0x80 {
      FollowsLast(s, k, acc);
    } else if s != [] && k < 9 && Step32(acc, s[0], k).Some? {
      StepFits(acc, s[0], k);
      Varint32Follows(s[1..], k + 1, Step32(acc, s[0], k).value);
      FollowsMore(s, k, acc);
    } else if Varint32At(s, k, acc).Got? {
      TenthByte(s, k, acc);
    }
  }

  /** Whenever the 32-bit reader succeeds, the 64-bit reader reads the same bytes, and the result
      is its value modulo 2^32. */
  lemma Varint32Agrees(s: seq<Byte>)
    requires Varint32(s).Got?
    ensures Varint(s).Got? && Varint(s).rest == Varint32(s).rest
    ensures Varint32(s).value == Varint(s).value % 0x1_0000_0000
  {
    Varint32Follows(s, 0, 0);
  }

  /** The byte a continued value starts with is accepted at its place. */
  lemma ContinuedByte(v: nat, k: nat, acc: nat)
    requires k <= 3 && v >= 0x80
    ensures Step32(acc, 0x80 + v % 0x80, k) == Some(acc + Pow128(k) * (v % 0x80))
  {
  }

  lemma LastByte(v: nat, k: nat, acc: nat)
    requires k <= 4 && v < 0x80 && acc + Pow128(k) * v < 0x1_0000_0000
    ensures Step32(acc, v, k) == Some(acc + Pow128(k) * v)
  {
    assert v % 0x80 == v;
    if k == 4 {
      FifthOfFive(v, acc);
    }
  }

  lemma FifthOfFive(v: nat, acc: nat)
    requires v < 0x80 && acc + Pow128(4) * v < 0x1_0000_0000
    ensures v < 0x10 && Pow128(4) * v == v % 0x10 * 0x1000_0000
  {
    SmallPowers();
    assert Pow128(4) * v == 0x1000_0000 * v;
  }

  lemma FiveBytesAtMost(v: nat, k: nat, acc: nat)
    requires k <= 4 && acc + Pow128(k) * v < 0x1_0000_0000 && v >= 0x80
    ensures k <= 3
  {
    SmallPowers();
  }

  lemma {:induction false} Reads32Base128(v: nat, k: nat, acc: nat, rest: seq<Byte>)
    requires k <= 4 && Fits32(acc, k) && acc + Pow128(k) * v < 0x1_0000_0000
    ensures Varint32At(Base128(v) + rest, k, acc) == Got(acc + Pow128(k) * v, rest)
    decreases v
  {
    var s := Base128(v) + rest;
    if v < 0x80 {
      LastByte(v, k, acc);
      assert s[1..] == rest;
    } else {
      FiveBytesAtMost(v, k, acc);
      ContinuedByte(v, k, acc);
      StepFits(acc, s[0], k);
      assert s[1..] == Base128(v / 0x80) + rest;
      Distribute(Pow128(k), v % 0x80, v / 0x80);
      Reads32Base128(v / 0x80, k + 1, acc + Pow128(k) * (v % 0x80), rest);
    }
  }

  /** Every 32-bit value written in base 128 is read back by the 32-bit reader. */
  lemma Varint32RoundTrip(v: U32, rest: seq<Byte>)
    ensures Varint32(Base128(v) + rest) == Got(v, rest)
  {
    assert Pow128(0) == 1 && Pow128(0) * v == v;
    Reads32Base128(v, 0, 0, rest);
  }

  // ---- Zigzag ----

  /** `pb_encode_svarint`'s mapping, with its mask, shift and complement in 64-bit arithmetic. */
  function Zigzag(n: I64): U64 {
    if n < 0 then
      var bits := n + 0x1_0000_0000_0000_0000;
      0xFFFF_FFFF_FFFF_FFFF - 2 * (bits % 0x8000_0000_0000_0000)
    else 2 * n
  }

  /** `pb_decode_svarint`'s: the complement of the shifted value, read as signed. */
  function Unzigzag(v: U64): I64 {
    if v % 2 == 1 then 0xFFFF_FFFF_FFFF_FFFF - v / 2 - 0x1_0000_0000_0000_0000 else v / 2
  }

  lemma ZigzagValue(n: I64)
    ensures Zigzag(n) == if n < 0 then -2 * n - 1 else 2 * n
  {
    assert n < 0 ==> (n + 0x1_0000_0000_0000_0000) % 0x8000_0000_0000_0000 == n + 0x8000_0000_0000_0000;
  }

  lemma UnzigzagValue(v: U64)
    ensures Unzigzag(v) == if v % 2 == 1 then -(v / 2) - 1 else v / 2
  {
  }

  /** Zigzag is the alternating enumeration 0, -1, 1, -2, .., and both directions are exact. */
  lemma ZigzagBijective(n: I64, v: U64)
    ensures Zigzag(n) == if n < 0 then -2 * n - 1 else 2 * n
    ensures Unzigzag(Zigzag(n)) == n && Zigzag(Unzigzag(v)) == v
  {
    hide Zigzag, Unzigzag;
    ZigzagValue(n);
    UnzigzagValue(Zigzag(n));
    UnzigzagValue(v);
    ZigzagValue(Unzigzag(v));
  }

  // ---- The encoder ----

  /** Bits of a 64-bit value above its low word, seen from chunk `i`. */
  function Lift(i: nat): nat
    requires i <= 4
  {
    if i == 0 then 0x1_0000_0000 else if i == 1 then 0x200_0000 else if i == 2 then 0x4_0000
    else if i == 3 then 0x800 else 0x10
  }

  function Above(i: nat, high: nat): nat
    requires i <= 4
  {
    if i == 0 then 0x1_0000_0000 * high else if i == 1 then 0x200_0000 * high
    else if i == 2 then 0x4_0000 * high else if i == 3 then 0x800 * high else 0x10 * high
  }

  /** Of `n`, the chunk in hand, the low word above it and the high word above that. */
  predicate Chunked(n: nat, byte: nat, low: nat, high: nat, i: nat) {
    i <= 4 && byte < 0x80 && byte + 0x80 * low < Lift(i) && n == byte + 0x80 * low + Above(i, high)
  }

  lemma FirstChunk(low: U32, high: U32)
    ensures Chunked(low + 0x1_0000_0000 * high, low % 0x80, low / 0x80, high, 0)
  {
  }

  lemma AboveShifts(i: nat, high: nat)
    requires i < 4
    ensures Lift(i) == 0x80 * Lift(i + 1) && Above(i, high) == 0x80 * Above(i + 1, high)
    ensures high != 0 ==> Above(i + 1, high) >= 1
  {
  }

  /** One more chunk of the low word leaves as a continued byte. */
  lemma ChunkLeaves(n: nat, byte: nat, low: nat, high: nat, i: nat)
    requires i < 4 && Chunked(n, byte, low, high, i) && (low != 0 || high != 0)
    ensures Base128(n) == [0x80 + byte] + Base128(n / 0x80)
    ensures Chunked(n / 0x80, low % 0x80, low / 0x80, high, i + 1)
  {
    var rest := low + Above(i + 1, high);
    AboveShifts(i, high);
    assert n == byte + 0x80 * rest && rest >= 1;
    assert n / 0x80 == rest && n % 0x80 == byte;
  }

  /** When the loop over the low word ends, the chunk in hand and the high word are all that is
      left; in the fifth chunk the high word starts at bit 4. */
  lemma FirstChunksDone(n: nat, byte: nat, low: nat, high: nat, i: nat)
    requires Chunked(n, byte, low, high, i) && (i == 4 || (low == 0 && high == 0))
    ensures high == 0 ==> n == byte
    ensures high != 0 ==> byte + 0x10 * (high % 8) < 0x80
                          && n == byte + 0x10 * (high % 8) + 0x80 * (high / 8)
    ensures byte < 0x80
  {
  }

  lemma TenBytes(v: U64)
    ensures |Base128(v)| <= 10
  {
    SmallPowers();
    assert Pow128(5) == 0x80 * Pow128(4) && Pow128(6) == 0x80 * Pow128(5) && Pow128(7) == 0x80 * Pow128(6);
    assert Pow128(8) == 0x80 * Pow128(7) && Pow128(9) == 0x80 * Pow128(8) && Pow128(10) == 0x80 * Pow128(9);
    Base128Length(v, 10);
  }

  /** The tail of `pb_encode_varint_32`: the last chunk in hand and the bits above it. */
  method EncodeHigh(chunk: Byte, highBits: nat) returns (tail: seq<Byte>)
    requires chunk < 0x80
    ensures tail == Base128(chunk + 0x80 * highBits)
  {
    var byte: nat, high := chunk, highBits;
    tail := [];
    while high != 0
      invariant byte < 0x80
      invariant Base128(chunk + 0x80 * highBits) == tail + Base128(byte + 0x80 * high)
    {
      assert (byte + 0x80 * high) / 0x80 == high && (byte + 0x80 * high) % 0x80 == byte;
      tail := tail + [0x80 + byte];
      byte := high % 0x80;
      high := high / 0x80;
    }
    tail := tail + [byte];
  }

  /** The loop over the low word: up to four continued bytes, the chunk then in hand and how
      many left. */
  method EncodeLow(lowWord: U32, highWord: U32) returns (head: seq<Byte>, chunk: nat, ghost n: nat)
    ensures chunk < 0x80 && Base128(lowWord + 0x1_0000_0000 * highWord) == head + Base128(n)
    ensures highWord == 0 ==> n == chunk
    ensures highWord != 0 ==> chunk + 0x10 * (highWord % 8) < 0x80
                              && n == chunk + 0x10 * (highWord % 8) + 0x80 * (highWord / 8)
  {
    hide Chunked, Base128;
    FirstChunk(lowWord, highWord);
    var i: nat, low: nat := 0, lowWord / 0x80;
    head, chunk, n := [], lowWord % 0x80, lowWord + 0x1_0000_0000 * highWord;
    while i < 4 && (low != 0 || highWord != 0)
      invariant i <= 4 && chunk < 0x80 && Chunked(n, chunk, low, highWord, i)
      invariant Base128(lowWord + 0x1_0000_0000 * highWord) == head + Base128(n)
      decreases 4 - i
    {
      ChunkLeaves(n, chunk, low, highWord, i);
      head, n, i := head + [0x80 + chunk], n / 0x80, i + 1;
      chunk, low := low % 0x80, low / 0x80;
    }
    FirstChunksDone(n, chunk, low, highWord, i);
  }

  /** `pb_encode_varint_32`: no 64-bit shifts, the value split in two words. */
  method EncodeVarint32(lowWord: U32, highWord: U32) returns (buffer: seq<Byte>)
    ensures buffer == Base128(lowWord + 0x1_0000_0000 * highWord) && |buffer| <= 10
  {
    TenBytes(lowWord + 0x1_0000_0000 * highWord);
    var head, chunk, n := EncodeLow(lowWord, highWord);
    var byte, high: nat := chunk, highWord;
    if high != 0 {
      byte := byte + 0x10 * (high % 8);
      high := high / 8;
    }
    var tail := EncodeHigh(byte, high);
    buffer := head + tail;
  }

  /** `pb_encode_varint`. */
  method EncodeVarint(value: U64) returns (buffer: seq<Byte>)
    ensures buffer == Base128(value) && |buffer| <= 10
  {
    if value <= 0x7F {
      return [value];
    }
    buffer := EncodeVarint32(value % 0x1_0000_0000, value / 0x1_0000_0000);
  }
}
