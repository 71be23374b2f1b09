/** The device keypair in flash and the CRC that guards it. */
module Keypair {
  import opened Types
  import opened OutboundSequence

  type Bytes = seq<bv8>

  const INITIAL: bv16 := 0xFFFF

  /** One bit of the CRC register: multiply by x, and reduce by 0x1021 under the mask
      of the bit that falls out. */
  function Shift(c: bv16): bv16 {
    (c << 1) ^ ((0 - (c >> 15)) & 0x1021)
  }

  function Iterate<T>(f: T -> T, x: T, n: nat): T {
    if n == 0 then x else f(Iterate(f, x, n - 1))
  }

  function Times<T>(f: T -> T, n: nat): T -> T {
    x => Iterate(f, x, n)
  }

  function Xor(a: bv16, b: bv16): bv16 {
    a ^ b
  }

  function High(b: bv8): bv16 {
    (b as bv16) << 8
  }

  /** What the register does under the bits of one byte. */
  type Mixer = bv16 -> bv16

  const EIGHT_SHIFTS: Mixer := Times(Shift, 8)

  function ByteStep(crc: bv16, b: bv8, f: Mixer): bv16 {
    f(crc ^ High(b))
  }

  function CrcFrom(crc: bv16, data: Bytes, f: Mixer): bv16
    decreases |data|
  {
    if data == [] then crc else CrcFrom(ByteStep(crc, data[0], f), data[1..], f)
  }

  /** `crc16`: polynomial 0x1021, initial value 0xFFFF, eight shifts a byte. */
  function Crc(data: Bytes): bv16 {
    CrcFrom(INITIAL, data, EIGHT_SHIFTS)
  }

  // ---- The register is linear and loses nothing ----

  lemma XorCancel(a: bv16, b: bv16, c: bv16)
    requires a ^ c == b ^ c
    ensures a == b
  {
  }

  lemma ShiftInjective(a: bv16, b: bv16)
    requires Shift(a) == Shift(b)
    ensures a == b
  {
  }

  lemma ShiftLinear(a: bv16, b: bv16)
    ensures Shift(a ^ b) == Shift(a) ^ Shift(b)
  {
  }

  /** The branch on the top bit computes the same. */
  lemma ShiftBranches(c: bv16)
    ensures c & 0x8000 != 0 ==> Shift(c) == (c << 1) ^ 0x1021
    ensures c & 0x8000 == 0 ==> Shift(c) == c << 1
  {
  }

  ghost predicate Injective<T(!new)>(f: T -> T) {
    forall x, y :: f(x) == f(y) ==> x == y
  }

  ghost predicate Additive<T(!new)>(f: T -> T, add: (T, T) -> T) {
    forall x, y {:trigger f(add(x, y))} :: f(add(x, y)) == add(f(x), f(y))
  }

  lemma {:induction false} IterateInjective<T(!new)>(f: T -> T, a: T, b: T, n: nat)
    requires Injective(f) && Iterate(f, a, n) == Iterate(f, b, n)
    ensures a == b
  {
    if n > 0 {
      IterateInjective(f, a, b, n - 1);
    }
  }

  lemma {:induction false} IterateAdditive<T(!new)>(f: T -> T, add: (T, T) -> T, a: T, b: T, n: nat)
    requires Additive(f, add)
    ensures Iterate(f, add(a, b), n) == add(Iterate(f, a, n), Iterate(f, b, n))
  {
    if n > 0 {
      IterateAdditive(f, add, a, b, n - 1);
    }
  }

  lemma TimesInjective<T(!new)>(f: T -> T, n: nat)
    requires Injective(f)
    ensures Injective(Times(f, n))
  {
    forall x, y | Times(f, n)(x) == Times(f, n)(y)
      ensures x == y
    {
      IterateInjective(f, x, y, n);
    }
  }

  lemma TimesAdditive<T(!new)>(f: T -> T, add: (T, T) -> T, n: nat)
    requires Additive(f, add)
    ensures Additive(Times(f, n), add)
  {
    forall x, y
      ensures Times(f, n)(add(x, y)) == add(Times(f, n)(x), Times(f, n)(y))
    {
      IterateAdditive(f, add, x, y, n);
    }
  }

  lemma ByteStepInjective(a: bv16, b: bv16, d: bv8, f: Mixer)
    requires Injective(f) && ByteStep(a, d, f) == ByteStep(b, d, f)
    ensures a == b
  {
    XorCancel(a, b, High(d));
  }

  lemma {:induction false} CrcFromInjective(a: bv16, b: bv16, data: Bytes, f: Mixer)
    requires Injective(f) && CrcFrom(a, data, f) == CrcFrom(b, data, f)
    ensures a == b
    decreases |data|
  {
    if data != [] {
      CrcFromInjective(ByteStep(a, data[0], f), ByteStep(b, data[0], f), data[1..], f);
      ByteStepInjective(a, b, data[0], f);
    }
  }

  lemma {:induction false} CrcFromConcat(crc: bv16, a: Bytes, b: Bytes, f: Mixer)
    ensures CrcFrom(crc, a + b, f) == CrcFrom(CrcFrom(crc, a, f), b, f)
    decreases |a|
  {
    if a == [] {
      assert a + b == b;
    } else {
      CrcFromConcat(ByteStep(crc, a[0], f), a[1..], b, f);
      assert (a + b)[1..] == a[1..] + b;
    }
  }

  /** A lone difference in the high byte always spills into the low byte. */
  ghost predicate Spills(f: Mixer) {
    forall d: bv8 :: d != 0 ==> f(High(d)) & 0x00FF != 0
  }

  /** No information is lost, and two neighbouring bytes cannot cancel. */
  ghost predicate Sound(f: Mixer) {
    Injective(f) && Additive(f, Xor) && Spills(f)
  }

  function Shift8(c: bv16): bv16 {
    Shift(Shift(Shift(Shift(Shift(Shift(Shift(Shift(c))))))))
  }

  lemma LowByteMoves(d: bv8)
    requires d != 0
    ensures Shift8(High(d)) & 0x00FF != 0
  {
  }

  lemma IterateNext<T>(f: T -> T, x: T, n: nat)
    ensures Iterate(f, x, n + 1) == f(Iterate(f, x, n))
  {
  }

  lemma IterateEight<T>(f: T -> T, x: T)
    ensures Iterate(f, x, 8) == f(f(f(f(f(f(f(f(x))))))))
  {
    IterateNext(f, x, 0);
    IterateNext(f, x, 1);
    IterateNext(f, x, 2);
    IterateNext(f, x, 3);
    IterateNext(f, x, 4);
    IterateNext(f, x, 5);
    IterateNext(f, x, 6);
    IterateNext(f, x, 7);
  }

  lemma EightIsShift8(c: bv16)
    ensures EIGHT_SHIFTS(c) == Shift8(c)
  {
    IterateEight(Shift, c);
  }

  lemma ShiftLaws()
    ensures Additive(Shift, Xor) && Injective(Shift)
  {
    forall x, y
      ensures Shift(Xor(x, y)) == Xor(Shift(x), Shift(y))
    {
      ShiftLinear(x, y);
    }
    forall x, y | Shift(x) == Shift(y)
      ensures x == y
    {
      ShiftInjective(x, y);
    }
  }

  lemma EightSpill()
    ensures Spills(EIGHT_SHIFTS)
  {
    forall d: bv8 | d != 0
      ensures EIGHT_SHIFTS(High(d)) & 0x00FF != 0
    {
      EightIsShift8(High(d));
      LowByteMoves(d);
    }
  }

  lemma EightShiftsSound()
    ensures Sound(EIGHT_SHIFTS)
  {
    ShiftLaws();
    TimesInjective(Shift, 8);
    TimesAdditive(Shift, Xor, 8);
    EightSpill();
  }

  lemma InputDifference(c: bv16, a: bv8, b: bv8)
    ensures Xor(c ^ High(a), c ^ High(b)) == High(a ^ b)
  {
  }

  /** Registers that meet after a byte differed in the high byte only. */
  lemma MeetingRegisters(s: bv16, t: bv16, a: bv8, b: bv8)
    requires s ^ High(a) == t ^ High(b)
    ensures (s ^ t) & 0x00FF == 0 && (s == t ==> a == b)
  {
  }

  lemma SameXor(a: bv8, b: bv8)
    requires a ^ b == 0
    ensures a == b
  {
  }

  lemma SpillsAt(f: Mixer, d: bv8, x: bv16)
    requires Spills(f) && x == f(High(d)) && x & 0x00FF == 0
    ensures d == 0
  {
  }

  lemma NoSpill(x: bv16, a: bv8, b: bv8, f: Mixer)
    requires Spills(f) && x == f(High(a ^ b)) && x & 0x00FF == 0
    ensures a == b
  {
    SpillsAt(f, a ^ b, x);
    SameXor(a, b);
  }

  lemma LinearAt(f: Mixer, u: bv16, v: bv16)
    requires Additive(f, Xor)
    ensures f(Xor(u, v)) == f(u) ^ f(v)
  {
  }

  lemma InjectiveAt(f: Mixer, u: bv16, v: bv16)
    requires Injective(f) && f(u) == f(v)
    ensures u == v
  {
  }

  lemma SecondByte(s: bv16, t: bv16, a: bv8, b: bv8, f: Mixer)
    requires Injective(f) && ByteStep(s, a, f) == ByteStep(t, b, f)
    ensures (s ^ t) & 0x00FF == 0 && (s == t ==> a == b)
  {
    InjectiveAt(f, s ^ High(a), t ^ High(b));
    MeetingRegisters(s, t, a, b);
  }

  lemma FirstByteAt(u: bv16, v: bv16, a: bv8, b: bv8, f: Mixer)
    requires Additive(f, Xor) && Spills(f) && Xor(u, v) == High(a ^ b) && (f(u) ^ f(v)) & 0x00FF == 0
    ensures a == b
  {
    LinearAt(f, u, v);
    NoSpill(f(u) ^ f(v), a, b, f);
  }

  lemma FirstByte(c: bv16, a: bv8, b: bv8, f: Mixer)
    requires Additive(f, Xor) && Spills(f) && (ByteStep(c, a, f) ^ ByteStep(c, b, f)) & 0x00FF == 0
    ensures a == b
  {
    InputDifference(c, a, b);
    FirstByteAt(c ^ High(a), c ^ High(b), a, b, f);
  }

  /** From one register, two different pairs of bytes never meet again. */
  lemma PairDetected(c: bv16, a0: bv8, a1: bv8, b0: bv8, b1: bv8, f: Mixer)
    requires Sound(f) && ByteStep(ByteStep(c, a0, f), a1, f) == ByteStep(ByteStep(c, b0, f), b1, f)
    ensures a0 == b0 && a1 == b1
  {
    SecondByte(ByteStep(c, a0, f), ByteStep(c, b0, f), a1, b1, f);
    FirstByte(c, a0, b0, f);
  }

  lemma MiddleDetected(c: bv16, p: Bytes, q: Bytes, tail: Bytes, f: Mixer)
    requires |p| == |q| == 2 && Sound(f)
    requires CrcFrom(c, p + tail, f) == CrcFrom(c, q + tail, f)
    ensures p == q
  {
    CrcFromConcat(c, p, tail, f);
    CrcFromConcat(c, q, tail, f);
    CrcFromInjective(CrcFrom(c, p, f), CrcFrom(c, q, f), tail, f);
    assert p == [p[0], p[1]] && q == [q[0], q[1]];
    TwoBytes(c, p[0], p[1], f);
    TwoBytes(c, q[0], q[1], f);
    PairDetected(c, p[0], p[1], q[0], q[1], f);
  }

  lemma CutInThree(x: Bytes, at: nat)
    requires at + 2 <= |x|
    ensures x == x[..at] + (x[at..at + 2] + x[at + 2..])
  {
  }

  /** Two images of equal length that differ, and only within two consecutive bytes, have
      different CRCs. */
  lemma BurstDetected(x: Bytes, y: Bytes, at: nat, f: Mixer)
    requires |x| == |y| && at + 2 <= |x| && x != y && Sound(f)
    requires forall i :: 0 <= i < |x| && i != at && i != at + 1 ==> x[i] == y[i]
    ensures CrcFrom(INITIAL, x, f) != CrcFrom(INITIAL, y, f)
  {
    var head, tail := x[..at], x[at + 2..];
    CutInThree(x, at);
    CutInThree(y, at);
    assert head == y[..at] && tail == y[at + 2..];
    CrcFromConcat(INITIAL, head, x[at..at + 2] + tail, f);
    CrcFromConcat(INITIAL, head, y[at..at + 2] + tail, f);
    if CrcFrom(INITIAL, x, f) == CrcFrom(INITIAL, y, f) {
      MiddleDetected(CrcFrom(INITIAL, head, f), x[at..at + 2], y[at..at + 2], tail, f);
    }
  }

  lemma TwoBytes(c: bv16, a: bv8, b: bv8, f: Mixer)
    ensures CrcFrom(c, [a, b], f) == ByteStep(ByteStep(c, a, f), b, f)
  {
    assert [a, b][1..] == [b] && [b][1..] == [];
    assert CrcFrom(ByteStep(c, a, f), [b], f) == CrcFrom(ByteStep(ByteStep(c, a, f), b, f), [], f);
  }

  // ---- The store ----

  /** The three keys of the NVS namespace; `None` is a key never written. */
  datatype Image = Image(priv: Option<Bytes>, pub: Option<Bytes>, crc: Option<bv32>)

  const KEY_LEN := 32
  const NO_CRC: bv32 := 0xFFFF_FFFF

  datatype Pair = Pair(priv: Bytes, pub: Bytes)

  function Low16(v: bv32): bv16 {
    (v & 0xFFFF) as bv16
  }

  function Widened(c: bv16): bv32 {
    c as bv32
  }

  /** `loadKeypair`. */
  function Loaded(f: Image): (r: Option<Pair>)
    ensures r.Some? ==> |r.value.priv| == KEY_LEN && |r.value.pub| == KEY_LEN
  {
    if f.priv.None? || f.pub.None? || |f.priv.value| != KEY_LEN || |f.pub.value| != KEY_LEN then None
    else
      var stored := if f.crc.Some? then f.crc.value else NO_CRC;
      if stored == NO_CRC || Low16(stored) != Crc(f.priv.value + f.pub.value) then None
      else Some(Pair(f.priv.value, f.pub.value))
  }

  function Saved(p: Pair): Image {
    Image(Some(p.priv), Some(p.pub), Some(Widened(Crc(p.priv + p.pub))))
  }

  predicate WholePair(p: Pair) {
    |p.priv| == KEY_LEN && |p.pub| == KEY_LEN
  }

  lemma CrcSurvivesStore(c: bv16)
    ensures Low16(Widened(c)) == c && Widened(c) != NO_CRC
  {
  }

  lemma LoadAfterSave(p: Pair)
    requires WholePair(p)
    ensures Loaded(Saved(p)) == Some(p)
  {
    CrcSurvivesStore(Crc(p.priv + p.pub));
  }

  /** A saved keypair damaged only within two consecutive bytes of its 64-byte image is
      rejected. */
  lemma DamageRejected(p: Pair, q: Pair, at: nat)
    requires WholePair(p) && WholePair(q) && p != q && at + 2 <= 2 * KEY_LEN
    requires var x, y := p.priv + p.pub, q.priv + q.pub;
             forall i :: 0 <= i < 2 * KEY_LEN && i != at && i != at + 1 ==> x[i] == y[i]
    ensures Loaded(Saved(p).(priv := Some(q.priv), pub := Some(q.pub))) == None
  {
    var x, y := p.priv + p.pub, q.priv + q.pub;
    CrcSurvivesStore(Crc(x));
    assert x[..KEY_LEN] == p.priv && y[..KEY_LEN] == q.priv;
    assert x[KEY_LEN..] == p.pub && y[KEY_LEN..] == q.pub;
    EightShiftsSound();
    BurstDetected(x, y, at, EIGHT_SHIFTS);
  }

  /** `saveKeypair` in its three writes; a reported failure restarts the device on the spot. */
  function SavedWith(f: Image, p: Pair, w1: Write, w2: Write, w3: Write): Image {
    var f1 := if w1 == Lost then f else f.(priv := Some(p.priv));
    if w1 != Done then f1
    else
      var f2 := if w2 == Lost then f1 else f1.(pub := Some(p.pub));
      if w2 != Done then f2
      else if w3 == Lost then f2 else f2.(crc := Some(Widened(Crc(p.priv + p.pub))))
  }

  /** The first save of a device, interrupted anywhere: the next boot loads either the pair being
      saved or nothing, and the pair exactly when the CRC reached flash. */
  lemma FirstSaveIsAtomic(f: Image, p: Pair, w1: Write, w2: Write, w3: Write)
    requires WholePair(p) && f.crc == None
    ensures Loaded(SavedWith(f, p, w1, w2, w3))
         == if w1 == Done && w2 == Done && w3 != Lost then Some(p) else None
  {
    LoadAfterSave(p);
  }

  class KeypairStore {
    var image: Image

    constructor ()
      ensures image == Image(None, None, None)
    {
      image := Image(None, None, None);
    }

    /** The inner loop of `crc16`. */
    method EightShifts(start: bv16) returns (crc: bv16)
      ensures crc == EIGHT_SHIFTS(start)
    {
      crc := start;
      for j := 0 to 8
        invariant crc == Iterate(Shift, start, j)
      {
        ShiftBranches(crc);
        if crc & 0x8000 != 0 {
          crc := (crc << 1) ^ 0x1021;
        } else {
          crc := crc << 1;
        }
      }
    }

    /** `crc16`. */
    method Crc16(data: Bytes) returns (crc: bv16)
      ensures crc == Crc(data)
    {
      crc := 0xFFFF;
      for i := 0 to |data|
        invariant Crc(data) == CrcFrom(crc, data[i..], EIGHT_SHIFTS)
      {
        assert data[i..][1..] == data[i + 1..];
        ghost var before := crc;
        crc := crc ^ High(data[i]);
        crc := EightShifts(crc);
        assert crc == ByteStep(before, data[i], EIGHT_SHIFTS);
      }
    }

    method Save(p: Pair, w1: Write, w2: Write, w3: Write) returns (on: bool)
      requires WholePair(p)
      modifies this
      ensures image == SavedWith(old(image), p, w1, w2, w3)
      ensures on == (w1 == Done && w2 == Done && w3 == Done)
    {
      if w1 != Lost { image := image.(priv := Some(p.priv)); }
      if w1 != Done { return false; }
      if w2 != Lost { image := image.(pub := Some(p.pub)); }
      if w2 != Done { return false; }
      var crc := Crc16(p.priv + p.pub);
      if w3 != Lost { image := image.(crc := Some(Widened(crc))); }
      return w3 == Done;
    }

    method Load() returns (p: Option<Pair>)
      ensures p == Loaded(image)
    {
      if image.priv.None? || image.pub.None? { return None; }
      var priv, pub := image.priv.value, image.pub.value;
      if |priv| != KEY_LEN || |pub| != KEY_LEN { return None; }
      var stored := if image.crc.Some? then image.crc.value else NO_CRC;
      if stored == NO_CRC { return None; }
      var computed := Crc16(priv + pub);
      if Low16(stored) != computed { return None; }
      return Some(Pair(priv, pub));
    }
  }
}
