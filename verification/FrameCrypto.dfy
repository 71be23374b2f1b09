/** `E2ECrypto.h` and `RouteMac.h`: the byte strings under the cryptography, and ideal
    sealing and chaining over them. */
module FrameCrypto {
  import opened Types
  import opened Keys
  import opened Message

  /** `int32_t` bit pattern as an unsigned word. */
  function Bits32(n: I32): U32 {
    if n < 0 then n + 0x1_0000_0000 else n
  }

  /** Twelve bytes: epoch, sequence, origin. */
  function BuildNonce(m: Msg): (r: seq<Byte>)
    ensures |r| == 12
  {
    Le32(m.epoch) + Le16(m.seqNum) + MacBytes(m.origin)
  }

  /** Twenty-four bytes: version, type, data type, origin, target, epoch, sequence. */
  function BuildAad(m: Msg): (r: seq<Byte>)
    ensures |r| == 24
  {
    [m.proto, m.kind] + Le32(Bits32(m.dataType)) + MacBytes(m.origin) + MacBytes(m.target)
    + Le32(m.epoch) + Le16(m.seqNum)
  }

  /** Thirty bytes: origin, target, epoch, sequence, previous hop, this hop. */
  function BuildHopContext(m: Msg, prev: Mac, hop: Mac): (r: seq<Byte>)
    ensures |r| == 30
  {
    MacBytes(m.origin) + MacBytes(m.target) + Le32(m.epoch) + Le16(m.seqNum)
    + MacBytes(prev) + MacBytes(hop)
  }

  lemma NonceInjective(a: Msg, b: Msg)
    requires BuildNonce(a) == BuildNonce(b)
    ensures a.epoch == b.epoch && a.seqNum == b.seqNum && a.origin == b.origin
  {
    SplitEqual(Le32(a.epoch) + Le16(a.seqNum), MacBytes(a.origin),
               Le32(b.epoch) + Le16(b.seqNum), MacBytes(b.origin));
    SplitEqual(Le32(a.epoch), Le16(a.seqNum), Le32(b.epoch), Le16(b.seqNum));
    Le32Injective(a.epoch, b.epoch);
    Le16Injective(a.seqNum, b.seqNum);
    MacBytesInjective(a.origin, b.origin);
  }

  /** The additional data determines every field it covers. */
  lemma AadInjective(a: Msg, b: Msg)
    requires BuildAad(a) == BuildAad(b)
    ensures a.proto == b.proto && a.kind == b.kind && a.dataType == b.dataType
    ensures a.origin == b.origin && a.target == b.target
    ensures a.epoch == b.epoch && a.seqNum == b.seqNum
  {
    var a1, b1 := [a.proto, a.kind], [b.proto, b.kind];
    var a2, b2 := a1 + Le32(Bits32(a.dataType)), b1 + Le32(Bits32(b.dataType));
    var a3, b3 := a2 + MacBytes(a.origin), b2 + MacBytes(b.origin);
    var a4, b4 := a3 + MacBytes(a.target), b3 + MacBytes(b.target);
    var a5, b5 := a4 + Le32(a.epoch), b4 + Le32(b.epoch);
    SplitEqual(a5, Le16(a.seqNum), b5, Le16(b.seqNum));
    SplitEqual(a4, Le32(a.epoch), b4, Le32(b.epoch));
    SplitEqual(a3, MacBytes(a.target), b3, MacBytes(b.target));
    SplitEqual(a2, MacBytes(a.origin), b2, MacBytes(b.origin));
    SplitEqual(a1, Le32(Bits32(a.dataType)), b1, Le32(Bits32(b.dataType)));
    assert a1[0] == b1[0] && a1[1] == b1[1];
    Le32Injective(Bits32(a.dataType), Bits32(b.dataType));
    Le32Injective(a.epoch, b.epoch);
    Le16Injective(a.seqNum, b.seqNum);
    MacBytesInjective(a.origin, b.origin);
    MacBytesInjective(a.target, b.target);
  }

  /** A hop context determines the frame's addresses, its pair and its two hops. */
  lemma HopContextInjective(a: Msg, p: Mac, h: Mac, b: Msg, q: Mac, k: Mac)
    requires BuildHopContext(a, p, h) == BuildHopContext(b, q, k)
    ensures p == q && h == k && SameHeader(a, b)
  {
    var a1, b1 := MacBytes(a.origin) + MacBytes(a.target), MacBytes(b.origin) + MacBytes(b.target);
    var a2, b2 := a1 + Le32(a.epoch), b1 + Le32(b.epoch);
    var a3, b3 := a2 + Le16(a.seqNum), b2 + Le16(b.seqNum);
    SplitEqual(a3 + MacBytes(p), MacBytes(h), b3 + MacBytes(q), MacBytes(k));
    SplitEqual(a3, MacBytes(p), b3, MacBytes(q));
    SplitEqual(a2, Le16(a.seqNum), b2, Le16(b.seqNum));
    SplitEqual(a1, Le32(a.epoch), b1, Le32(b.epoch));
    SplitEqual(MacBytes(a.origin), MacBytes(a.target), MacBytes(b.origin), MacBytes(b.target));
    MacBytesInjective(a.origin, b.origin);
    MacBytesInjective(a.target, b.target);
    Le32Injective(a.epoch, b.epoch);
    Le16Injective(a.seqNum, b.seqNum);
    MacBytesInjective(p, q);
    MacBytesInjective(h, k);
  }

  /** The four header fields under every hop context of a report. */
  predicate SameHeader(a: Msg, b: Msg) {
    a.origin == b.origin && a.target == b.target && a.epoch == b.epoch && a.seqNum == b.seqNum
  }

  /** `sealPayload`. */
  function SealPayload(key: Key, m: Msg): Msg {
    m.(data := Sealed(key, BuildNonce(m), BuildAad(m), m.data),
       authTag := Tag(key, BuildNonce(m), BuildAad(m), m.data))
  }

  /** `openPayload`: the ideal AEAD opens exactly what was sealed under the same key, nonce and
      additional data, with its own tag. */
  function OpenPayload(key: Key, m: Msg): Option<Msg> {
    if m.data.Sealed? && m.data.key == key && m.data.nonce == BuildNonce(m)
       && m.data.aad == BuildAad(m)
       && m.authTag == Tag(key, m.data.nonce, m.data.aad, m.data.plain)
    then Some(m.(data := m.data.plain)) else None
  }

  /** `chainStep` over a hop context. */
  function ChainStep(secret: Key, ctx: seq<Byte>, prev: ChainMac): ChainMac {
    Link(secret, ctx, prev)
  }

  /** What the AEAD covers of a frame; a relay must not disturb it. */
  datatype Envelope = Envelope(nonce: seq<Byte>, aad: seq<Byte>, data: Data, tag: Tag)

  function EnvelopeOf(m: Msg): Envelope {
    Envelope(BuildNonce(m), BuildAad(m), m.data, m.authTag)
  }

  lemma OpenAfterSeal(key: Key, m: Msg, r: Msg)
    requires EnvelopeOf(r) == EnvelopeOf(SealPayload(key, m))
    ensures OpenPayload(key, r).Some? && OpenPayload(key, r).value.data == m.data
  {
  }

  /** What opens under a key was sealed under it for the same seven header fields. */
  lemma OpenedWasSealed(key: Key, m: Msg, r: Msg)
    requires r.data == SealPayload(key, m).data && r.authTag == SealPayload(key, m).authTag
    ensures OpenPayload(key, r).Some? <==>
              r.proto == m.proto && r.kind == m.kind && r.dataType == m.dataType
              && r.origin == m.origin && r.target == m.target
              && r.epoch == m.epoch && r.seqNum == m.seqNum
  {
    if OpenPayload(key, r).Some? {
      AadInjective(r, m);
    }
  }
}
