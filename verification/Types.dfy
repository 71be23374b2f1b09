/** Fixed-width integers, MAC addresses, little-endian layout and the limits of
    `project_config.h`, shared by every other module. */
module Types {

  datatype Option<+T> = None | Some(value: T)

  type Byte = x: int | 0 <= x < 0x100
  type U16 = x: int | 0 <= x < 0x1_0000
  type U32 = x: int | 0 <= x < 0x1_0000_0000
  type U64 = x: int | 0 <= x < 0x1_0000_0000_0000_0000
  type I32 = x: int | -0x8000_0000 <= x < 0x8000_0000

  const MAX_HOPS: Byte := 8
  const MAX_PEERS := 10
  const NEIGHBOR_MAX := 8
  const REPLAY_MAX_ORIGINS := 12
  const ROUTE_TABLE_MAX := 16
  const KEYCACHE_MAX := 10
  const KEYCACHE_MAX_LEAF := 2
  const DOWNLINK_PEER_MAX := 4
  const STALE_PEER_MS := 8000
  const STALE_MASTER_MS := 9000
  const MASTER_BEACON_INTERVAL_MS := 3000
  const PROTO_VERSION: Byte := 5
  const NO_DISTANCE: Byte := 0xFF

  /** Difference of two `uint64_t` timestamps, with the wrap-around of C. */
  function Age(now: U64, seen: U64): U64 {
    (now - seen) % 0x1_0000_0000_0000_0000
  }

  /** A six-byte MAC address. */
  datatype Mac = Mac(b0: Byte, b1: Byte, b2: Byte, b3: Byte, b4: Byte, b5: Byte)

  const ZERO_MAC := Mac(0, 0, 0, 0, 0, 0)
  const BROADCAST_MAC := Mac(0xFF, 0xFF, 0xFF, 0xFF, 0xFF, 0xFF)

  type Bytes6 = s: seq<Byte> | |s| == 6 witness [0, 0, 0, 0, 0, 0]

  function MacBytes(m: Mac): Bytes6 {
    [m.b0, m.b1, m.b2, m.b3, m.b4, m.b5]
  }

  function MacOf(s: Bytes6): Mac {
    Mac(s[0], s[1], s[2], s[3], s[4], s[5])
  }

  lemma MacBytesInjective(a: Mac, b: Mac)
    requires MacBytes(a) == MacBytes(b)
    ensures a == b
  {
    assert MacOf(MacBytes(a)) == a && MacOf(MacBytes(b)) == b;
  }

  function Le16(n: U16): seq<Byte> {
    [n % 0x100, n / 0x100]
  }

  function Le32(n: U32): seq<Byte> {
    [n % 0x100, n / 0x100 % 0x100, n / 0x1_0000 % 0x100, n / 0x100_0000]
  }

  lemma Le16Injective(a: U16, b: U16)
    requires Le16(a) == Le16(b)
    ensures a == b
  {
    assert Le16(a)[0] == Le16(b)[0] && Le16(a)[1] == Le16(b)[1];
  }

  lemma Le32Injective(a: U32, b: U32)
    requires Le32(a) == Le32(b)
    ensures a == b
  {
    Le32Value(a);
    Le32Value(b);
  }

  function LeValue(s: seq<Byte>): int
    requires |s| == 4
  {
    var b0: int, b1: int, b2: int, b3: int := s[0], s[1], s[2], s[3];
    b0 + 0x100 * b1 + 0x1_0000 * b2 + 0x100_0000 * b3
  }

  lemma Le32Value(n: U32)
    ensures n == LeValue(Le32(n))
  {
    assert n / 0x100 / 0x100 == n / 0x1_0000;
    assert n / 0x1_0000 / 0x100 == n / 0x100_0000;
  }

  /** An (epoch, sequence) pair; pairs are compared lexicographically. */
  datatype Mark = Mark(epoch: U32, seqNum: U16)

  predicate Newer(a: Mark, b: Mark) {
    a.epoch > b.epoch || (a.epoch == b.epoch && a.seqNum > b.seqNum)
  }

  /** Two concatenations that agree, cut at equal lengths, agree on both halves. */
  lemma SplitEqual<T>(a: seq<T>, b: seq<T>, c: seq<T>, d: seq<T>)
    requires a + b == c + d && |a| == |c|
    ensures a == c && b == d
  {
    assert a == (a + b)[..|a|] && c == (c + d)[..|c|];
    assert b == (a + b)[|a|..] && d == (c + d)[|c|..];
  }
}
