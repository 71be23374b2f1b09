/** Symbolic key material. X25519 agreement is the unordered pair of the two private
    scalars, HKDF with two labels is two constructors, HMAC is a constructor. */
module Keys {
  import opened Types

  /** A 32-byte public key: all zero, or the key of some private scalar. */
  datatype PubKey = NoKey | Pub(id: nat)

  /** The two direction keys derived from one shared secret. */
  datatype Key = KUp(secret: set<nat>) | KDown(secret: set<nat>)

  datatype KeyPair = KeyPair(up: Key, down: Key)

  /** `deriveE2EKeys`. */
  function DeriveKeys(own: nat, peer: PubKey): KeyPair
    requires peer.Pub?
  {
    KeyPair(KUp({own, peer.id}), KDown({own, peer.id}))
  }

  /** Both ends of a pair derive the same two keys. */
  lemma DeriveAgrees(a: nat, b: nat)
    ensures DeriveKeys(a, Pub(b)) == DeriveKeys(b, Pub(a))
  {
    assert {a, b} == {b, a};
  }

  /** `auth_path`: eight zero bytes, or one truncated HMAC step over the previous value. */
  datatype ChainMac = NoMac | Link(secret: Key, ctx: seq<Byte>, prev: ChainMac)

  /** First four bytes of a public key. */
  function Fingerprint(k: PubKey): nat {
    match k
    case NoKey => 0
    case Pub(id) => id % 0x1_0000_0000
  }
}
