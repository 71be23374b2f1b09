/** What reaches the adapter: exactly the frames that are authentic. */
module Authorization {
  import opened Types
  import opened Keys
  import opened Message
  import opened FrameCrypto
  import opened Peers
  import opened KeyStore
  import opened Downlink
  import opened NodeSpec

  /** The key under which this device must open a frame, if it must open it at all. */
  datatype Seal = NotSealed | SealedUnder(key: Option<Key>)

  /** A master opens sealed uplink frames under the origin's key, a node opens data addressed to
      it under its master's key, and nothing else is opened. */
  function SealOf(cfg: Config, n: Node, msg: Msg): Seal {
    if !ToSelf(cfg, msg) then NotSealed
    else if n.isMaster && IsSealedType(msg.kind) then
      var k := FreshKeys(n.peers, msg.origin, cfg.priv);
      SealedUnder(if k.Some? then Some(k.value.up) else None)
    else if !n.isMaster && msg.kind == TYPE_ADAPTER_DATA then
      var k := if n.enroll.hasMaster then FreshKeys(n.peers, n.masterMac, cfg.priv) else None;
      SealedUnder(if k.Some? then Some(k.value.down) else None)
    else NotSealed
  }

  /** The frame was sealed for this device under that key, with this very header. */
  predicate Authentic(s: Seal, msg: Msg) {
    match s
    case NotSealed => true
    case SealedUnder(key) => key.Some? && OpenPayload(key.value, msg).Some?
  }

  function Payload(s: Seal, msg: Msg): Msg {
    if s.NotSealed? || !msg.data.Sealed? then msg else msg.(data := msg.data.plain)
  }

  /** Only a known master may send configuration, once any master is known. */
  predicate FromKnownMaster(n: Node, origin: Mac) {
    n.enroll.hasMaster ==>
      origin == n.enroll.master || (n.enroll.hasSecondary && origin == n.enroll.secondary)
  }

  predicate Admissible(cfg: Config, n: Node, msg: Msg) {
    var s := SealOf(cfg, n, msg);
    && !(n.isMaster && !ToSelf(cfg, msg) && IsSealedType(msg.kind))
    && Authentic(s, msg)
    && (IsConfigOpcode(Payload(s, msg)) ==> s.SealedUnder? && FromKnownMaster(n, msg.origin))
  }

  /** On a sound key cache a frame is authorised exactly when it is admissible, and what is handed
      on is its payload: configuration never passes unopened, and a master never hands on a
      sealed-type frame that is not addressed to it. */
  lemma AuthorizedIffAdmissible(cfg: Config, n: Node, msg: Msg)
    requires CacheInv(n.keys) && Coherent(n.keys, n.peers, cfg.priv) && n.keys.entries != []
    ensures Authorized(cfg, n, msg).clear
         == if Admissible(cfg, n, msg) then Some(Payload(SealOf(cfg, n, msg), msg)) else None
  {
    PeerKeysAreFresh(n.keys, n.peers, msg.origin, cfg.priv);
    PeerKeysAreFresh(n.keys, n.peers, n.masterMac, cfg.priv);
  }

  /** So nothing opened was forged: its payload is one its peer sealed under the key the two
      share, with exactly the header it arrived with. */
  lemma DeliveredWasSealed(cfg: Config, n: Node, msg: Msg)
    requires CacheInv(n.keys) && Coherent(n.keys, n.peers, cfg.priv) && n.keys.entries != []
    requires Authorized(cfg, n, msg).clear.Some? && SealOf(cfg, n, msg).SealedUnder?
    ensures var key := SealOf(cfg, n, msg).key;
            && key.Some? && msg.data.Sealed?
            && msg.data == SealPayload(key.value, msg.(data := msg.data.plain)).data
            && msg.authTag == SealPayload(key.value, msg.(data := msg.data.plain)).authTag
            && Authorized(cfg, n, msg).clear == Some(msg.(data := msg.data.plain))
  {
    AuthorizedIffAdmissible(cfg, n, msg);
  }
}
