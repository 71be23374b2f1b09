/** The derived-key cache against the registry: over whole runs without peer removal an
    established key never changes and every lookup answers as a fresh derivation would. */
module KeyCoherence {
  import opened Types
  import opened Keys
  import opened Message
  import opened Peers
  import opened KeyStore
  import opened Downlink
  import opened OutboundSequence
  import opened NodeSpec
  import opened NodeInvariant
  import opened RouteChain
  import opened Actions
  import Neighbors
  import Replay
  import Routes

  /** Every key on record stays on record, unchanged. */
  ghost predicate KeepsKeys(ps: Registry, qs: Registry) {
    forall m :: KeyOf(ps, m).Pub? ==> KeyOf(qs, m) == KeyOf(ps, m)
  }

  /** The cache is in shape, has room and equals fresh derivations. */
  predicate SoundKeys(cfg: Config, n: Node) {
    CacheInv(n.keys) && n.keys.entries != [] && Coherent(n.keys, n.peers, cfg.priv)
  }

  predicate Sound(cfg: Config, n: Node) {
    NodeInv(n) && SoundKeys(cfg, n)
  }

  // ---- The registry ----

  lemma FindUnchanged(ps: Registry, qs: Registry, m: Mac)
    requires |ps| <= |qs| && forall i :: 0 <= i < |ps| ==> qs[i].mac == ps[i].mac
    requires Known(ps, m)
    ensures FindPeer(qs, m) == FindPeer(ps, m)
  {
  }

  /** `registerPeerWithKey` never replaces an established key, unless it is told to and the new
      key differs. */
  lemma RegisterKeepsKeys(ps: Registry, mac: Mac, key: PubKey, allowRekey: bool, now: U64)
    ensures KeepsKeys(ps, WithKey(ps, mac, key, allowRekey, now).peers)
       <==> !(allowRekey && KeyOf(ps, mac).Pub? && KeyOf(ps, mac) != key)
  {
    var qs := WithKey(ps, mac, key, allowRekey, now).peers;
    forall m | Known(ps, m)
      ensures FindPeer(qs, m) == FindPeer(ps, m)
    {
      FindUnchanged(ps, qs, m);
    }
  }

  lemma CoherentAcross(c: Cache, ps: Registry, qs: Registry, own: nat)
    requires Coherent(c, ps, own) && KeepsKeys(ps, qs)
    ensures Coherent(c, qs, own)
  {
  }

  lemma KeepsKeysTransitive(a: Registry, b: Registry, c: Registry)
    requires KeepsKeys(a, b) && KeepsKeys(b, c)
    ensures KeepsKeys(a, c)
  {
  }

  // ---- Handlers ----

  /** A transmission looks up the master's keys at most. */
  lemma TransmittedLooksUp(cfg: Config, n: Node, m: Msg, now: U64)
    requires CacheInv(n.keys)
    ensures var r := Transmitted(cfg, n, m, now).node;
            r.peers == n.peers
            && (r.keys == n.keys || r.keys == AfterPeerKeys(n.keys, n.peers, n.masterMac, cfg.priv))
  {
  }

  lemma TransmittedSound(cfg: Config, n: Node, m: Msg, now: U64)
    requires SoundKeys(cfg, n)
    ensures SoundKeys(cfg, Transmitted(cfg, n, m, now).node)
    ensures Transmitted(cfg, n, m, now).node.peers == n.peers
  {
    TransmittedLooksUp(cfg, n, m, now);
    PeerKeysAreFresh(n.keys, n.peers, n.masterMac, cfg.priv);
  }

  lemma AuthorizedSound(cfg: Config, n: Node, msg: Msg)
    requires SoundKeys(cfg, n)
    ensures SoundKeys(cfg, Authorized(cfg, n, msg).node) && Authorized(cfg, n, msg).node.peers == n.peers
  {
    PeerKeysAreFresh(n.keys, n.peers, n.masterMac, cfg.priv);
    PeerKeysAreFresh(n.keys, n.peers, msg.origin, cfg.priv);
  }

  lemma DataSound(cfg: Config, n: Node, msg: Msg, now: U64)
    requires SoundKeys(cfg, n)
    ensures SoundKeys(cfg, DataProcessed(cfg, n, msg, now).node)
    ensures DataProcessed(cfg, n, msg, now).node.peers == n.peers
  {
    match Classified(msg, cfg.self, n.isMaster, ToSelf(cfg, msg), ToAll(msg), ToMaster(n, msg))
    case RelayTowardMaster => TransmittedSound(cfg, n, Relayed(msg, cfg.self), now);
    case NotRouted => AuthorizedSound(cfg, n, msg);
    case _ =>
  }

  lemma ReportSound(cfg: Config, n: Node, msg: Msg, now: U64)
    requires SoundKeys(cfg, n) && n.routes != []
    ensures SoundKeys(cfg, ReportProcessed(cfg, n, msg, now).node)
    ensures ReportProcessed(cfg, n, msg, now).node.peers == n.peers
  {
    if n.isMaster {
      AcceptedIffGenuine(cfg, n, msg, now);
    } else if msg.hopCount < MAX_HOPS && msg.routeLen < MAX_HOPS {
      PeerKeysAreFresh(n.keys, n.peers, n.masterMac, cfg.priv);
      var keys := MasterKeys(cfg, n);
      if keys.Some? {
        TransmittedSound(cfg, AfterMasterKeys(cfg, n), Extended(msg, cfg.self, keys.value.up), now);
      }
    }
  }

  /** A JOIN_ACK changes the registry only by registering its origin, then its secondary. */
  lemma AckRegisters(cfg: Config, n: Node, msg: Msg, now: U64)
    ensures var r := AckProcessed(cfg, n, msg, now);
            var ps := WithKey(n.peers, msg.origin, msg.enrollKey, false, now).peers;
            r.keys == n.keys
            && (r.peers == n.peers || r.peers == ps
                || (msg.data.JoinAck?
                    && r.peers == WithKey(ps, msg.data.secondaryMac, msg.data.secondaryKey, false, now).peers))
  {
  }

  lemma AckSound(cfg: Config, n: Node, msg: Msg, now: U64)
    requires SoundKeys(cfg, n)
    ensures SoundKeys(cfg, AckDispatched(cfg, n, msg, now).node)
    ensures KeepsKeys(n.peers, AckDispatched(cfg, n, msg, now).node.peers)
  {
    var ps := WithKey(n.peers, msg.origin, msg.enrollKey, false, now).peers;
    RegisterKeepsKeys(n.peers, msg.origin, msg.enrollKey, false, now);
    if msg.data.JoinAck? {
      var qs := WithKey(ps, msg.data.secondaryMac, msg.data.secondaryKey, false, now).peers;
      RegisterKeepsKeys(ps, msg.data.secondaryMac, msg.data.secondaryKey, false, now);
      KeepsKeysTransitive(n.peers, ps, qs);
    }
    AckRegisters(cfg, n, msg, now);
    CoherentAcross(n.keys, n.peers, AckDispatched(cfg, n, msg, now).node.peers, cfg.priv);
  }

  lemma RequestSound(cfg: Config, n: Node, mac: Mac, key: PubKey, now: U64)
    requires SoundKeys(cfg, n)
    ensures SoundKeys(cfg, WithPeerKey(n, mac, key, false, now))
    ensures KeepsKeys(n.peers, WithPeerKey(n, mac, key, false, now).peers)
  {
    RegisterKeepsKeys(n.peers, mac, key, false, now);
    CoherentAcross(n.keys, n.peers, WithPeerKey(n, mac, key, false, now).peers, cfg.priv);
  }

  lemma GateSound(cfg: Config, n: Node, src: Mac, msg: Msg, now: U64)
    requires SoundKeys(cfg, n) && n.replay != []
    ensures SoundKeys(cfg, Gated(cfg, n, src, msg, now))
    ensures KeepsKeys(n.peers, Gated(cfg, n, src, msg, now).peers)
  {
    TouchedKeys(n.peers, src, cfg.self, now);
  }

  lemma DispatchedSound(cfg: Config, g: Node, msg: Msg, now: U64, jitter: Byte)
    requires Sound(cfg, g)
    ensures SoundKeys(cfg, Dispatched(cfg, g, msg, now, jitter).node)
    ensures KeepsKeys(g.peers, Dispatched(cfg, g, msg, now, jitter).node.peers)
  {
    if msg.kind == TYPE_ENROLLMENT {
      if g.isMaster {
        RequestSound(cfg, g, msg.origin, msg.enrollKey, now);
      } else if msg.hopCount < MAX_HOPS {
        TransmittedSound(cfg, AfterNextHop(cfg, g, now), Relayed(msg, cfg.self), now);
      }
    } else if msg.kind == TYPE_JOIN_ACK {
      AckSound(cfg, g, msg, now);
    } else if msg.kind == TYPE_ADAPTER_DATA {
      DataSound(cfg, g, msg, now);
    } else if msg.kind == TYPE_ROUTE_REPORT {
      ReportSound(cfg, g, msg, now);
    }
  }

  lemma ReceivedSound(cfg: Config, n: Node, src: Mac, msg: Msg, now: U64, jitter: Byte)
    requires Sound(cfg, n)
    ensures SoundKeys(cfg, Received(cfg, n, src, msg, now, jitter).node)
    ensures KeepsKeys(n.peers, Received(cfg, n, src, msg, now, jitter).node.peers)
  {
    if n.tx.on && !GateDrops(n, msg, now) {
      var g := Gated(cfg, n, src, msg, now);
      GateKeepsInv(cfg, n, src, msg, now);
      GateSound(cfg, n, src, msg, now);
      DispatchedSound(cfg, g, msg, now, jitter);
      KeepsKeysTransitive(n.peers, g.peers, Dispatched(cfg, g, msg, now, jitter).node.peers);
    }
  }

  lemma ApprovedSound(cfg: Config, n: Node, mac: Mac, secondaryMac: Mac, secondaryKey: PubKey, now: U64, w: Write)
    requires SoundKeys(cfg, n)
    ensures SoundKeys(cfg, Approved(cfg, n, mac, secondaryMac, secondaryKey, now, w).node)
    ensures KeepsKeys(n.peers, Approved(cfg, n, mac, secondaryMac, secondaryKey, now, w).node.peers)
  {
    if Known(n.peers, mac) {
      var key := KeyOf(n.peers, mac);
      RegisterKeepsKeys(n.peers, mac, key, true, now);
      CoherentAcross(n.keys, n.peers, WithKey(n.peers, mac, key, true, now).peers, cfg.priv);
    }
  }

  lemma DownlinkSound(cfg: Config, n: Node, dest: Mac, dataType: I32, data: Data, w: Write)
    requires SoundKeys(cfg, n)
    ensures SoundKeys(cfg, DownlinkSent(cfg, n, dest, dataType, data, w).node)
    ensures DownlinkSent(cfg, n, dest, dataType, data, w).node.peers == n.peers
  {
    PeerKeysAreFresh(n.keys, n.peers, dest, cfg.priv);
  }

  lemma OwnTransmittedSound(cfg: Config, n: Node, kind: Byte, dataType: I32, data: Data, now: U64, w: Write)
    requires SoundKeys(cfg, n)
    ensures SoundKeys(cfg, OwnTransmitted(cfg, n, kind, dataType, data, now, w).node)
    ensures OwnTransmitted(cfg, n, kind, dataType, data, now, w).node.peers == n.peers
  {
    hide Transmitted, Drawn, CacheInv, Coherent;
    var n1 := n.(tx := Drawn(n.tx, w));
    TransmittedSound(cfg, n1, Built(cfg, n1, kind, dataType, data), now);
  }

  lemma PeerAddedSound(cfg: Config, n: Node, mac: Mac, now: U64)
    requires SoundKeys(cfg, n)
    ensures SoundKeys(cfg, PeerAdded(cfg, n, mac, now)) && KeepsKeys(n.peers, PeerAdded(cfg, n, mac, now).peers)
  {
    hide CacheInv, Coherent;
    var qs := PeerAdded(cfg, n, mac, now).peers;
    forall m | Known(n.peers, m)
      ensures FindPeer(qs, m) == FindPeer(n.peers, m)
    {
      FindUnchanged(n.peers, qs, m);
    }
    CoherentAcross(n.keys, n.peers, qs, cfg.priv);
  }

  lemma RoleSetSound(cfg: Config, n: Node, value: bool)
    requires SoundKeys(cfg, n)
    ensures SoundKeys(cfg, RoleSet(n, value)) && RoleSet(n, value).peers == n.peers
  {
  }

  lemma ActedSound(cfg: Config, n: Node, a: Action)
    requires Sound(cfg, n) && !a.RemovePeer? && !a.Reboot?
    ensures SoundKeys(cfg, Acted(cfg, n, a).node) && KeepsKeys(n.peers, Acted(cfg, n, a).node.peers)
  {
    hide OwnTransmitted, DownlinkSent, Approved, RoleSet, PeerAdded, NextHopToMaster, Drawn, KeepsKeys, CacheInv,
      Coherent, Neighbors.Inv, Replay.Inv, Routes.Inv, Distinct;
    KeepsItself(n.peers);
    match a
    case RouteReport(now, w) =>
      OwnTransmittedSound(cfg, AfterNextHop(cfg, n, now), TYPE_ROUTE_REPORT, UNKNOWN_ADAPTER,
                          Padded(OP_ROUTE_REPORT), now, w);
    case Originate(dataType, data, selfOriginated, now, w) =>
      OwnTransmittedSound(cfg, n, TYPE_ADAPTER_DATA, dataType, data, now, w);
    case SendDownlink(dest, dataType, data, w) => DownlinkSound(cfg, n, dest, dataType, data, w);
    case Approve(mac, m2, k2, now, w) => ApprovedSound(cfg, n, mac, m2, k2, now, w);
    case SetMaster(value) => RoleSetSound(cfg, n, value);
    case AddPeer(mac, now) => PeerAddedSound(cfg, n, mac, now);
    case _ =>
  }

  lemma KeepsItself(ps: Registry)
    ensures KeepsKeys(ps, ps)
  {
  }

  // ---- Runs ----

  /** Everything a device lives through, and key lookups at any moment. */
  datatype KeyEvent =
    | Hear(src: Mac, msg: Msg, now: U64, jitter: Byte)
    | Do(action: Action)
    | LookUp(peer: Mac)

  function Next(cfg: Config, n: Node, e: KeyEvent): Node
    requires NodeInv(n)
  {
    match e
    case Hear(src, msg, now, jitter) => Received(cfg, n, src, msg, now, jitter).node
    case Do(action) => Acted(cfg, n, action).node
    case LookUp(peer) => n.(keys := AfterPeerKeys(n.keys, n.peers, peer, cfg.priv))
  }

  /** No peer is removed, neither on request nor by a restart from flash. */
  predicate KeepsPeers(e: KeyEvent) {
    e.Do? ==> !e.action.RemovePeer? && !e.action.Reboot?
  }

  lemma NextInv(cfg: Config, n: Node, e: KeyEvent)
    requires NodeInv(n)
    ensures NodeInv(Next(cfg, n, e))
  {
    hide Received, Acted, Neighbors.Inv, Replay.Inv, Routes.Inv, CacheInv, Distinct;
    match e
    case Hear(src, msg, now, jitter) => ReceivedInv(cfg, n, src, msg, now, jitter);
    case Do(action) => ActedInv(cfg, n, action);
    case LookUp(peer) => PeerKeysInv(n.keys, n.peers, peer, cfg.priv);
  }

  lemma NextSound(cfg: Config, n: Node, e: KeyEvent)
    requires Sound(cfg, n) && KeepsPeers(e)
    ensures Sound(cfg, Next(cfg, n, e)) && KeepsKeys(n.peers, Next(cfg, n, e).peers)
  {
    hide Received, Acted, NodeInv, KeepsKeys, CacheInv, Coherent;
    NextInv(cfg, n, e);
    match e
    case Hear(src, msg, now, jitter) => ReceivedSound(cfg, n, src, msg, now, jitter);
    case Do(action) => ActedSound(cfg, n, action);
    case LookUp(peer) =>
      KeepsItself(n.peers);
      PeerKeysAreFresh(n.keys, n.peers, peer, cfg.priv);
  }

  function RunKeys(cfg: Config, n: Node, es: seq<KeyEvent>): Node
    requires NodeInv(n)
    decreases es
  {
    if es == [] then n
    else
      NextInv(cfg, n, es[0]);
      RunKeys(cfg, Next(cfg, n, es[0]), es[1..])
  }

  lemma {:induction false} RunSound(cfg: Config, n: Node, es: seq<KeyEvent>)
    requires Sound(cfg, n) && forall e :: e in es ==> KeepsPeers(e)
    ensures Sound(cfg, RunKeys(cfg, n, es)) && KeepsKeys(n.peers, RunKeys(cfg, n, es).peers)
    decreases es
  {
    if es != [] {
      NextSound(cfg, n, es[0]);
      RunSound(cfg, Next(cfg, n, es[0]), es[1..]);
      KeepsKeysTransitive(n.peers, Next(cfg, n, es[0]).peers, RunKeys(cfg, n, es).peers);
    }
  }

  /** A run may start at any boot: the cache is empty. */
  lemma BootIsSound(cfg: Config, stored: U32, ps: StoredPeers, saved: Enrolled, w: Write)
    ensures Sound(cfg, Rebooted(stored, ps, saved, w))
  {
    hide Booted;
    RebootedInv(stored, ps, saved, w);
  }

  /** After any run a lookup answers exactly as a derivation from the key on record would, and
      for a peer established before the run that is still the key it had then. */
  lemma LookupsNeverGoStale(cfg: Config, n: Node, es: seq<KeyEvent>, mac: Mac)
    requires Sound(cfg, n) && forall e :: e in es ==> KeepsPeers(e)
    ensures var r := RunKeys(cfg, n, es);
            && NodeInv(r)
            && PeerKeys(r.keys, r.peers, mac, cfg.priv) == FreshKeys(r.peers, mac, cfg.priv)
            && (KeyOf(n.peers, mac).Pub? ==>
                  PeerKeys(r.keys, r.peers, mac, cfg.priv) == Some(DeriveKeys(cfg.priv, KeyOf(n.peers, mac))))
  {
    RunSound(cfg, n, es);
    var r := RunKeys(cfg, n, es);
    PeerKeysAreFresh(r.keys, r.peers, mac, cfg.priv);
  }

  // ---- Why removal is left out ----

  lemma RemovedKeys(ps: Registry, mac: Mac, m: Mac)
    requires RegistryInv(ps) && m != mac
    ensures KeyOf(Removed(ps, mac), m) == KeyOf(ps, m)
  {
    var qs := Removed(ps, mac);
    RemovedForgetsOne(ps, mac);
    var i, j := FindPeer(ps, m), FindPeer(qs, m);
    if i < |ps| {
      assert ps[i] in qs;
      var k :| 0 <= k < |qs| && qs[k] == ps[i];
      FindAt(qs, k);
    }
  }

  /** Removing a peer keeps the cache coherent exactly when no key of that peer is cached:
      nothing drops the cached entry. */
  lemma RemovalCoherentIff(c: Cache, ps: Registry, mac: Mac, own: nat)
    requires CacheInv(c) && RegistryInv(ps) && Coherent(c, ps, own)
    ensures Coherent(c, Removed(ps, mac), own) <==> FindEntry(c, mac) == |c.entries|
  {
    RemovedForgetsOne(ps, mac);
    forall m | m != mac
      ensures KeyOf(Removed(ps, mac), m) == KeyOf(ps, m)
    {
      RemovedKeys(ps, mac, m);
    }
  }
}
