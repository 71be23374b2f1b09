/** Every handler keeps the tables of a node in shape. */
module NodeInvariant {
  import opened Types
  import opened Message
  import opened KeyStore
  import opened Downlink
  import opened OutboundSequence
  import opened NodeSpec
  import FrameCrypto
  import Keys
  import Neighbors
  import Peers
  import Routes

  lemma MasterKeysInv(cfg: Config, n: Node)
    requires CacheInv(n.keys)
    ensures CacheInv(AfterMasterKeys(cfg, n).keys)
  {
    PeerKeysInv(n.keys, n.peers, n.masterMac, cfg.priv);
  }

  /** Transmission touches keys, counters and the forwarding peer only. */
  lemma TransmittedKeys(cfg: Config, n: Node, m: Msg, now: U64)
    requires CacheInv(n.keys)
    ensures var r := Transmitted(cfg, n, m, now).node;
            && CacheInv(r.keys)
            && r == n.(keys := r.keys, tx := r.tx, table := r.table, forwarding := r.forwarding)
  {
    PeerKeysInv(n.keys, n.peers, n.masterMac, cfg.priv);
  }

  lemma TransmittedInv(cfg: Config, n: Node, m: Msg, now: U64)
    requires NodeInv(n)
    ensures NodeInv(Transmitted(cfg, n, m, now).node)
  {
    TransmittedKeys(cfg, n, m, now);
  }

  lemma {:induction false} RecomputedInv(keys: Cache, ps: Peers.Registry, own: nat, msg: Msg, i: nat, prev: Mac,
                      acc: Keys.ChainMac)
    requires CacheInv(keys) && i <= msg.routeLen <= MAX_HOPS
    ensures CacheInv(Recomputed(keys, ps, own, msg, i, prev, acc).keys)
    ensures |Recomputed(keys, ps, own, msg, i, prev, acc).keys.entries| == |keys.entries|
    decreases msg.routeLen - i
  {
    if i < msg.routeLen {
      var hop := msg.routePath[i];
      PeerKeysInv(keys, ps, hop, own);
      var k := PeerKeys(keys, ps, hop, own);
      if k.Some? {
        RecomputedInv(AfterPeerKeys(keys, ps, hop, own), ps, own, msg, i + 1, hop,
          FrameCrypto.ChainStep(k.value.up, FrameCrypto.BuildHopContext(msg, prev, hop), acc));
      }
    }
  }

  lemma ReportAcceptedKeys(cfg: Config, n: Node, msg: Msg, now: U64)
    requires CacheInv(n.keys) && n.routes != []
    ensures var r := ReportAccepted(cfg, n, msg, now).node;
            && CacheInv(r.keys)
            && r == n.(keys := r.keys, routes := r.routes)
            && (r.routes == n.routes
                || r.routes == Routes.Recorded(n.routes, msg.origin, msg.routePath, msg.routeLen, now))
  {
    hide Recomputed, PeerKeys, FrameCrypto.BuildHopContext, FrameCrypto.OpenPayload, Routes.Recorded, CacheInv;
    PeerKeysInv(n.keys, n.peers, msg.origin, cfg.priv);
    var keys := PeerKeys(n.keys, n.peers, msg.origin, cfg.priv);
    if keys.Some? && msg.routeLen <= MAX_HOPS {
      var seed := FrameCrypto.ChainStep(keys.value.up,
        FrameCrypto.BuildHopContext(msg, ZERO_MAC, msg.origin), Keys.NoMac);
      RecomputedInv(AfterPeerKeys(n.keys, n.peers, msg.origin, cfg.priv), n.peers, cfg.priv, msg, 0,
                    msg.origin, seed);
    }
  }

  lemma ReportAcceptedInv(cfg: Config, n: Node, msg: Msg, now: U64)
    requires NodeInv(n)
    ensures NodeInv(ReportAccepted(cfg, n, msg, now).node)
  {
    ReportAcceptedKeys(cfg, n, msg, now);
    Routes.RecordedKeepsInv(n.routes, msg.origin, msg.routePath, msg.routeLen, now);
  }

  lemma ReportProcessedInv(cfg: Config, n: Node, msg: Msg, now: U64)
    requires NodeInv(n)
    ensures NodeInv(ReportProcessed(cfg, n, msg, now).node)
  {
    if n.isMaster {
      ReportAcceptedInv(cfg, n, msg, now);
    } else {
      MasterKeysInv(cfg, n);
      var keys := MasterKeys(cfg, n);
      if keys.Some? && msg.hopCount < MAX_HOPS && msg.routeLen < MAX_HOPS {
        TransmittedInv(cfg, AfterMasterKeys(cfg, n), Extended(msg, cfg.self, keys.value.up), now);
      }
    }
  }

  lemma DataProcessedInv(cfg: Config, n: Node, msg: Msg, now: U64)
    requires NodeInv(n)
    ensures NodeInv(DataProcessed(cfg, n, msg, now).node)
  {
    PeerKeysInv(n.keys, n.peers, msg.origin, cfg.priv);
    MasterKeysInv(cfg, n);
    match Classified(msg, cfg.self, n.isMaster, ToSelf(cfg, msg), ToAll(msg), ToMaster(n, msg))
    case RelayTowardMaster => TransmittedInv(cfg, n, Relayed(msg, cfg.self), now);
    case ForwardOnRoute(next) => LruKeepsDistinct(n.lru, next, OwnedPeer(n, next));
    case _ =>
  }

  /** A JOIN_ACK touches peers, the enrolled record and the ESP-NOW table only. */
  lemma AckPeers(cfg: Config, n: Node, msg: Msg, now: U64)
    requires |n.peers| <= MAX_PEERS
    ensures var r := AckProcessed(cfg, n, msg, now);
            && |r.peers| <= MAX_PEERS
            && r == n.(peers := r.peers, enroll := r.enroll, table := r.table)
  {
  }

  lemma AckInv(cfg: Config, n: Node, msg: Msg, now: U64)
    requires NodeInv(n)
    ensures NodeInv(AckDispatched(cfg, n, msg, now).node)
  {
    AckPeers(cfg, n, msg, now);
  }

  lemma BeaconInv(cfg: Config, n: Node, msg: Msg, now: U64, jitter: Byte)
    requires NodeInv(n)
    ensures NodeInv(BeaconProcessed(cfg, n, msg, now, jitter))
  {
    Neighbors.ObserveKeepsInv(n.neighbors, msg.lastHop, msg.hopCount, now);
  }

  lemma ReceivedInv(cfg: Config, n: Node, src: Mac, msg: Msg, now: U64, jitter: Byte)
    requires NodeInv(n)
    ensures NodeInv(Received(cfg, n, src, msg, now, jitter).node)
  {
    if n.tx.on && !GateDrops(n, msg, now) {
      GateKeepsInv(cfg, n, src, msg, now);
      var g := Gated(cfg, n, src, msg, now);
      if msg.kind == TYPE_ADAPTER_DATA {
        DataProcessedInv(cfg, g, msg, now);
      } else if msg.kind == TYPE_ROUTE_REPORT {
        ReportProcessedInv(cfg, g, msg, now);
      } else if msg.kind == TYPE_JOIN_ACK {
        AckInv(cfg, g, msg, now);
      } else if msg.kind == TYPE_MASTER_BEACON {
        BeaconInv(cfg, g, msg, now, jitter);
      } else if msg.kind == TYPE_ENROLLMENT && !g.isMaster && msg.hopCount < MAX_HOPS {
        TransmittedInv(cfg, AfterNextHop(cfg, g, now), Relayed(msg, cfg.self), now);
      }
    }
  }
}
