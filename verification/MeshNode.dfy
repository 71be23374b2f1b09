/** A whole node. The collaborators that the firmware hands from method to method as parameters
    are the fields of one object here; each method is proved against the node's specification. */
module MeshNode {
  import opened Types
  import opened Keys
  import opened Message
  import opened FrameCrypto
  import opened Peers
  import opened KeyStore
  import opened EspNow
  import opened Downlink
  import opened OutboundSequence
  import opened NodeSpec
  import Neighbors
  import Replay
  import Routes

  /** What the server is told of an enrollment request. */
  datatype Request = Request(mac: Mac, key: PubKey)

  /** The request a frame makes a master queue for the server, if the queue has room for it. */
  function ToServer(isMaster: bool, msg: Msg, room: bool): (r: seq<Request>)
    ensures !isMaster || msg.kind != TYPE_ENROLLMENT ==> r == []
  {
    if isMaster && msg.kind == TYPE_ENROLLMENT && room then [Request(msg.origin, msg.enrollKey)] else []
  }

  class Mesh {
    const cfg: Config
    const peers: PeerRegistry
    const neighbors: Neighbors.NeighborTable
    const replay: Replay.ReplayCache
    const routes: Routes.RouteTable
    const e2eKeys: E2EKeyStore
    const router: DownlinkRouter
    const txState: OutboundSequenceState
    const store: EpochStore
    const radio: Radio

    var isMaster: bool
    var enrollment: Enrolled
    var masterMac: Mac
    var distance: Byte
    var forwardingPeer: Mac
    var relayPending: Option<Msg>
    var relayPendingAt: U64
    var lastSeenMaster: Mac
    var lastBeaconMs: U64
    var lastBeaconSentMs: U64
    var on: bool
    var delivered: seq<Msg>
    var queued: seq<Request>

    /** Every object a handler may change. */
    ghost function Parts(): set<object>
      reads this, e2eKeys
    {
      {this, peers, peers.slots, neighbors.entries, replay.cache, routes.entries, e2eKeys, e2eKeys.entries,
       router, router.lru, txState, store, radio}
    }

    ghost predicate Valid()
      reads Parts()
    {
      peers.Valid() && neighbors.Valid() && replay.Valid() && routes.Valid()
      && e2eKeys.Valid() && router.Valid()
    }

    ghost function View(): Node
      requires Valid()
      reads Parts()
    {
      Node(isMaster, peers.View(), neighbors.View(), replay.View(), routes.View(), e2eKeys.View(),
           enrollment, masterMac, distance, txState.View(store, on), txState.lastRelayed, router.View(),
           forwardingPeer, radio.registered, relayPending, relayPendingAt, lastSeenMaster, lastBeaconMs)
    }

    /** A call that ends in state `n`, having sent and delivered what `o` says. */
    twostate predicate Did(o: Outcome)
      reads Parts()
    {
      && Valid() && e2eKeys.entries == old(e2eKeys.entries) && View() == o.node
      && radio.sent == old(radio.sent) + o.sent && delivered == old(delivered) + o.local
    }

    /** `Mesh()` around its newly constructed members: no role, no master known, nothing pending. */
    constructor (config: Config, epochs: EpochStore, ps: PeerRegistry, ns: Neighbors.NeighborTable,
                 rc: Replay.ReplayCache, rt: Routes.RouteTable, ks: E2EKeyStore, dr: DownlinkRouter,
                 tx: OutboundSequenceState, air: Radio)
      requires ps.Valid() && ns.Valid() && rc.Valid() && rt.Valid() && ks.Valid() && dr.Valid()
      requires ps.View() == [] && ns.View() == Neighbors.NoNeighbors() && rc.View() == Replay.EmptyCache()
      requires rt.View() == Routes.NoRoutes() && ks.View() == EmptyCache(KEYCACHE_MAX) && dr.View() == []
      requires tx.View(epochs, true) == Blank(epochs.epoch).tx && tx.lastRelayed == Mark(0, 0)
      requires air.registered == {}
      ensures Valid() && cfg == config && View() == Blank(epochs.epoch) && delivered == [] && queued == []
      ensures store == epochs && peers == ps && neighbors == ns && replay == rc && routes == rt
      ensures e2eKeys == ks && router == dr && txState == tx && radio == air
    {
      cfg, store, peers, neighbors, replay := config, epochs, ps, ns, rc;
      routes, e2eKeys, router, txState, radio := rt, ks, dr, tx, air;
      isMaster, enrollment := false, Enrolled(false, BROADCAST_MAC, false, BROADCAST_MAC, false);
      masterMac, distance, forwardingPeer := ZERO_MAC, NO_DISTANCE, ZERO_MAC;
      relayPending, relayPendingAt, lastSeenMaster, lastBeaconMs := None, 0, ZERO_MAC, 0;
      lastBeaconSentMs, on, delivered, queued := 0, true, [], [];
    }

    /** `reevaluateRouteTable`. */
    method ReevaluateRouteTable()
      requires Valid()
      modifies routes.entries, e2eKeys
      ensures Valid() && (e2eKeys.entries == old(e2eKeys.entries) || fresh(e2eKeys.entries))
      ensures View() == RoleSet(old(View()), isMaster)
    {
      hide Neighbors.Inv, Replay.Inv, Routes.Inv, CacheInv, Distinct;
      if !isMaster {
        routes.Clear();
      }
      e2eKeys.SetCapacity(if isMaster then KEYCACHE_MAX else KEYCACHE_MAX_LEAF);
    }

    /** `setIsMaster`. */
    method SetIsMaster(value: bool)
      requires Valid()
      modifies `isMaster, routes.entries, e2eKeys
      ensures Valid() && (e2eKeys.entries == old(e2eKeys.entries) || fresh(e2eKeys.entries))
      ensures View() == RoleSet(old(View()), value)
    {
      hide Neighbors.Inv, Replay.Inv, Routes.Inv, CacheInv, Distinct;
      isMaster := value;
      ReevaluateRouteTable();
    }

    /** `loadPersistentState`, and tables to fit the role. */
    method LoadPersistentState(saved: Enrolled)
      requires Valid()
      modifies `enrollment, peers`count, peers.slots, routes.entries, e2eKeys
      ensures Valid() && (e2eKeys.entries == old(e2eKeys.entries) || fresh(e2eKeys.entries))
      ensures View() == RoleSet(old(View()), isMaster).(peers := Loaded(peers.flash), enroll := saved)
    {
      hide Neighbors.Inv, Replay.Inv, Routes.Inv, CacheInv, Distinct, Loaded, Resized;
      peers.LoadFromEeprom();
      enrollment := saved;
      ReevaluateRouteTable();
    }

    /** The next boot epoch and, once it is stored, empty replay and relay records. */
    method StartEpoch(w: Write)
      requires Valid() && txState.lastSealed == NEVER_SEALED && on
      modifies `on, txState, store, replay.cache
      ensures Valid()
      ensures View() == (if Passes(w) then old(View()).(tx := Booted(old(View()).tx, w),
                                replay := Replay.EmptyCache(), lastRelayed := Mark(0, 0))
                         else old(View()).(tx := Booted(old(View()).tx, w)))
    {
      hide Neighbors.Inv, Replay.Inv, Routes.Inv, CacheInv, Distinct, Booted;
      on := txState.Init(store, w);
      if on {
        replay.Init();
      }
    }

    /** `Mesh::init`: registry and enrolled record from flash, tables to fit the role, then the
        next boot epoch and empty replay and relay records. */
    method Init(saved: Enrolled, w: Write)
      requires Valid() && txState.lastSealed == NEVER_SEALED && on
      modifies Parts()
      ensures Valid() && View() == Initialised(old(View()), Loaded(peers.flash), saved, w)
      ensures peers.flash == old(peers.flash) && radio.sent == old(radio.sent) && delivered == old(delivered)
    {
      hide Neighbors.Inv, Replay.Inv, Routes.Inv, CacheInv, Distinct, Loaded, Booted, RoleSet;
      LoadPersistentState(saved);
      StartEpoch(w);
    }

    /** The choice of `findNextHopToMaster`, and whether it is the master itself. */
    method PickNextHop(now: U64) returns (hop: Option<Mac>, direct: bool)
      requires Valid()
      ensures hop == NextHopToMaster(cfg, View(), now)
      ensures direct == (distance != NO_DISTANCE && DirectMaster(cfg, View(), now))
    {
      direct := false;
      if distance == NO_DISTANCE {
        return None, false;
      }
      var enrolled := peers.FindIndex(masterMac);
      if enrolled.Some? && distance == 1 {
        var near := peers.IsPeerInRange(masterMac, now);
        if near && masterMac != cfg.self {
          return Some(masterMac), true;
        }
      }
      hop := neighbors.SelectNextHop(distance, now);
      if hop.None? || hop.value == cfg.self {
        return None, false;
      }
    }

    /** Registers the chosen relay and unregisters the one it replaces, unless others own it. */
    method KeepForwarder(hop: Mac)
      requires Valid()
      modifies `forwardingPeer, radio`registered
      ensures forwardingPeer == hop
      ensures radio.registered
              == (if old(forwardingPeer) != ZERO_MAC && old(forwardingPeer) != hop
                     && !Known(peers.View(), old(forwardingPeer)) && old(forwardingPeer) != masterMac
                  then old(radio.registered) - {old(forwardingPeer)} else old(radio.registered)) + {hop}
    {
      var known := peers.FindIndex(forwardingPeer);
      if forwardingPeer != ZERO_MAC && forwardingPeer != hop && known.None? && forwardingPeer != masterMac {
        radio.Unregister(forwardingPeer);
      }
      radio.Register(hop);
      forwardingPeer := hop;
    }

    /** `UplinkRouter::findNextHopToMaster`. */
    method FindNextHopToMaster(now: U64) returns (hop: Option<Mac>)
      requires Valid()
      modifies `forwardingPeer, radio`registered
      ensures Valid() && hop == NextHopToMaster(cfg, old(View()), now)
      ensures View() == AfterNextHop(cfg, old(View()), now)
    {
      var direct;
      hop, direct := PickNextHop(now);
      if hop.Some? && !direct {
        KeepForwarder(hop.value);
      }
    }

    // ---- Keys and messages ----

    /** `peerE2EKeys`. */
    method PeerE2EKeys(mac: Mac) returns (keys: Option<KeyPair>)
      requires Valid()
      modifies e2eKeys`nextSlot, e2eKeys.entries
      ensures keys == PeerKeys(old(e2eKeys.View()), peers.View(), mac, cfg.priv)
      ensures Valid() && e2eKeys.View() == AfterPeerKeys(old(e2eKeys.View()), peers.View(), mac, cfg.priv)
      ensures View() == old(View()).(keys := e2eKeys.View())
    {
      keys := KeyStore.PeerE2EKeys(mac, peers, cfg.priv, e2eKeys);
    }

    /** `masterE2EKeys`. */
    method MasterE2EKeys() returns (keys: Option<KeyPair>)
      requires Valid()
      modifies e2eKeys`nextSlot, e2eKeys.entries
      ensures keys == MasterKeys(cfg, old(View()))
      ensures Valid() && View() == AfterMasterKeys(cfg, old(View()))
    {
      if !enrollment.hasMaster {
        return None;
      }
      keys := PeerE2EKeys(masterMac);
    }

    /** `buildMessage`: the pair is drawn last; a failed epoch write restarts the device. */
    method BuildMessage(kind: Byte, dataType: I32, data: Data, w: Write) returns (msg: Msg)
      requires Valid() && on
      modifies `on, txState, store
      ensures Valid() && View() == old(View()).(tx := Drawn(old(View()).tx, w))
      ensures on ==> msg == Built(cfg, View(), kind, dataType, data)
    {
      msg := BLANK;
      msg := msg.(proto := PROTO_VERSION, kind := kind, dataType := dataType, origin := cfg.self);
      msg := msg.(target := if kind == TYPE_MASTER_BEACON then BROADCAST_MAC else masterMac);
      msg := msg.(lastHop := cfg.self, data := data);
      var seqNum;
      seqNum, on := txState.NextSeqGuarded(store, w);
      msg := msg.(seqNum := seqNum, epoch := txState.bootEpoch);
    }

    /** The routing tail of `transmitCore`. */
    method Forward(msg: Msg, now: U64)
      requires Valid()
      modifies `forwardingPeer, radio
      ensures Valid() && View() == Forwarded(cfg, old(View()), msg, now).node
      ensures radio.sent == old(radio.sent) + Forwarded(cfg, old(View()), msg, now).sent
    {
      hide NextHopToMaster, AfterNextHop, Neighbors.Inv, Replay.Inv, Routes.Inv, CacheInv, Distinct;
      var hop := FindNextHopToMaster(now);
      if hop.Some? {
        radio.SendMessage(hop.value, msg, cfg.self);
      }
    }

    /** `checkEpochRollback` before a seal: a pair that does not advance halts the device. */
    method GuardSeal(msg: Msg) returns (ok: bool)
      requires Valid()
      modifies `on, txState`lastSealed
      ensures ok == SealAllowed(old(View()).tx.sealed, Mark(msg.epoch, msg.seqNum))
      ensures Valid() && View() == old(View()).(tx := if ok then old(View()).tx.(sealed := Mark(msg.epoch, msg.seqNum))
                                                      else old(View()).tx.(on := false))
    {
      hide Neighbors.Inv, Replay.Inv, Routes.Inv, CacheInv, Distinct;
      ok := txState.CheckEpochRollback(msg.epoch, msg.seqNum);
      if !ok {
        on := false;
      }
    }

    /** The sealing part of `transmitCore`. */
    method SealOwn(msg: Msg) returns (r: Option<Msg>)
      requires Valid()
      modifies `on, txState`lastSealed, e2eKeys`nextSlot, e2eKeys.entries
      ensures Valid() && Sealing(r, View()) == SealedOwn(cfg, old(View()), msg)
    {
      hide SealAllowed, MasterKeys, AfterMasterKeys, Neighbors.Inv, Replay.Inv, Routes.Inv, CacheInv,
        Distinct;
      var ok := GuardSeal(msg);
      if !ok {
        return None;
      }
      var keys := MasterE2EKeys();
      if keys.None? {
        return None;
      }
      var sealedMsg := SealPayload(keys.value.up, msg);
      if sealedMsg.kind == TYPE_ROUTE_REPORT {
        var ctx := BuildHopContext(sealedMsg, ZERO_MAC, sealedMsg.origin);
        sealedMsg := sealedMsg.(authPath := ChainStep(keys.value.up, ctx, NoMac));
      }
      return Some(sealedMsg);
    }

    /** `transmitCore` up to the routing. */
    method Prepare(msg0: Msg) returns (r: Option<Msg>)
      requires Valid()
      modifies `on, txState`lastSealed, e2eKeys`nextSlot, e2eKeys.entries
      ensures Valid() && Sealing(r, View()) == Prepared(cfg, old(View()), msg0)
    {
      hide SealedOwn, Neighbors.Inv, Replay.Inv, Routes.Inv, CacheInv, Distinct;
      var msg := msg0;
      if msg.kind == TYPE_ADAPTER_DATA && msg.origin == cfg.self {
        msg := msg.(target := masterMac);
      }
      if !isMaster && msg.origin == cfg.self && IsSealedType(msg.kind) {
        r := SealOwn(msg);
      } else {
        r := Some(msg);
      }
    }

    /** `transmitCore` on a message built or received. */
    method TransmitCore(msg: Msg, now: U64)
      requires Valid()
      modifies `on, `forwardingPeer, txState`lastSealed, e2eKeys`nextSlot, e2eKeys.entries, radio
      ensures Valid() && View() == Transmitted(cfg, old(View()), msg, now).node
      ensures radio.sent == old(radio.sent) + Transmitted(cfg, old(View()), msg, now).sent
    {
      hide Prepared, Forwarded, Neighbors.Inv, Replay.Inv, Routes.Inv, CacheInv, Distinct;
      var r := Prepare(msg);
      if r.Some? {
        Forward(r.value, now);
      }
    }

    /** `transmitCore` on a message it builds itself. */
    method TransmitOwn(kind: Byte, dataType: I32, data: Data, now: U64, w: Write)
      requires Valid() && on
      modifies `on, `forwardingPeer, txState, store, e2eKeys`nextSlot, e2eKeys.entries, radio
      ensures Valid() && View() == OwnTransmitted(cfg, old(View()), kind, dataType, data, now, w).node
      ensures radio.sent == old(radio.sent) + OwnTransmitted(cfg, old(View()), kind, dataType, data, now, w).sent
    {
      hide Transmitted, Built, Neighbors.Inv, Replay.Inv, Routes.Inv, CacheInv, Distinct;
      var msg := BuildMessage(kind, dataType, data, w);
      if on {
        TransmitCore(msg, now);
      }
    }

    // ---- Route reports ----

    /** `sendRouteReport`: true when a report was built, sent or not. */
    method SendRouteReport(now: U64, w: Write) returns (attempted: bool)
      requires Valid() && on
      modifies `on, `forwardingPeer, txState, store, e2eKeys`nextSlot, e2eKeys.entries, radio
      ensures Valid() && View() == ReportSent(cfg, old(View()), now, w).node
      ensures radio.sent == old(radio.sent) + ReportSent(cfg, old(View()), now, w).sent
      ensures attempted == (!isMaster && NextHopToMaster(cfg, old(View()), now).Some?)
    {
      hide OwnTransmitted, NextHopToMaster, Neighbors.Inv, Replay.Inv, Routes.Inv, CacheInv, Distinct;
      if isMaster {
        return false;
      }
      var hop := FindNextHopToMaster(now);
      if hop.None? {
        return false;
      }
      var data := Padded(OP_ROUTE_REPORT);
      TransmitOwn(TYPE_ROUTE_REPORT, UNKNOWN_ADAPTER, data, now, w);
      return true;
    }

    /** The relay's copy of a report: one more hop, its MAC on the path, its link on the chain. */
    method ExtendReport(msg: Msg) returns (r: Option<Msg>)
      requires Valid() && msg.hopCount < MAX_HOPS && msg.routeLen < MAX_HOPS
      modifies e2eKeys`nextSlot, e2eKeys.entries
      ensures Valid() && View() == AfterMasterKeys(cfg, old(View()))
      ensures var keys := MasterKeys(cfg, old(View()));
              r == if keys.None? then None else Some(Extended(msg, cfg.self, keys.value.up))
    {
      hide MasterKeys, AfterMasterKeys, Neighbors.Inv, Replay.Inv, Routes.Inv, CacheInv, Distinct;
      var prevHop := if msg.routeLen == 0 then msg.origin else msg.routePath[msg.routeLen - 1];
      var relay := msg.(hopCount := msg.hopCount + 1, lastHop := cfg.self);
      relay := relay.(routePath := relay.routePath[relay.routeLen := cfg.self]);
      relay := relay.(routeLen := relay.routeLen + 1);
      var keys := MasterE2EKeys();
      if keys.None? {
        return None;
      }
      var ctx := BuildHopContext(relay, prevHop, cfg.self);
      relay := relay.(authPath := ChainStep(keys.value.up, ctx, relay.authPath));
      return Some(relay);
    }

    /** The relay's side of `processRouteReport`. */
    method RelayRouteReport(msg: Msg, now: U64)
      requires Valid()
      modifies `on, `forwardingPeer, txState`lastSealed, e2eKeys`nextSlot, e2eKeys.entries, radio
      ensures Valid() && View() == ReportRelayed(cfg, old(View()), msg, now).node
      ensures radio.sent == old(radio.sent) + ReportRelayed(cfg, old(View()), msg, now).sent
    {
      hide Transmitted, Extended, MasterKeys, AfterMasterKeys, Neighbors.Inv, Replay.Inv, Routes.Inv,
        CacheInv, Distinct;
      if msg.hopCount >= MAX_HOPS || msg.routeLen >= MAX_HOPS {
        return;
      }
      var relay := ExtendReport(msg);
      if relay.Some? {
        TransmitCore(relay.value, now);
      }
    }

    /** The master's recomputation of the chain, one key lookup a hop. */
    method RecomputeChain(msg: Msg, seed: ChainMac) returns (mac: Option<ChainMac>)
      requires Valid() && msg.routeLen <= MAX_HOPS
      modifies e2eKeys`nextSlot, e2eKeys.entries
      ensures Valid() && View() == old(View()).(keys := e2eKeys.View())
      ensures Chain(mac, e2eKeys.View())
              == Recomputed(old(e2eKeys.View()), peers.View(), cfg.priv, msg, 0, msg.origin, seed)
    {
      var computed, prevHop := seed, msg.origin;
      for i := 0 to msg.routeLen
        invariant Valid() && View() == old(View()).(keys := e2eKeys.View())
        invariant Recomputed(e2eKeys.View(), peers.View(), cfg.priv, msg, i, prevHop, computed)
               == Recomputed(old(e2eKeys.View()), peers.View(), cfg.priv, msg, 0, msg.origin, seed)
      {
        var hop := msg.routePath[i];
        var keys := PeerE2EKeys(hop);
        if keys.None? {
          return None;
        }
        var ctx := BuildHopContext(msg, prevHop, hop);
        computed := ChainStep(keys.value.up, ctx, computed);
        prevHop := hop;
      }
      return Some(computed);
    }

    /** The master's checks: the report opens, reads as one, and its chain is recomputed. */
    method VerifyRouteReport(msg: Msg, ghost now: U64) returns (clear: Option<Msg>)
      requires Valid()
      modifies e2eKeys`nextSlot, e2eKeys.entries
      ensures Valid() && View() == ReportAccepted(cfg, old(View()), msg, now).node.(routes := routes.View())
      ensures ReportAccepted(cfg, old(View()), msg, now).local == (if clear.Some? then [clear.value] else [])
      ensures ReportAccepted(cfg, old(View()), msg, now).node.routes
              == if clear.Some? then Routes.Recorded(routes.View(), msg.origin, msg.routePath, msg.routeLen, now)
                 else routes.View()
    {
      hide Routes.Recorded, PeerKeys, AfterPeerKeys, Neighbors.Inv, Replay.Inv, Routes.Inv, CacheInv,
        Distinct;
      PeerKeysInv(e2eKeys.View(), peers.View(), msg.origin, cfg.priv);
      var keys := PeerE2EKeys(msg.origin);
      if keys.None? {
        return None;
      }
      clear := OpenPayload(keys.value.up, msg);
      if clear.None? || Opcode(clear.value.data) != Some(OP_ROUTE_REPORT) || msg.routeLen > MAX_HOPS {
        return None;
      }
      var ctx := BuildHopContext(msg, ZERO_MAC, msg.origin);
      var computed := RecomputeChain(msg, ChainStep(keys.value.up, ctx, NoMac));
      if computed.None? || computed.value != msg.authPath {
        return None;
      }
    }

    /** The master's side of `processRouteReport`. */
    method AcceptRouteReport(msg: Msg, now: U64)
      requires Valid()
      modifies `delivered, e2eKeys`nextSlot, e2eKeys.entries, routes.entries
      ensures Valid() && View() == ReportAccepted(cfg, old(View()), msg, now).node
      ensures delivered == old(delivered) + ReportAccepted(cfg, old(View()), msg, now).local
    {
      hide ReportAccepted, Routes.Recorded, Neighbors.Inv, Replay.Inv, Routes.Inv, CacheInv, Distinct;
      var clear := VerifyRouteReport(msg, now);
      if clear.Some? {
        routes.Record(msg.origin, msg.routePath, msg.routeLen, now);
        delivered := delivered + [clear.value];
      }
    }

    /** `processRouteReport`. */
    method ProcessRouteReport(msg: Msg, now: U64)
      requires Valid()
      modifies `on, `forwardingPeer, `delivered, txState`lastSealed, e2eKeys`nextSlot, e2eKeys.entries,
        radio, routes.entries
      ensures Did(ReportProcessed(cfg, old(View()), msg, now))
    {
      hide ReportAccepted, ReportRelayed, Neighbors.Inv, Replay.Inv, Routes.Inv, CacheInv, Distinct;
      if isMaster {
        AcceptRouteReport(msg, now);
      } else {
        RelayRouteReport(msg, now);
      }
    }

    // ---- Enrollment ----

    /** `sendEnrollmentRequest`: the pair is drawn first, then the epoch read. */
    method SendEnrollmentRequest(w: Write)
      requires Valid() && on
      modifies `on, txState, store, radio`sent
      ensures Did(RequestSent(cfg, old(View()), w))
    {
      hide Drawn, Neighbors.Inv, Replay.Inv, Routes.Inv, CacheInv, Distinct;
      var seqNum;
      seqNum, on := txState.NextSeqGuarded(store, w);
      if !on {
        return;
      }
      var msg := BLANK.(proto := PROTO_VERSION, epoch := txState.bootEpoch, seqNum := seqNum);
      msg := msg.(kind := TYPE_ENROLLMENT, dataType := UNKNOWN_ADAPTER);
      msg := msg.(origin := cfg.self, target := BROADCAST_MAC, lastHop := cfg.self);
      msg := msg.(enrollKey := Pub(cfg.priv));
      radio.SendBroadcast(msg);
    }

    /** The registry part of `registerPeerWithKey`. */
    method PutPeer(mac: Mac, key: PubKey, allowRekey: bool, now: U64) returns (ok: bool, changed: bool)
      requires Valid()
      modifies peers`count, peers.slots
      ensures Valid() && Registered(ok, peers.View(), changed) == WithKey(old(peers.View()), mac, key, allowRekey, now)
    {
      hide Neighbors.Inv, Replay.Inv, Routes.Inv, CacheInv, Distinct;
      var p := peers.FindIndex(mac);
      if p.Some? {
        if !allowRekey && peers.slots[p.value].key.Pub? {
          peers.slots[p.value] := peers.slots[p.value].(lastSeen := now);
          return true, false;
        }
        peers.SetKey(p.value, key, now);
        return true, true;
      }
      if peers.count >= MAX_PEERS {
        return false, false;
      }
      ok := peers.Append(Peer(mac, key, now));
      return true, true;
    }

    /** `registerPeerWithKey`: RAM, flash and the ESP-NOW table. */
    method RegisterPeerWithKey(mac: Mac, key: PubKey, allowRekey: bool, now: U64) returns (ok: bool)
      requires Valid()
      modifies peers`count, peers`flash, peers.slots, radio`registered
      ensures Valid() && ok == WithKey(old(peers.View()), mac, key, allowRekey, now).ok
      ensures View() == WithPeerKey(old(View()), mac, key, allowRekey, now)
      ensures peers.flash == if WithKey(old(peers.View()), mac, key, allowRekey, now).changed
                             then SavedUpTo(old(peers.flash), peers.View(), peers.stuck, MAX_PEERS)
                             else old(peers.flash)
    {
      hide WithKey, Neighbors.Inv, Replay.Inv, Routes.Inv, CacheInv, Distinct;
      var changed;
      ok, changed := PutPeer(mac, key, allowRekey, now);
      if changed {
        var saved := peers.SaveToEeprom(MAX_PEERS, true);
        radio.Reregister(mac);
      }
    }

    /** The secondary master of a JOIN_ACK. */
    method LearnSecondary(mac: Mac, key: PubKey, now: U64)
      requires Valid()
      modifies `enrollment, peers`count, peers`flash, peers.slots, radio`registered
      ensures Valid() && View() == WithSecondary(old(View()), mac, key, now)
    {
      hide WithKey, Neighbors.Inv, Replay.Inv, Routes.Inv, CacheInv, Distinct;
      var ok := RegisterPeerWithKey(mac, key, false, now);
      if ok && !enrollment.hasSecondary {
        enrollment := enrollment.(secondary := mac, hasSecondary := true);
      }
    }

    /** The enrolled flag, and the master on first use. */
    method MarkEnrolled(mac: Mac)
      requires Valid()
      modifies `enrollment
      ensures enrollment == EnrolledUnder(old(enrollment), mac)
    {
      enrollment := enrollment.(enrolled := true);
      if !enrollment.hasMaster {
        enrollment := enrollment.(master := mac, hasMaster := true);
      }
    }

    /** `Enrollment::processJoinAck`. */
    method ProcessJoinAck(msg: Msg, now: U64)
      requires Valid()
      modifies `enrollment, peers`count, peers`flash, peers.slots, radio`registered
      ensures Valid() && View() == AckProcessed(cfg, old(View()), msg, now)
    {
      hide WithKey, WithSecondary, EnrolledUnder, Neighbors.Inv, Replay.Inv, Routes.Inv, CacheInv,
        Distinct;
      if !msg.data.JoinAck? || msg.data.fingerprint != Fingerprint(Pub(cfg.priv)) {
        return;
      }
      if msg.enrollKey != cfg.pinKey {
        return;
      }
      if enrollment.hasMaster && msg.origin != enrollment.master {
        return;
      }
      var ok := RegisterPeerWithKey(msg.origin, msg.enrollKey, false, now);
      if !ok {
        return;
      }
      MarkEnrolled(msg.origin);
      if msg.data.secondaryMac != ZERO_MAC {
        LearnSecondary(msg.data.secondaryMac, msg.data.secondaryKey, now);
      }
    }

    /** `dispatchJoinAck`: relayed outward unless addressed to this device. */
    method DispatchJoinAck(msg: Msg, now: U64)
      requires Valid()
      modifies `enrollment, peers`count, peers`flash, peers.slots, radio
      ensures Did(AckDispatched(cfg, old(View()), msg, now))
    {
      hide AckProcessed, Neighbors.Inv, Replay.Inv, Routes.Inv, CacheInv, Distinct;
      if msg.target != cfg.self {
        if msg.origin == cfg.self || msg.hopCount >= MAX_HOPS {
          return;
        }
        radio.SendBroadcast(msg.(hopCount := msg.hopCount + 1, lastHop := cfg.self));
        return;
      }
      if !isMaster {
        ProcessJoinAck(msg, now);
      }
    }

    /** `relayEnrollmentUplink`. */
    method RelayEnrollmentUplink(msg: Msg, now: U64)
      requires Valid()
      modifies `on, `forwardingPeer, txState`lastSealed, e2eKeys`nextSlot, e2eKeys.entries, radio
      ensures Did(EnrollmentRelayed(cfg, old(View()), msg, now))
    {
      hide Transmitted, NextHopToMaster, Neighbors.Inv, Replay.Inv, Routes.Inv, CacheInv, Distinct;
      if msg.origin == cfg.self || msg.hopCount >= MAX_HOPS {
        return;
      }
      var hop := FindNextHopToMaster(now);
      if hop.None? {
        return;
      }
      TransmitCore(msg.(hopCount := msg.hopCount + 1, lastHop := cfg.self), now);
    }

    /** The JOIN_ACK broadcast of `enrollPeer`. */
    method SendJoinAck(mac: Mac, nodeKey: PubKey, secondaryMac: Mac, secondaryKey: PubKey, w: Write)
      requires Valid() && on
      modifies `on, txState, store, radio`sent
      ensures Did(AckSent(cfg, old(View()), mac, nodeKey, secondaryMac, secondaryKey, w))
    {
      hide Drawn, Neighbors.Inv, Replay.Inv, Routes.Inv, CacheInv, Distinct;
      var seqNum;
      seqNum, on := txState.NextSeqGuarded(store, w);
      if !on {
        return;
      }
      var ack := BLANK.(proto := PROTO_VERSION, seqNum := seqNum, epoch := txState.bootEpoch);
      ack := ack.(kind := TYPE_JOIN_ACK, dataType := UNKNOWN_ADAPTER);
      ack := ack.(origin := cfg.self, target := mac, lastHop := cfg.self);
      ack := ack.(data := JoinAck(Fingerprint(nodeKey), secondaryMac, secondaryKey), enrollKey := Pub(cfg.priv));
      radio.SendBroadcast(ack);
    }

    /** `enrollPeer`: the server's approval. */
    method EnrollPeer(mac: Mac, secondaryMac: Mac, secondaryKey: PubKey, now: U64, w: Write)
      requires Valid() && on
      modifies `on, txState, store, peers`count, peers`flash, peers.slots, radio
      ensures Did(Approved(cfg, old(View()), mac, secondaryMac, secondaryKey, now, w))
    {
      hide WithPeerKey, AckSent, Neighbors.Inv, Replay.Inv, Routes.Inv, CacheInv, Distinct;
      var cached := peers.FindIndex(mac);
      if cached.None? {
        return;
      }
      var nodeKey := peers.slots[cached.value].key;
      var ok := RegisterPeerWithKey(mac, nodeKey, true, now);
      SendJoinAck(mac, nodeKey, secondaryMac, secondaryKey, w);
    }

    // ---- Master beacons ----

    /** The trust-on-first-use part of `MasterBeacon::process`: false when the beacon is refused. */
    method LearnMaster(msg: Msg, now: U64) returns (ok: bool)
      requires Valid() && msg.origin != cfg.self && msg.origin == cfg.pinMac && msg.hopCount < MAX_HOPS
      modifies `enrollment
      ensures ok == !BeaconRejected(cfg, old(View()), msg, now)
      ensures enrollment == if ok then MasterLearned(cfg, old(View()), msg) else old(enrollment)
    {
      hide Neighbors.Inv, Replay.Inv, Routes.Inv, CacheInv, Distinct;
      var fromPrimary := enrollment.hasMaster && msg.origin == enrollment.master;
      var fromSecondary := cfg.dual && enrollment.hasSecondary && msg.origin == enrollment.secondary;
      if !enrollment.hasMaster {
        enrollment := enrollment.(master := msg.origin, hasMaster := true);
      } else if !fromPrimary && !fromSecondary {
        if cfg.dual && !enrollment.hasSecondary {
          enrollment := enrollment.(secondary := msg.origin, hasSecondary := true);
        } else if Age(now, lastBeaconMs) < STALE_MASTER_MS {
          return false;
        } else {
          enrollment := enrollment.(master := msg.origin, hasMaster := true);
        }
      }
      return true;
    }

    /** The part of `MasterBeacon::process` that follows acceptance. */
    method AdoptBeacon(msg: Msg, now: U64, ghost before: Node)
      requires Valid() && before == View().(enroll := before.enroll)
      requires enrollment == MasterLearned(cfg, before, msg)
      modifies `lastSeenMaster, `lastBeaconMs, `masterMac, `distance, neighbors.entries
      ensures Valid() && View() == BeaconAdopted(cfg, before, msg, now)
    {
      hide Neighbors.Observed, Derived, MasterLearned, Neighbors.Inv, Replay.Inv, Routes.Inv, CacheInv, Distinct;
      lastSeenMaster := msg.origin;
      lastBeaconMs := now;
      masterMac := msg.origin;
      DeriveDistance(msg, now);
    }

    /** The neighbour the beacon came through, and this node's own distance. */
    method DeriveDistance(msg: Msg, now: U64)
      requires Valid()
      modifies `distance, neighbors.entries
      ensures Valid() && View() == old(View()).(
                neighbors := Neighbors.Observed(old(View()).neighbors, msg.lastHop, msg.hopCount, now),
                dist := Derived(Neighbors.Observed(old(View()).neighbors, msg.lastHop, msg.hopCount, now), now))
    {
      hide Neighbors.Observed, Neighbors.MinFresh, Neighbors.Inv, Replay.Inv, Routes.Inv, CacheInv, Distinct;
      var minDistance := neighbors.ObserveAndMinDistance(msg.lastHop, msg.hopCount, now);
      var derived: Byte := if minDistance == NO_DISTANCE then NO_DISTANCE else minDistance + 1;
      if derived != distance {
        distance := derived;
      }
    }

    /** Its last part: the deferred relay. */
    method ScheduleRelay(msg: Msg, now: U64, jitter: Byte)
      requires Valid()
      modifies `relayPending, `relayPendingAt, txState`lastRelayed
      ensures Valid() && View() == RelayScheduled(cfg, old(View()), msg, now, jitter)
    {
      hide Neighbors.Inv, Replay.Inv, Routes.Inv, CacheInv, Distinct;
      if isMaster || txState.WasRelayedBefore(msg.epoch, msg.seqNum) {
        return;
      }
      txState.MarkRelayed(msg.epoch, msg.seqNum);
      var relay := msg.(hopCount := distance);
      relayPending := Some(relay.(lastHop := cfg.self));
      relayPendingAt := Later(now, 10 + jitter % 64);
    }

    /** `MasterBeacon::process`. */
    method ProcessBeacon(msg: Msg, now: U64, jitter: Byte)
      requires Valid()
      modifies `enrollment, `lastSeenMaster, `lastBeaconMs, `masterMac, `distance, `relayPending,
        `relayPendingAt, neighbors.entries, txState`lastRelayed
      ensures Valid() && View() == BeaconProcessed(cfg, old(View()), msg, now, jitter)
    {
      hide BeaconAdopted, RelayScheduled, MasterLearned, Neighbors.Inv, Replay.Inv, Routes.Inv, CacheInv,
        Distinct;
      if msg.origin == cfg.self || msg.origin != cfg.pinMac || msg.hopCount >= MAX_HOPS {
        return;
      }
      ghost var before := View();
      var ok := LearnMaster(msg, now);
      if ok {
        AdoptBeacon(msg, now, before);
        ScheduleRelay(msg, now, jitter);
      }
    }

    /** `MasterBeacon::checkTimeout`. */
    method CheckTimeout(now: U64)
      requires Valid()
      modifies `masterMac, `distance, `lastSeenMaster, `lastBeaconMs
      ensures Valid() && View() == TimeoutChecked(old(View()), now)
    {
      hide Neighbors.Inv, Replay.Inv, Routes.Inv, CacheInv, Distinct;
      if isMaster || distance == NO_DISTANCE {
        return;
      }
      if Age(now, lastBeaconMs) > STALE_MASTER_MS {
        masterMac := ZERO_MAC;
        distance := NO_DISTANCE;
        lastSeenMaster := ZERO_MAC;
        lastBeaconMs := 0;
      }
    }

    /** The deferred beacon relay of `Mesh::loop`. */
    method FlushRelay(now: U64)
      requires Valid()
      modifies `relayPending, radio`sent
      ensures Did(PendingFlushed(old(View()), now))
    {
      hide Neighbors.Inv, Replay.Inv, Routes.Inv, CacheInv, Distinct;
      if relayPending.Some? && now >= relayPendingAt {
        var msg := relayPending.value;
        relayPending := None;
        radio.SendBroadcast(msg);
      }
    }

    /** `MasterBeacon::intervalElapsed`: true at most once per interval. */
    method IntervalElapsed(now: U64) returns (elapsed: bool)
      modifies `lastBeaconSentMs
      ensures elapsed == BeaconDue(now, old(lastBeaconSentMs))
      ensures lastBeaconSentMs == if elapsed then now else old(lastBeaconSentMs)
    {
      if Age(now, lastBeaconSentMs) < MASTER_BEACON_INTERVAL_MS {
        return false;
      }
      lastBeaconSentMs := now;
      return true;
    }

    /** A freshly built beacon, broadcast. */
    method SendMasterBeacon(w: Write)
      requires Valid() && on && isMaster
      modifies `on, txState, store, radio`sent
      ensures Did(BeaconSent(cfg, old(View()), w))
    {
      hide Built, Drawn, Neighbors.Inv, Replay.Inv, Routes.Inv, CacheInv, Distinct;
      var data := Padded(1);
      var msg := BuildMessage(TYPE_MASTER_BEACON, UNKNOWN_ADAPTER, data, w);
      if on {
        radio.SendBroadcast(msg);
      }
    }

    /** The master's part of `Mesh::loop` with `broadcastMasterBeacon`. */
    method BroadcastMasterBeacon(now: U64, w: Write)
      requires Valid() && on
      modifies `on, `lastBeaconSentMs, txState, store, radio`sent
      ensures var due := isMaster && BeaconDue(now, old(lastBeaconSentMs));
              && Did(if due then BeaconSent(cfg, old(View()), w) else Quiet(old(View())))
              && lastBeaconSentMs == (if due then now else old(lastBeaconSentMs))
    {
      hide BeaconSent, Neighbors.Inv, Replay.Inv, Routes.Inv, CacheInv, Distinct;
      if !isMaster {
        return;
      }
      var due := IntervalElapsed(now);
      if !due {
        return;
      }
      SendMasterBeacon(w);
    }

    // ---- Downlink ----

    method RegisterDownlinkPeer(mac: Mac)
      requires Valid()
      modifies router`count, router.lru, radio`registered
      ensures Valid() && View() == WithDownlinkPeer(old(View()), mac)
    {
      hide LruAfter, TableAfter, Neighbors.Inv, Replay.Inv, Routes.Inv, CacheInv, Distinct;
      var enrolled := peers.FindIndex(mac);
      var isCurrentMaster := distance != NO_DISTANCE && mac == masterMac;
      router.RegisterDownlinkPeer(mac, enrolled.Some? || isCurrentMaster, radio);
    }

    /** The source route of a downlink: the recorded path back to front. */
    method ReversePath(msg: Msg, path: seq<Mac>) returns (routed: Msg)
      requires |path| <= MAX_HOPS
      ensures routed == WithRoute(msg, path)
    {
      var pathLen: Byte := |path|;
      routed := msg.(routeLen := pathLen);
      for i := 0 to |path|
        invariant routed == msg.(routeLen := pathLen, routePath := routed.routePath)
        invariant routed.routePath[..i] == Reversed(path)[..i]
        invariant routed.routePath[i..] == msg.routePath[i..]
      {
        routed := routed.(routePath := routed.routePath[i := path[|path| - 1 - i]]);
      }
      assert routed.routePath == routed.routePath[..|path|] + routed.routePath[|path|..];
      assert Reversed(path)[..|path|] == Reversed(path);
    }

    /** `broadcastToAllPeers`. */
    method BroadcastToAllPeers(msg: Msg)
      requires Valid()
      modifies radio`sent
      ensures radio.sent == old(radio.sent) + CopiesTo(msg, peers.View(), cfg.self)
    {
      hide Neighbors.Inv, Replay.Inv, Routes.Inv, CacheInv, Distinct;
      ghost var ps, before := peers.View(), radio.sent;
      for i := 0 to peers.count
        invariant radio.sent == before + CopiesTo(msg, ps[..i], cfg.self)
      {
        assert ps[..i + 1][..i] == ps[..i];
        if peers.slots[i].mac == cfg.self {
          continue;
        }
        radio.SendMessage(peers.slots[i].mac, msg, cfg.self);
      }
      assert ps[..peers.count] == ps;
    }

    /** The sealing half of `sendDownlinkToNode`. */
    method SealDownlink(dest: Mac, dataType: I32, data: Data, w: Write) returns (r: Option<Msg>)
      requires Valid() && on
      modifies `on, txState, store, e2eKeys`nextSlot, e2eKeys.entries
      ensures Valid() && Sealing(r, View()) == DownlinkSealed(cfg, old(View()), dest, dataType, data, w)
    {
      hide Drawn, Built, SealAllowed, SealPayload, PeerKeys, AfterPeerKeys, Neighbors.Inv, Replay.Inv,
        Routes.Inv, CacheInv, Distinct;
      var msg := BuildMessage(TYPE_ADAPTER_DATA, dataType, data, w);
      if !on {
        return None;
      }
      msg := msg.(target := dest);
      var ok := GuardSeal(msg);
      if !ok {
        return None;
      }
      var keys := PeerE2EKeys(dest);
      if keys.None? {
        return None;
      }
      return Some(SealPayload(keys.value.down, msg));
    }

    /** The routing half of `sendDownlinkToNode`. */
    method RouteDownlink(dest: Mac, msg: Msg)
      requires Valid()
      modifies router`count, router.lru, radio
      ensures Valid() && View() == DownlinkRouted(cfg, old(View()), dest, msg).node
      ensures radio.sent == old(radio.sent) + DownlinkRouted(cfg, old(View()), dest, msg).sent
    {
      hide WithDownlinkPeer, WithRoute, Unicast, CopiesTo, Neighbors.Inv, Replay.Inv, Routes.Inv, CacheInv, Distinct;
      var path := routes.Lookup(dest);
      if path.Some? && |path.value| > 0 {
        var routed := ReversePath(msg, path.value);
        SendToHop(routed.routePath[0], routed);
      } else {
        BroadcastToAllPeers(msg);
      }
    }

    /** One hop of a source route: the next hop is made an ESP-NOW peer first. */
    method SendToHop(hop: Mac, msg: Msg)
      requires Valid()
      modifies router`count, router.lru, radio
      ensures Valid() && View() == WithDownlinkPeer(old(View()), hop)
      ensures radio.sent == old(radio.sent) + Unicast(hop, msg, cfg.self)
    {
      hide WithDownlinkPeer, Unicast, Neighbors.Inv, Replay.Inv, Routes.Inv, CacheInv, Distinct;
      RegisterDownlinkPeer(hop);
      radio.SendMessage(hop, msg, cfg.self);
    }

    /** `sendDownlinkToNode`, once this device is known to be a master. */
    method SendAsMaster(dest: Mac, dataType: I32, data: Data, w: Write)
      requires Valid() && on && isMaster
      modifies `on, txState, store, e2eKeys`nextSlot, e2eKeys.entries, router`count, router.lru, radio
      ensures Valid() && View() == DownlinkSent(cfg, old(View()), dest, dataType, data, w).node
      ensures radio.sent == old(radio.sent) + DownlinkSent(cfg, old(View()), dest, dataType, data, w).sent
    {
      hide DownlinkSealed, DownlinkRouted, Neighbors.Inv, Replay.Inv, Routes.Inv, CacheInv, Distinct;
      ghost var sealed := DownlinkSealed(cfg, View(), dest, dataType, data, w);
      var msg := SealDownlink(dest, dataType, data, w);
      assert View() == sealed.node && msg == sealed.msg;
      if msg.Some? {
        RouteDownlink(dest, msg.value);
      }
    }

    /** `sendDownlinkToNode`. */
    method SendDownlinkToNode(dest: Mac, dataType: I32, data: Data, w: Write)
      requires Valid() && on
      modifies `on, txState, store, e2eKeys`nextSlot, e2eKeys.entries, router`count, router.lru, radio
      ensures Did(DownlinkSent(cfg, old(View()), dest, dataType, data, w))
    {
      hide DownlinkSealed, DownlinkRouted, Neighbors.Inv, Replay.Inv, Routes.Inv, CacheInv, Distinct;
      if !isMaster {
        return;
      }
      SendAsMaster(dest, dataType, data, w);
    }

    /** `broadcastAdapterData`. */
    method BroadcastAdapterData(dataType: I32, data: Data, deliverLocally: bool, w: Write)
      requires Valid() && on
      modifies `on, `delivered, txState, store, radio`sent
      ensures Did(DataBroadcast(cfg, old(View()), dataType, data, deliverLocally, w))
    {
      hide Drawn, Built, CopiesTo, Neighbors.Inv, Replay.Inv, Routes.Inv, CacheInv, Distinct;
      var msg := BuildMessage(TYPE_ADAPTER_DATA, dataType, data, w);
      if !on {
        return;
      }
      msg := msg.(target := BROADCAST_MAC);
      BroadcastToAllPeers(msg);
      if deliverLocally {
        delivered := delivered + [msg];
      }
    }

    /** `transmitDispatch`. */
    method TransmitDispatch(dataType: I32, data: Data, selfOriginated: bool, now: U64, w: Write)
      requires Valid() && on
      modifies `on, `delivered, `forwardingPeer, txState, store, e2eKeys`nextSlot, e2eKeys.entries, radio
      ensures Did(DataOriginated(cfg, old(View()), dataType, data, selfOriginated, now, w))
    {
      hide DataBroadcast, OwnTransmitted, Neighbors.Inv, Replay.Inv, Routes.Inv, CacheInv, Distinct;
      if isMaster {
        BroadcastAdapterData(dataType, data, selfOriginated, w);
      } else {
        TransmitOwn(TYPE_ADAPTER_DATA, dataType, data, now, w);
      }
    }

    // ---- Peer management ----

    /** `addPeer`. */
    method AddPeer(mac: Mac, now: U64)
      requires Valid()
      modifies `on, peers`count, peers`flash, peers.slots, radio`registered
      ensures Valid() && View() == PeerAdded(cfg, old(View()), mac, now)
    {
      hide Added, CanAdd, Neighbors.Inv, Replay.Inv, Routes.Inv, CacheInv, Distinct;
      var before := peers.count;
      var ok := peers.AddAndPersist(mac, cfg.self, now);
      if !ok {
        on := false;
      }
      if peers.count > before {
        assert peers.View()[before].mac == mac;
        radio.Register(peers.slots[peers.count - 1].mac);
      }
    }

    /** `removePeer`. */
    method RemovePeer(mac: Mac)
      requires Valid()
      modifies peers`count, peers`flash, peers.slots, radio`registered
      ensures Valid() && View() == PeerRemoved(old(View()), mac)
    {
      hide Removed, Neighbors.Inv, Replay.Inv, Routes.Inv, CacheInv, Distinct;
      peers.RemoveAndPersist(mac);
      radio.Unregister(mac);
    }

    // ---- Adapter data ----

    /** The key with which `authorize` opens a frame, if it must open it at all. */
    method Authorize(msg: Msg) returns (clear: Option<Msg>)
      requires Valid()
      modifies e2eKeys`nextSlot, e2eKeys.entries
      ensures Valid() && Verdict(clear, View()) == Authorized(cfg, old(View()), msg)
    {
      hide PeerKeys, AfterPeerKeys, MasterKeys, AfterMasterKeys, OpenPayload, Neighbors.Inv, Replay.Inv,
        Routes.Inv, CacheInv, Distinct;
      var toSelf := msg.target == cfg.self;
      if isMaster && !toSelf && IsSealedType(msg.kind) {
        return None;
      }
      var wasOpened := false;
      clear := Some(msg);
      if isMaster && toSelf && IsSealedType(msg.kind) {
        var keys := PeerE2EKeys(msg.origin);
        clear := if keys.None? then None else OpenPayload(keys.value.up, msg);
        wasOpened := true;
      }
      if !isMaster && toSelf && msg.kind == TYPE_ADAPTER_DATA {
        var keys := MasterE2EKeys();
        clear := if keys.None? then None else OpenPayload(keys.value.down, msg);
        wasOpened := true;
      }
      if clear.None? {
        return;
      }
      if IsConfigOpcode(clear.value) {
        if !wasOpened {
          return None;
        }
        if enrollment.hasMaster && msg.origin != enrollment.master
           && !(enrollment.hasSecondary && msg.origin == enrollment.secondary)
        {
          return None;
        }
      }
    }

    /** Local delivery in `processAdapterData`, and the onward copies of a broadcast. */
    method DeliverData(msg: Msg)
      requires Valid()
      modifies `delivered, e2eKeys`nextSlot, e2eKeys.entries, radio`sent
      ensures Did(DataDelivered(cfg, old(View()), msg))
    {
      hide Authorized, FloodSends, Neighbors.Inv, Replay.Inv, Routes.Inv, CacheInv, Distinct;
      var clear := Authorize(msg);
      if clear.None? {
        return;
      }
      delivered := delivered + [clear.value];
      if msg.target == BROADCAST_MAC && !isMaster {
        router.RelayDownlink(msg, peers, cfg.self, radio);
      }
    }

    /** The `ForwardOnRoute` case. */
    method ForwardOnRoute(msg: Msg, next: Mac)
      requires Valid() && msg.hopCount < MAX_HOPS
      modifies router`count, router.lru, radio
      ensures Did(RouteForwarded(cfg, old(View()), msg, next))
    {
      hide WithDownlinkPeer, Neighbors.Inv, Replay.Inv, Routes.Inv, CacheInv, Distinct;
      var fwd := msg.(hopCount := msg.hopCount + 1);
      SendToHop(next, fwd);
    }

    /** The `RelayTowardMaster` case. */
    method RelayTowardMaster(msg: Msg, now: U64)
      requires Valid() && msg.hopCount < MAX_HOPS
      modifies `on, `forwardingPeer, txState`lastSealed, e2eKeys`nextSlot, e2eKeys.entries, radio
      ensures Did(Transmitted(cfg, old(View()), Relayed(msg, cfg.self), now))
    {
      hide Transmitted, Neighbors.Inv, Replay.Inv, Routes.Inv, CacheInv, Distinct;
      TransmitCore(msg.(hopCount := msg.hopCount + 1, lastHop := cfg.self), now);
    }

    /** The `Flood` case. */
    method FloodData(msg: Msg)
      requires Valid()
      modifies radio`sent
      ensures Did(Outcome(old(View()), FloodSends(msg, old(View()).peers, cfg.self), []))
    {
      hide FloodSends, Neighbors.Inv, Replay.Inv, Routes.Inv, CacheInv, Distinct;
      router.RelayDownlink(msg, peers, cfg.self, radio);
    }

    /** `processAdapterData`'s decision. */
    method ClassifyData(msg: Msg) returns (decision: Decision)
      requires Valid()
      ensures decision == Classified(msg, cfg.self, View().isMaster, ToSelf(cfg, msg), ToAll(msg),
                                     ToMaster(View(), msg))
    {
      hide Classified, Neighbors.Inv, Replay.Inv, Routes.Inv, CacheInv, Distinct;
      var toSelf := msg.target == cfg.self;
      var toAll := msg.target == BROADCAST_MAC;
      var toMaster := enrollment.hasMaster && msg.target == masterMac;
      decision := router.Classify(msg, cfg.self, isMaster, toSelf, toAll, toMaster);
    }

    /** `processAdapterData`. */
    method ProcessAdapterData(msg: Msg, now: U64)
      requires Valid()
      modifies `on, `forwardingPeer, `delivered, txState`lastSealed, e2eKeys`nextSlot, e2eKeys.entries,
        router`count, router.lru, radio
      ensures Did(DataProcessed(cfg, old(View()), msg, now))
    {
      hide Classified, Transmitted, RouteForwarded, DataDelivered, FloodSends, ToSelf, ToAll, ToMaster,
        Neighbors.Inv, Replay.Inv, Routes.Inv, CacheInv, Distinct;
      var decision := ClassifyData(msg);
      match decision {
        case DropHopLimitExceeded =>
        case RelayTowardMaster => RelayTowardMaster(msg, now);
        case ForwardOnRoute(next) => ForwardOnRoute(msg, next);
        case Flood => FloodData(msg);
        case NotRouted => DeliverData(msg);
      }
    }

    // ---- Dispatch ----

    /** The protocol version, the replay cache and the last-seen time, in front of the dispatch. */
    method Gate(src: Mac, msg: Msg, now: U64) returns (pass: bool)
      requires Valid()
      modifies replay.cache, peers.slots
      ensures Valid() && pass == !GateDrops(old(View()), msg, now)
      ensures View() == if pass then Gated(cfg, old(View()), src, msg, now) else old(View())
    {
      hide Touched, Neighbors.Inv, Replay.Inv, Routes.Inv, CacheInv, Distinct;
      if msg.proto != PROTO_VERSION {
        return false;
      }
      if msg.epoch > 0 {
        var replayed := replay.IsReplay(FrameOf(msg, now));
        if replayed {
          return false;
        }
      }
      peers.UpdateLastSeen(src, cfg.self, now);
      return true;
    }

    /** `Enrollment::processRequest`: a full queue drops the request. */
    method QueueRequest(msg: Msg, room: bool)
      modifies `queued
      requires isMaster && msg.kind == TYPE_ENROLLMENT
      ensures queued == old(queued) + ToServer(true, msg, room)
    {
      if room {
        queued := queued + [Request(msg.origin, msg.enrollKey)];
      }
    }

    /** The enrollment case: a master registers and queues, a node relays. */
    method HearRequest(msg: Msg, now: U64, room: bool)
      requires Valid() && msg.kind == TYPE_ENROLLMENT
      modifies `on, `forwardingPeer, `queued, peers`count, peers`flash, peers.slots, txState`lastSealed,
        e2eKeys`nextSlot, e2eKeys.entries, radio
      ensures Did(RequestHeard(cfg, old(View()), msg, now))
      ensures queued == old(queued) + ToServer(old(isMaster), msg, room)
    {
      hide ToServer, WithPeerKey, EnrollmentRelayed, Neighbors.Inv, Replay.Inv, Routes.Inv, CacheInv, Distinct;
      if isMaster {
        var ok := RegisterPeerWithKey(msg.origin, msg.enrollKey, false, now);
        QueueRequest(msg, room);
      } else {
        RelayEnrollmentUplink(msg, now);
      }
    }

    method Dispatch(msg: Msg, now: U64, jitter: Byte, room: bool)
      requires Valid() && NodeInv(View())
      modifies Parts()
      ensures Did(Dispatched(cfg, old(View()), msg, now, jitter))
      ensures queued == old(queued) + ToServer(old(isMaster), msg, room)
    {
      hide ToServer, RequestHeard, AckDispatched, BeaconProcessed, DataProcessed, ReportProcessed,
        Neighbors.Inv, Replay.Inv, Routes.Inv, CacheInv, Distinct;
      if msg.kind == TYPE_ENROLLMENT {
        HearRequest(msg, now, room);
      } else if msg.kind == TYPE_JOIN_ACK {
        DispatchJoinAck(msg, now);
      } else if msg.kind == TYPE_MASTER_BEACON {
        ProcessBeacon(msg, now, jitter);
      } else if msg.kind == TYPE_ADAPTER_DATA {
        ProcessAdapterData(msg, now);
      } else if msg.kind == TYPE_ROUTE_REPORT {
        ProcessRouteReport(msg, now);
      }
    }

    /** Every node that lives in this object keeps the node invariant. */
    lemma ViewInv()
      requires Valid()
      ensures NodeInv(View())
    {
    }

    /** `handleReceivedMessage`: exactly the specified reception, and on a master every enrollment
        request that passes the gate is queued for the server while there is room. */
    method HandleReceivedMessage(src: Mac, msg: Msg, now: U64, jitter: Byte, room: bool)
      requires Valid()
      modifies Parts()
      ensures Did(Received(cfg, old(View()), src, msg, now, jitter))
      ensures queued == old(queued)
                        + if old(on) && !GateDrops(old(View()), msg, now)
                          then ToServer(old(isMaster), msg, room) else []
    {
      hide Dispatched, GateDrops, Gated, Neighbors.Inv, Replay.Inv, Routes.Inv, CacheInv, Distinct;
      if !on {
        return;
      }
      var pass := Gate(src, msg, now);
      if pass {
        ViewInv();
        Dispatch(msg, now, jitter, room);
      }
    }
  }
}
