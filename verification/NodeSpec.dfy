/** One node as a value: its state and what every handler of the firmware does to it. The
    class `Mesh` is proved against these functions; the network theorems are about them. */
module NodeSpec {
  import opened Types
  import opened Keys
  import opened Message
  import opened FrameCrypto
  import opened Peers
  import opened KeyStore
  import opened EspNow
  import opened Downlink
  import opened OutboundSequence
  import Neighbors
  import Replay
  import Routes

  /** What a build and a board fix: own MAC and private key, the pinned master identity. */
  datatype Config = Config(self: Mac, priv: nat, pinMac: Mac, pinKey: PubKey, dual: bool)

  /** The persisted master identities and the enrolled flag. */
  datatype Enrolled = Enrolled(hasMaster: bool, master: Mac, hasSecondary: bool, secondary: Mac,
                               enrolled: bool)

  datatype Node = Node(
    isMaster: bool,
    peers: Registry,
    neighbors: Neighbors.Table,
    replay: Replay.Cache,
    routes: Routes.Table,
    keys: Cache,
    enroll: Enrolled,
    masterMac: Mac,
    dist: Byte,
    tx: Device,
    lastRelayed: Mark,
    lru: seq<Mac>,
    forwarding: Mac,
    table: set<Mac>,
    pending: Option<Msg>,
    pendingAt: U64,
    lastSeenMaster: Mac,
    lastBeaconMs: U64)

  /** The outcome of one handler: the state, the frames handed to the radio, and the frames
      handed to the local adapter. A halted device has `tx.on == false`. */
  datatype Outcome = Outcome(node: Node, sent: seq<Send>, local: seq<Msg>)

  /** Tables keep their configured sizes and their invariants. */
  predicate NodeInv(n: Node) {
    && |n.peers| <= MAX_PEERS
    && |n.neighbors| == NEIGHBOR_MAX && Neighbors.Inv(n.neighbors)
    && |n.replay| == REPLAY_MAX_ORIGINS && Replay.Inv(n.replay)
    && |n.routes| == ROUTE_TABLE_MAX && Routes.Inv(n.routes)
    && CacheInv(n.keys)
    && |n.lru| <= DOWNLINK_PEER_MAX && Distinct(n.lru)
  }

  function Quiet(n: Node): Outcome {
    Outcome(n, [], [])
  }

  // ---- Boot and role ----

  /** RAM as the constructors leave it, over the epoch in flash. */
  function Blank(stored: U32): Node {
    Node(false, [], Neighbors.NoNeighbors(), Replay.EmptyCache(), Routes.NoRoutes(), EmptyCache(KEYCACHE_MAX),
         Enrolled(false, BROADCAST_MAC, false, BROADCAST_MAC, false), ZERO_MAC, NO_DISTANCE,
         Device(stored, true, 0, 0, NEVER_SEALED), Mark(0, 0), [], ZERO_MAC, {}, None, 0, ZERO_MAC, 0)
  }

  /** A master caches a key per peer, a leaf one per master. */
  function KeyCapacity(isMaster: bool): nat {
    if isMaster then KEYCACHE_MAX else KEYCACHE_MAX_LEAF
  }

  /** `setIsMaster`: a device that is no master keeps no routes, and a change of role resizes the
      key cache, which drops what it held. */
  function RoleSet(n: Node, value: bool): Node {
    n.(isMaster := value, routes := if value then n.routes else Routes.NoRoutes(),
       keys := Resized(n.keys, KeyCapacity(value)))
  }

  /** `Mesh::init`, given what flash holds of the registry and the enrolled record: the tables fit
      the role, the boot epoch advances, and, once it is stored, no origin and no relay is
      remembered. */
  function Initialised(n: Node, ps: Registry, saved: Enrolled, w: Write): Node {
    var n1 := RoleSet(n, n.isMaster).(peers := ps, enroll := saved, tx := Booted(n.tx, w));
    if Passes(w) then n1.(replay := Replay.EmptyCache(), lastRelayed := Mark(0, 0)) else n1
  }

  /** A restart. */
  function Rebooted(stored: U32, ps: Registry, saved: Enrolled, w: Write): Node {
    Initialised(Blank(stored), ps, saved, w)
  }

  // ---- Uplink routing ----

  /** `findNextHopToMaster`: the master itself when it is an enrolled, recently heard peer one
      hop away, else the freshest neighbour strictly closer. */
  function NextHopToMaster(cfg: Config, n: Node, now: U64): Option<Mac> {
    if n.dist == NO_DISTANCE then None
    else if DirectMaster(cfg, n, now) then Some(n.masterMac)
    else
      var hop := Neighbors.NextHopOf(n.neighbors, n.dist, now);
      if hop.Some? && hop.value != cfg.self then hop else None
  }

  predicate DirectMaster(cfg: Config, n: Node, now: U64) {
    Known(n.peers, n.masterMac) && n.dist == 1 && InRange(n.peers, n.masterMac, now)
    && n.masterMac != cfg.self
  }

  /** Its side effect: at most one auto-registered forwarding peer in the ESP-NOW table. */
  function AfterNextHop(cfg: Config, n: Node, now: U64): Node {
    var hop := NextHopToMaster(cfg, n, now);
    if hop.None? || DirectMaster(cfg, n, now) then n
    else
      var evict := n.forwarding != ZERO_MAC && n.forwarding != hop.value
                   && !Known(n.peers, n.forwarding) && n.forwarding != n.masterMac;
      n.(table := (if evict then n.table - {n.forwarding} else n.table) + {hop.value},
         forwarding := hop.value)
  }

  // ---- Transmission ----

  /** `masterE2EKeys`. */
  function MasterKeys(cfg: Config, n: Node): Option<KeyPair>
    requires CacheInv(n.keys)
  {
    if n.enroll.hasMaster then PeerKeys(n.keys, n.peers, n.masterMac, cfg.priv) else None
  }

  function AfterMasterKeys(cfg: Config, n: Node): Node
    requires CacheInv(n.keys)
  {
    if n.enroll.hasMaster then n.(keys := AfterPeerKeys(n.keys, n.peers, n.masterMac, cfg.priv)) else n
  }

  /** A frame on its way to the next hop, or dropped. */
  function Forwarded(cfg: Config, n: Node, msg: Msg, now: U64): (o: Outcome)
    ensures o.local == []
  {
    var hop := NextHopToMaster(cfg, n, now);
    var n' := AfterNextHop(cfg, n, now);
    Outcome(n', if hop.Some? then Unicast(hop.value, msg, cfg.self) else [], [])
  }

  /** The chain seed of a self-originated route report: the origin's own hop. */
  function Seeded(key: Key, msg: Msg): Msg {
    if msg.kind != TYPE_ROUTE_REPORT then msg
    else msg.(authPath := ChainStep(key, BuildHopContext(msg, ZERO_MAC, msg.origin), NoMac))
  }

  predicate MustSeal(cfg: Config, n: Node, msg: Msg) {
    !n.isMaster && msg.origin == cfg.self && IsSealedType(msg.kind)
  }

  /** A frame of this device, sealed and seeded, or nothing. */
  datatype Sealing = Sealing(msg: Option<Msg>, node: Node)

  /** The sealing part of `transmitCore`: the rollback guard, the master's keys, seal and seed. */
  function SealedOwn(cfg: Config, n: Node, msg: Msg): Sealing
    requires CacheInv(n.keys)
  {
    var mark := Mark(msg.epoch, msg.seqNum);
    if !SealAllowed(n.tx.sealed, mark) then Sealing(None, n.(tx := n.tx.(on := false)))
    else
      var n1 := n.(tx := n.tx.(sealed := mark));
      var keys := MasterKeys(cfg, n1);
      Sealing(if keys.None? then None else Some(Seeded(keys.value.up, SealPayload(keys.value.up, msg))),
              AfterMasterKeys(cfg, n1))
  }

  /** `transmitCore` up to the routing: this device's own data goes to the current master, and
      what it must seal is sealed. */
  function Prepared(cfg: Config, n: Node, msg0: Msg): Sealing
    requires CacheInv(n.keys)
  {
    var msg := if msg0.kind == TYPE_ADAPTER_DATA && msg0.origin == cfg.self
               then msg0.(target := n.masterMac) else msg0;
    if MustSeal(cfg, n, msg) then SealedOwn(cfg, n, msg) else Sealing(Some(msg), n)
  }

  /** `transmitCore` on a frame already built or received. */
  function Transmitted(cfg: Config, n: Node, msg0: Msg, now: U64): (o: Outcome)
    requires CacheInv(n.keys)
    ensures o.local == []
  {
    var s := Prepared(cfg, n, msg0);
    if s.msg.None? then Quiet(s.node) else Forwarded(cfg, s.node, s.msg.value, now)
  }

  /** `buildMessage`, once the pair has been drawn. */
  function Built(cfg: Config, n: Node, kind: Byte, dataType: I32, data: Data): Msg {
    BLANK.(proto := PROTO_VERSION, kind := kind, dataType := dataType, origin := cfg.self,
           target := if kind == TYPE_MASTER_BEACON then BROADCAST_MAC else n.masterMac,
           lastHop := cfg.self, data := data, epoch := n.tx.boot, seqNum := n.tx.tx)
  }

  /** A 64-byte payload that starts with `first` and is zero after it. */
  function Padded(first: Byte): Data {
    Clear([first] + ZERO_DATA[1..])
  }

  /** `transmitCore` on a message it builds itself, given the outcome of an epoch write should the
      sequence wrap. */
  function OwnTransmitted(cfg: Config, n: Node, kind: Byte, dataType: I32, data: Data, now: U64, w: Write): (o: Outcome)
    requires CacheInv(n.keys)
    ensures o.local == []
  {
    var n1 := n.(tx := Drawn(n.tx, w));
    if !n1.tx.on then Quiet(n1) else Transmitted(cfg, n1, Built(cfg, n1, kind, dataType, data), now)
  }

  /** `sendRouteReport`. */
  function ReportSent(cfg: Config, n: Node, now: U64, w: Write): (o: Outcome)
    requires CacheInv(n.keys)
    ensures o.local == []
  {
    if n.isMaster || NextHopToMaster(cfg, n, now).None? then Quiet(n)
    else
      OwnTransmitted(cfg, AfterNextHop(cfg, n, now), TYPE_ROUTE_REPORT, UNKNOWN_ADAPTER,
                     Padded(OP_ROUTE_REPORT), now, w)
  }

  function Reversed(path: seq<Mac>): (r: seq<Mac>)
    ensures |r| == |path|
    ensures forall i :: 0 <= i < |r| ==> r[i] == path[|path| - 1 - i]
  {
    seq(|path|, i requires 0 <= i < |path| => path[|path| - 1 - i])
  }

  /** The source route of a downlink: the recorded path, turned round. */
  function WithRoute(msg: Msg, path: seq<Mac>): Msg
    requires |path| <= MAX_HOPS
  {
    msg.(routeLen := |path|, routePath := Reversed(path) + msg.routePath[|path|..])
  }

  /** A downlink built for its destination and sealed under the key shared with it. */
  function DownlinkSealed(cfg: Config, n: Node, dest: Mac, dataType: I32, data: Data, w: Write): Sealing
    requires CacheInv(n.keys)
  {
    var n1 := n.(tx := Drawn(n.tx, w));
    var msg := Built(cfg, n1, TYPE_ADAPTER_DATA, dataType, data).(target := dest);
    var mark := Mark(msg.epoch, msg.seqNum);
    if !n1.tx.on then Sealing(None, n1)
    else if !SealAllowed(n1.tx.sealed, mark) then Sealing(None, n1.(tx := n1.tx.(on := false)))
    else
      var keys := PeerKeys(n.keys, n.peers, dest, cfg.priv);
      Sealing(if keys.None? then None else Some(SealPayload(keys.value.down, msg)),
              n1.(tx := n1.tx.(sealed := mark), keys := AfterPeerKeys(n.keys, n.peers, dest, cfg.priv)))
  }

  /** Unicast along the recorded path or, without one, a copy to every peer. */
  function DownlinkRouted(cfg: Config, n: Node, dest: Mac, msg: Msg): (o: Outcome)
    ensures o.local == []
  {
    var path := Routes.PathTo(n.routes, dest);
    if path.Some? && path.value != [] then
      var routed := WithRoute(msg, path.value);
      var first := routed.routePath[0];
      Outcome(WithDownlinkPeer(n, first), Unicast(first, routed, cfg.self), [])
    else Outcome(n, CopiesTo(msg, n.peers, cfg.self), [])
  }

  /** `sendDownlinkToNode`. */
  function DownlinkSent(cfg: Config, n: Node, dest: Mac, dataType: I32, data: Data, w: Write): Outcome
    requires CacheInv(n.keys)
  {
    if !n.isMaster then Quiet(n)
    else
      var s := DownlinkSealed(cfg, n, dest, dataType, data, w);
      if s.msg.None? then Quiet(s.node) else DownlinkRouted(cfg, s.node, dest, s.msg.value)
  }

  /** `broadcastAdapterData`: a copy to every peer, and to this device's own adapter if wanted. */
  function DataBroadcast(cfg: Config, n: Node, dataType: I32, data: Data, deliverLocally: bool, w: Write): Outcome {
    var n1 := n.(tx := Drawn(n.tx, w));
    if !n1.tx.on then Quiet(n1)
    else
      var msg := Built(cfg, n1, TYPE_ADAPTER_DATA, dataType, data).(target := BROADCAST_MAC);
      Outcome(n1, CopiesTo(msg, n.peers, cfg.self), if deliverLocally then [msg] else [])
  }

  /** `sendEnrollmentRequest`. */
  function RequestSent(cfg: Config, n: Node, w: Write): Outcome {
    var n1 := n.(tx := Drawn(n.tx, w));
    if !n1.tx.on then Quiet(n1)
    else
      var msg := BLANK.(proto := PROTO_VERSION, epoch := n1.tx.boot, seqNum := n1.tx.tx,
                        kind := TYPE_ENROLLMENT, dataType := UNKNOWN_ADAPTER, origin := cfg.self,
                        target := BROADCAST_MAC, lastHop := cfg.self, enrollKey := Pub(cfg.priv));
      Outcome(n1, [Send(BROADCAST_MAC, msg)], [])
  }

  /** `transmitDispatch`: a master broadcasts its data, a node sends it uplink. */
  function DataOriginated(cfg: Config, n: Node, dataType: I32, data: Data, selfOriginated: bool,
                          now: U64, w: Write): Outcome
    requires CacheInv(n.keys)
  {
    if n.isMaster then DataBroadcast(cfg, n, dataType, data, selfOriginated, w)
    else OwnTransmitted(cfg, n, TYPE_ADAPTER_DATA, dataType, data, now, w)
  }

  // ---- Peer management ----

  /** `addPeer`: a placeholder without a key; a full registry is a memory fault, which restarts
      the device. */
  function PeerAdded(cfg: Config, n: Node, mac: Mac, now: U64): Node {
    var ps := Added(n.peers, mac, cfg.self, now);
    if !CanAdd(n.peers, mac, cfg.self) then n.(tx := n.tx.(on := false))
    else n.(peers := ps, table := if |ps| > |n.peers| then n.table + {mac} else n.table)
  }

  /** `removePeer`. */
  function PeerRemoved(n: Node, mac: Mac): Node {
    n.(peers := Removed(n.peers, mac), table := n.table - {mac})
  }

  // ---- Route reports ----

  /** The hop before a relay: the origin, or the last one on the path. */
  function PreviousHop(msg: Msg): Mac
    requires msg.routeLen <= MAX_HOPS
  {
    if msg.routeLen == 0 then msg.origin else msg.routePath[msg.routeLen - 1]
  }

  /** The relay's copy: one more hop, its own MAC on the path, its own link on the chain. */
  function Extended(msg: Msg, self: Mac, key: Key): Msg
    requires msg.hopCount < MAX_HOPS && msg.routeLen < MAX_HOPS
  {
    var relay := Relayed(msg, self).(routePath := msg.routePath[msg.routeLen := self],
                                     routeLen := msg.routeLen + 1);
    relay.(authPath := ChainStep(key, BuildHopContext(relay, PreviousHop(msg), self), msg.authPath))
  }

  function ReportRelayed(cfg: Config, n: Node, msg: Msg, now: U64): (o: Outcome)
    requires CacheInv(n.keys)
    ensures o.local == []
  {
    if msg.hopCount >= MAX_HOPS || msg.routeLen >= MAX_HOPS then Quiet(n)
    else
      var keys := MasterKeys(cfg, n);
      PeerKeysInv(n.keys, n.peers, n.masterMac, cfg.priv);
      if keys.None? then Quiet(AfterMasterKeys(cfg, n))
      else Transmitted(cfg, AfterMasterKeys(cfg, n), Extended(msg, cfg.self, keys.value.up), now)
  }

  /** The chain recomputed over hops `i ..` of the path, with the cache lookups it makes. */
  datatype Chain = Chain(mac: Option<ChainMac>, keys: Cache)

  function Recomputed(keys: Cache, ps: Registry, own: nat, msg: Msg, i: nat, prev: Mac,
                      acc: ChainMac): Chain
    requires CacheInv(keys) && i <= msg.routeLen <= MAX_HOPS
    decreases msg.routeLen - i
  {
    if i == msg.routeLen then Chain(Some(acc), keys)
    else
      var hop := msg.routePath[i];
      var k := PeerKeys(keys, ps, hop, own);
      var keys' := AfterPeerKeys(keys, ps, hop, own);
      PeerKeysInv(keys, ps, hop, own);
      if k.None? then Chain(None, keys')
      else Recomputed(keys', ps, own, msg, i + 1, hop,
                      ChainStep(k.value.up, BuildHopContext(msg, prev, hop), acc))
  }

  lemma PeerKeysInv(keys: Cache, ps: Registry, mac: Mac, own: nat)
    requires CacheInv(keys)
    ensures CacheInv(AfterPeerKeys(keys, ps, mac, own))
    ensures |AfterPeerKeys(keys, ps, mac, own).entries| == |keys.entries|
  {
    AfterGetKeepsInv(keys, mac, own, KeyOf(ps, mac));
  }

  /** The master's side: open, check, recompute the chain, record the path, deliver. */
  function ReportAccepted(cfg: Config, n: Node, msg: Msg, now: U64): (o: Outcome)
    requires CacheInv(n.keys) && n.routes != []
    ensures o.sent == []
  {
    var keys := PeerKeys(n.keys, n.peers, msg.origin, cfg.priv);
    var cache := AfterPeerKeys(n.keys, n.peers, msg.origin, cfg.priv);
    PeerKeysInv(n.keys, n.peers, msg.origin, cfg.priv);
    var n1 := n.(keys := cache);
    if keys.None? then Quiet(n1)
    else
      var clear := OpenPayload(keys.value.up, msg);
      if clear.None? || Opcode(clear.value.data) != Some(OP_ROUTE_REPORT) || msg.routeLen > MAX_HOPS
      then Quiet(n1)
      else
        var seed := ChainStep(keys.value.up, BuildHopContext(msg, ZERO_MAC, msg.origin), NoMac);
        var chain := Recomputed(cache, n.peers, cfg.priv, msg, 0, msg.origin, seed);
        var n2 := n.(keys := chain.keys);
        if chain.mac != Some(msg.authPath) then Quiet(n2)
        else
          Outcome(n2.(routes := Routes.Recorded(n.routes, msg.origin, msg.routePath, msg.routeLen, now)),
                  [], [clear.value])
  }

  function ReportProcessed(cfg: Config, n: Node, msg: Msg, now: U64): Outcome
    requires CacheInv(n.keys) && n.routes != []
  {
    if n.isMaster then ReportAccepted(cfg, n, msg, now) else ReportRelayed(cfg, n, msg, now)
  }

  // ---- Adapter data ----

  /** `processAdapterData`'s three address tests. */
  predicate ToSelf(cfg: Config, msg: Msg) { msg.target == cfg.self }
  predicate ToAll(msg: Msg) { msg.target == BROADCAST_MAC }
  predicate ToMaster(n: Node, msg: Msg) { n.enroll.hasMaster && msg.target == n.masterMac }

  predicate IsConfigOpcode(msg: Msg) {
    msg.dataType == SERIAL_ADAPTER
    && (Opcode(msg.data) == Some(OP_CONFIG_SET) || Opcode(msg.data) == Some(OP_NODE_ID_SET))
  }

  datatype Verdict = Verdict(clear: Option<Msg>, node: Node)

  /** `FrameAuthorizer::authorize`. */
  function Authorized(cfg: Config, n: Node, msg: Msg): Verdict
    requires CacheInv(n.keys)
  {
    var toSelf := ToSelf(cfg, msg);
    var sealedKind := IsSealedType(msg.kind);
    if n.isMaster && !toSelf && sealedKind then Verdict(None, n)
    else
      var byMaster := n.isMaster && toSelf && sealedKind;
      var byNode := !n.isMaster && toSelf && msg.kind == TYPE_ADAPTER_DATA;
      var keys := if byMaster then PeerKeys(n.keys, n.peers, msg.origin, cfg.priv)
                  else if byNode then MasterKeys(cfg, n) else None;
      var n1 := if byMaster then n.(keys := AfterPeerKeys(n.keys, n.peers, msg.origin, cfg.priv))
                else if byNode then AfterMasterKeys(cfg, n) else n;
      var clear := if !byMaster && !byNode then Some(msg)
                    else if keys.None? then None
                    else OpenPayload(if byMaster then keys.value.up else keys.value.down, msg);
      if clear.None? then Verdict(None, n1)
      else if IsConfigOpcode(clear.value) && !byMaster && !byNode then Verdict(None, n1)
      else if IsConfigOpcode(clear.value) && n.enroll.hasMaster
              && msg.origin != n.enroll.master
              && !(n.enroll.hasSecondary && msg.origin == n.enroll.secondary)
      then Verdict(None, n1)
      else Verdict(clear, n1)
  }

  predicate OwnedPeer(n: Node, mac: Mac) {
    Known(n.peers, mac) || (n.dist != NO_DISTANCE && mac == n.masterMac)
  }

  function WithDownlinkPeer(n: Node, mac: Mac): Node {
    var owned := OwnedPeer(n, mac);
    n.(lru := LruAfter(n.lru, mac, owned), table := TableAfter(n.table, n.lru, mac, owned))
  }

  /** One hop along the frame's own source route. */
  function RouteForwarded(cfg: Config, n: Node, msg: Msg, next: Mac): Outcome
    requires msg.hopCount < MAX_HOPS
  {
    Outcome(WithDownlinkPeer(n, next), Unicast(next, Hopped(msg), cfg.self), [])
  }

  /** Local delivery, and the onward copies of a broadcast. */
  function DataDelivered(cfg: Config, n: Node, msg: Msg): Outcome
    requires CacheInv(n.keys)
  {
    var v := Authorized(cfg, n, msg);
    if v.clear.None? then Quiet(v.node)
    else Outcome(v.node,
                 if ToAll(msg) && !n.isMaster then FloodSends(msg, n.peers, cfg.self) else [],
                 [v.clear.value])
  }

  function DataProcessed(cfg: Config, n: Node, msg: Msg, now: U64): Outcome
    requires CacheInv(n.keys)
  {
    match Classified(msg, cfg.self, n.isMaster, ToSelf(cfg, msg), ToAll(msg), ToMaster(n, msg))
    case DropHopLimitExceeded => Quiet(n)
    case RelayTowardMaster => Transmitted(cfg, n, Relayed(msg, cfg.self), now)
    case ForwardOnRoute(next) => RouteForwarded(cfg, n, msg, next)
    case Flood => Outcome(n, FloodSends(msg, n.peers, cfg.self), [])
    case NotRouted => DataDelivered(cfg, n, msg)
  }

  // ---- Enrollment ----

  datatype Registered = Registered(ok: bool, peers: Registry, changed: bool)

  /** `registerPeerWithKey`: an established key is replaced only on the server's approval. */
  function WithKey(ps: Registry, mac: Mac, key: PubKey, allowRekey: bool, now: U64): (r: Registered)
    ensures !r.ok ==> r.peers == ps && !r.changed
  {
    var i := FindPeer(ps, mac);
    if i < |ps| then
      if !allowRekey && ps[i].key.Pub? then Registered(true, ps[i := ps[i].(lastSeen := now)], false)
      else Registered(true, ps[i := Peer(mac, key, now)], true)
    else if |ps| >= MAX_PEERS then Registered(false, ps, false)
    else Registered(true, ps + [Peer(mac, key, now)], true)
  }

  function WithPeerKey(n: Node, mac: Mac, key: PubKey, allowRekey: bool, now: U64): Node {
    var r := WithKey(n.peers, mac, key, allowRekey, now);
    n.(peers := r.peers, table := if r.changed then n.table + {mac} else n.table)
  }

  /** The JOIN_ACK broadcast of `enrollPeer`. */
  function AckSent(cfg: Config, n: Node, mac: Mac, key: PubKey, secondaryMac: Mac, secondaryKey: PubKey,
                   w: Write): Outcome
  {
    var n1 := n.(tx := Drawn(n.tx, w));
    if !n1.tx.on then Quiet(n1)
    else
      var ack := BLANK.(proto := PROTO_VERSION, kind := TYPE_JOIN_ACK, dataType := UNKNOWN_ADAPTER,
                        origin := cfg.self, target := mac, lastHop := cfg.self,
                        epoch := n1.tx.boot, seqNum := n1.tx.tx, enrollKey := Pub(cfg.priv),
                        data := JoinAck(Fingerprint(key), secondaryMac, secondaryKey));
      Outcome(n1, [Send(BROADCAST_MAC, ack)], [])
  }

  /** `enrollPeer`: the server approves a node whose key was cached when its request was heard. */
  function Approved(cfg: Config, n: Node, mac: Mac, secondaryMac: Mac, secondaryKey: PubKey,
                    now: U64, w: Write): Outcome
  {
    if !Known(n.peers, mac) then Quiet(n)
    else
      var key := KeyOf(n.peers, mac);
      AckSent(cfg, WithPeerKey(n, mac, key, true, now), mac, key, secondaryMac, secondaryKey, w)
  }

  /** `relayEnrollmentUplink`. */
  function EnrollmentRelayed(cfg: Config, n: Node, msg: Msg, now: U64): Outcome
    requires CacheInv(n.keys)
  {
    if msg.origin == cfg.self || msg.hopCount >= MAX_HOPS then Quiet(n)
    else if NextHopToMaster(cfg, n, now).None? then Quiet(n)
    else Transmitted(cfg, AfterNextHop(cfg, n, now), Relayed(msg, cfg.self), now)
  }

  /** An enrollment request: a master registers the key, without rekeying; a node relays. */
  function RequestHeard(cfg: Config, n: Node, msg: Msg, now: U64): Outcome
    requires CacheInv(n.keys)
  {
    if n.isMaster then Quiet(WithPeerKey(n, msg.origin, msg.enrollKey, false, now))
    else EnrollmentRelayed(cfg, n, msg, now)
  }

  /** Origin, fingerprint and pin of a JOIN_ACK addressed to this node all check out. */
  predicate AckTrusted(cfg: Config, n: Node, msg: Msg) {
    && msg.data.JoinAck? && msg.data.fingerprint == Fingerprint(Pub(cfg.priv))
    && msg.enrollKey == cfg.pinKey
    && (n.enroll.hasMaster ==> msg.origin == n.enroll.master)
  }

  /** The secondary master a JOIN_ACK may name. */
  function WithSecondary(n: Node, mac: Mac, key: PubKey, now: U64): Node {
    var n1 := WithPeerKey(n, mac, key, false, now);
    if WithKey(n.peers, mac, key, false, now).ok && !n1.enroll.hasSecondary
    then n1.(enroll := n1.enroll.(hasSecondary := true, secondary := mac))
    else n1
  }

  /** The enrolled flag, and the master on first use. */
  function EnrolledUnder(e: Enrolled, mac: Mac): Enrolled {
    e.(enrolled := true, hasMaster := true, master := if e.hasMaster then e.master else mac)
  }

  /** `Enrollment::processJoinAck`. */
  function AckProcessed(cfg: Config, n: Node, msg: Msg, now: U64): Node {
    if !AckTrusted(cfg, n, msg) || !WithKey(n.peers, msg.origin, msg.enrollKey, false, now).ok then n
    else
      var n1 := WithPeerKey(n, msg.origin, msg.enrollKey, false, now);
      var n2 := n1.(enroll := EnrolledUnder(n1.enroll, msg.origin));
      if msg.data.secondaryMac == ZERO_MAC then n2
      else WithSecondary(n2, msg.data.secondaryMac, msg.data.secondaryKey, now)
  }

  /** `dispatchJoinAck`. */
  function AckDispatched(cfg: Config, n: Node, msg: Msg, now: U64): Outcome {
    if msg.target != cfg.self then
      if msg.origin == cfg.self || msg.hopCount >= MAX_HOPS then Quiet(n)
      else Outcome(n, [Send(BROADCAST_MAC, Relayed(msg, cfg.self))], [])
    else if n.isMaster then Quiet(n)
    else Quiet(AckProcessed(cfg, n, msg, now))
  }

  // ---- Master beacons ----

  predicate BeaconFrom(known: bool, mac: Mac, msg: Msg) {
    known && msg.origin == mac
  }

  /** The guards before any state changes, and the trust-on-first-use decision. */
  predicate BeaconRejected(cfg: Config, n: Node, msg: Msg, now: U64) {
    || msg.origin == cfg.self
    || msg.origin != cfg.pinMac
    || msg.hopCount >= MAX_HOPS
    || (n.enroll.hasMaster
        && !BeaconFrom(true, n.enroll.master, msg)
        && !(cfg.dual && BeaconFrom(n.enroll.hasSecondary, n.enroll.secondary, msg))
        && !(cfg.dual && !n.enroll.hasSecondary)
        && Age(now, n.lastBeaconMs) < STALE_MASTER_MS)
  }

  function MasterLearned(cfg: Config, n: Node, msg: Msg): Enrolled {
    if !n.enroll.hasMaster then n.enroll.(hasMaster := true, master := msg.origin)
    else if BeaconFrom(true, n.enroll.master, msg)
            || (cfg.dual && BeaconFrom(n.enroll.hasSecondary, n.enroll.secondary, msg))
    then n.enroll
    else if cfg.dual && !n.enroll.hasSecondary
    then n.enroll.(hasSecondary := true, secondary := msg.origin)
    else n.enroll.(master := msg.origin)
  }

  /** Own distance: one more than the closest fresh neighbour. */
  function Derived(t: Neighbors.Table, now: U64): Byte {
    var m := Neighbors.MinFresh(t, now);
    if m == NO_DISTANCE then NO_DISTANCE else m + 1
  }

  /** A deadline ahead of `now`, in `uint64_t` arithmetic. */
  function Later(now: U64, ms: nat): U64 {
    (now + ms) % 0x1_0000_0000_0000_0000
  }

  /** What an accepted beacon teaches: the master, the neighbour it came through, the distance. */
  function BeaconAdopted(cfg: Config, n: Node, msg: Msg, now: U64): Node
    requires n.neighbors != []
  {
    var t := Neighbors.Observed(n.neighbors, msg.lastHop, msg.hopCount, now);
    n.(enroll := MasterLearned(cfg, n, msg), lastSeenMaster := msg.origin, lastBeaconMs := now,
       masterMac := msg.origin, neighbors := t, dist := Derived(t, now))
  }

  /** The relay of a beacon newer than the last one relayed, with this node's own distance. */
  function RelayScheduled(cfg: Config, n: Node, msg: Msg, now: U64, jitter: Byte): Node {
    if n.isMaster || !Newer(Mark(msg.epoch, msg.seqNum), n.lastRelayed) then n
    else n.(lastRelayed := Mark(msg.epoch, msg.seqNum),
            pending := Some(msg.(hopCount := n.dist, lastHop := cfg.self)),
            pendingAt := Later(now, 10 + jitter % 64))
  }

  /** `MasterBeacon::process`. */
  function BeaconProcessed(cfg: Config, n: Node, msg: Msg, now: U64, jitter: Byte): Node
    requires n.neighbors != []
  {
    if BeaconRejected(cfg, n, msg, now) then n
    else RelayScheduled(cfg, BeaconAdopted(cfg, n, msg, now), msg, now, jitter)
  }

  /** `checkTimeout`. */
  function TimeoutChecked(n: Node, now: U64): Node {
    if n.isMaster || n.dist == NO_DISTANCE || Age(now, n.lastBeaconMs) <= STALE_MASTER_MS then n
    else n.(masterMac := ZERO_MAC, dist := NO_DISTANCE, lastSeenMaster := ZERO_MAC, lastBeaconMs := 0)
  }

  /** The deferred beacon relay of `Mesh::loop`. */
  function PendingFlushed(n: Node, now: U64): Outcome {
    if n.pending.Some? && now >= n.pendingAt
    then Outcome(n.(pending := None), [Send(BROADCAST_MAC, n.pending.value)], [])
    else Quiet(n)
  }

  /** `intervalElapsed`. */
  predicate BeaconDue(now: U64, last: U64) {
    Age(now, last) >= MASTER_BEACON_INTERVAL_MS
  }

  /** `broadcastMasterBeacon`, once its interval has elapsed. */
  function BeaconSent(cfg: Config, n: Node, w: Write): Outcome {
    if !n.isMaster then Quiet(n)
    else
      var n1 := n.(tx := Drawn(n.tx, w));
      if !n1.tx.on then Quiet(n1)
      else
        var beacon := Built(cfg, n1, TYPE_MASTER_BEACON, UNKNOWN_ADAPTER, Padded(1));
        Outcome(n1, [Send(BROADCAST_MAC, beacon)], [])
  }

  // ---- Dispatch ----

  /** The replay gate and the last-seen update in front of the dispatch. */
  function FrameOf(msg: Msg, now: U64): Replay.Frame {
    Replay.Frame(msg.origin, msg.epoch, msg.seqNum, now)
  }

  predicate GateDrops(n: Node, msg: Msg, now: U64) {
    msg.proto != PROTO_VERSION || (msg.epoch > 0 && Replay.IsReplayOf(n.replay, FrameOf(msg, now)))
  }

  /** A running device lets the frame through to its handler. */
  predicate GatePasses(n: Node, msg: Msg, now: U64) {
    n.tx.on && !GateDrops(n, msg, now)
  }

  function Gated(cfg: Config, n: Node, src: Mac, msg: Msg, now: U64): Node
    requires n.replay != []
  {
    n.(replay := if msg.epoch > 0 then Replay.Admit(n.replay, FrameOf(msg, now)) else n.replay,
       peers := Touched(n.peers, src, cfg.self, now))
  }

  function Dispatched(cfg: Config, n: Node, msg: Msg, now: U64, jitter: Byte): Outcome
    requires NodeInv(n)
  {
    if msg.kind == TYPE_ENROLLMENT then RequestHeard(cfg, n, msg, now)
    else if msg.kind == TYPE_JOIN_ACK then AckDispatched(cfg, n, msg, now)
    else if msg.kind == TYPE_MASTER_BEACON then Quiet(BeaconProcessed(cfg, n, msg, now, jitter))
    else if msg.kind == TYPE_ADAPTER_DATA then DataProcessed(cfg, n, msg, now)
    else if msg.kind == TYPE_ROUTE_REPORT then ReportProcessed(cfg, n, msg, now)
    else Quiet(n)
  }

  /** `handleReceivedMessage`; a halted device hears nothing. */
  function Received(cfg: Config, n: Node, src: Mac, msg: Msg, now: U64, jitter: Byte): Outcome
    requires NodeInv(n)
  {
    if !n.tx.on || GateDrops(n, msg, now) then Quiet(n)
    else
      GateKeepsInv(cfg, n, src, msg, now);
      Dispatched(cfg, Gated(cfg, n, src, msg, now), msg, now, jitter)
  }

  lemma GateKeepsInv(cfg: Config, n: Node, src: Mac, msg: Msg, now: U64)
    requires NodeInv(n)
    ensures NodeInv(Gated(cfg, n, src, msg, now))
  {
    Replay.AdmitKeepsInv(n.replay, FrameOf(msg, now));
  }
}
