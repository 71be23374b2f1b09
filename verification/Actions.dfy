/** What a device does besides receiving: its loop, its adapter, its server, its operator and a
    restart. Each is one of the handlers that `Mesh` is proved against. */
module Actions {
  import opened Types
  import opened Keys
  import opened Message
  import opened Peers
  import opened KeyStore
  import opened EspNow
  import opened Downlink
  import opened OutboundSequence
  import opened NodeSpec
  import opened NodeInvariant
  import opened Relaying
  import Neighbors
  import Replay
  import Routes

  datatype Action =
    | MasterBeacon(w: Write)
    | Flush(now: U64)
    | Timeout(now: U64)
    | RouteReport(now: U64, w: Write)
    | Originate(dataType: I32, data: Data, selfOriginated: bool, now: U64, w: Write)
    | Broadcast(dataType: I32, data: Data, deliverLocally: bool, w: Write)
    | SendDownlink(dest: Mac, dataType: I32, data: Data, w: Write)
    | Request(w: Write)
    | Approve(mac: Mac, secondaryMac: Mac, secondaryKey: PubKey, now: U64, w: Write)
    | SetMaster(value: bool)
    | AddPeer(mac: Mac, now: U64)
    | RemovePeer(mac: Mac)
    | Reboot(peers: StoredPeers, saved: Enrolled, w: Write)

  /** A halted device only restarts. */
  function Acted(cfg: Config, n: Node, a: Action): Outcome
    requires NodeInv(n)
  {
    if !n.tx.on && !a.Reboot? then Quiet(n)
    else
      match a
      case MasterBeacon(w) => BeaconSent(cfg, n, w)
      case Flush(now) => PendingFlushed(n, now)
      case Timeout(now) => Quiet(TimeoutChecked(n, now))
      case RouteReport(now, w) => ReportSent(cfg, n, now, w)
      case Originate(dataType, data, selfOriginated, now, w) =>
        DataOriginated(cfg, n, dataType, data, selfOriginated, now, w)
      case Broadcast(dataType, data, deliverLocally, w) => DataBroadcast(cfg, n, dataType, data, deliverLocally, w)
      case SendDownlink(dest, dataType, data, w) => DownlinkSent(cfg, n, dest, dataType, data, w)
      case Request(w) => RequestSent(cfg, n, w)
      case Approve(mac, secondaryMac, secondaryKey, now, w) =>
        Approved(cfg, n, mac, secondaryMac, secondaryKey, now, w)
      case SetMaster(value) => Quiet(RoleSet(n, value))
      case AddPeer(mac, now) => Quiet(PeerAdded(cfg, n, mac, now))
      case RemovePeer(mac) => Quiet(PeerRemoved(n, mac))
      case Reboot(peers, saved, w) => Quiet(Rebooted(n.tx.stored, peers, saved, w))
  }

  /** What a node knows about the way to the master, and its beacon relay. */
  predicate SameRouting(a: Node, b: Node) {
    a.neighbors == b.neighbors && a.dist == b.dist && a.pending == b.pending && a.pendingAt == b.pendingAt
    && a.masterMac == b.masterMac && a.lastRelayed == b.lastRelayed
  }

  /** An action that is about neither beacons nor time nor a restart. */
  predicate IsErrand(a: Action) {
    !a.MasterBeacon? && !a.Flush? && !a.Timeout? && !a.Reboot?
  }

  /** What a frame of one's own may be: no beacon, and a route report only with an empty path. */
  predicate OwnFrame(m: Msg) {
    m.kind != TYPE_MASTER_BEACON && (m.kind == TYPE_ROUTE_REPORT ==> m.routeLen == 0)
  }

  /** The outcome of an errand: tables in shape, routing and replay cache alone, routes kept or
      dropped, own frames only. */
  predicate Errand(n: Node, o: Outcome) {
    && NodeInv(o.node) && SameRouting(o.node, n) && o.node.replay == n.replay
    && (o.node.routes == n.routes || o.node.routes == Routes.NoRoutes())
    && forall s :: s in o.sent ==> OwnFrame(s.msg)
  }

  lemma CopiesAreOwn(msg: Msg, ps: Registry, self: Mac)
    requires OwnFrame(msg)
    ensures forall s :: s in CopiesTo(msg, ps, self) ==> OwnFrame(s.msg)
  {
    CopiesReachPeers(msg, ps, self);
  }

  lemma PreparedPath(cfg: Config, n: Node, m: Msg, now: U64)
    requires CacheInv(n.keys)
    ensures forall s :: s in Transmitted(cfg, n, m, now).sent ==> s.msg.kind == m.kind && s.msg.routeLen == m.routeLen
  {
  }

  lemma OwnTransmittedErrand(cfg: Config, n: Node, kind: Byte, dataType: I32, data: Data, now: U64, w: Write)
    requires NodeInv(n) && kind != TYPE_MASTER_BEACON
    ensures Errand(n, OwnTransmitted(cfg, n, kind, dataType, data, now, w))
  {
    hide Transmitted;
    var n1 := n.(tx := Drawn(n.tx, w));
    var m := Built(cfg, n1, kind, dataType, data);
    TransmittedKeys(cfg, n1, m, now);
    PreparedPath(cfg, n1, m, now);
  }

  lemma BroadcastErrand(cfg: Config, n: Node, dataType: I32, data: Data, deliverLocally: bool, w: Write)
    requires NodeInv(n)
    ensures Errand(n, DataBroadcast(cfg, n, dataType, data, deliverLocally, w))
  {
    var n1 := n.(tx := Drawn(n.tx, w));
    CopiesAreOwn(Built(cfg, n1, TYPE_ADAPTER_DATA, dataType, data).(target := BROADCAST_MAC), n.peers, cfg.self);
  }

  lemma SealedDownlinkErrand(cfg: Config, n: Node, dest: Mac, dataType: I32, data: Data, w: Write)
    requires NodeInv(n)
    ensures var s := DownlinkSealed(cfg, n, dest, dataType, data, w);
            && s.node == n.(tx := s.node.tx, keys := s.node.keys) && NodeInv(s.node)
            && (s.msg.Some? ==> s.msg.value.kind == TYPE_ADAPTER_DATA && s.msg.value.target == dest
                                && s.msg.value.hopCount == 0)
  {
    PeerKeysInv(n.keys, n.peers, dest, cfg.priv);
  }

  lemma RoutedDownlinkErrand(cfg: Config, n: Node, dest: Mac, msg: Msg)
    requires NodeInv(n) && msg.kind == TYPE_ADAPTER_DATA
    ensures Errand(n, DownlinkRouted(cfg, n, dest, msg))
  {
    var path := Routes.PathTo(n.routes, dest);
    if path.Some? && path.value != [] {
      var first := WithRoute(msg, path.value).routePath[0];
      LruKeepsDistinct(n.lru, first, OwnedPeer(n, first));
    } else {
      CopiesAreOwn(msg, n.peers, cfg.self);
    }
  }

  lemma DownlinkErrand(cfg: Config, n: Node, dest: Mac, dataType: I32, data: Data, w: Write)
    requires NodeInv(n)
    ensures Errand(n, DownlinkSent(cfg, n, dest, dataType, data, w))
  {
    hide DownlinkSealed, DownlinkRouted;
    SealedDownlinkErrand(cfg, n, dest, dataType, data, w);
    var s := DownlinkSealed(cfg, n, dest, dataType, data, w);
    if s.msg.Some? {
      RoutedDownlinkErrand(cfg, s.node, dest, s.msg.value);
    }
  }

  lemma ReportErrand(cfg: Config, n: Node, now: U64, w: Write)
    requires NodeInv(n)
    ensures Errand(n, ReportSent(cfg, n, now, w))
  {
    hide OwnTransmitted, NextHopToMaster, Neighbors.Inv, Replay.Inv, Routes.Inv, CacheInv, Distinct;
    OwnTransmittedErrand(cfg, AfterNextHop(cfg, n, now), TYPE_ROUTE_REPORT, UNKNOWN_ADAPTER,
                         Padded(OP_ROUTE_REPORT), now, w);
  }

  lemma EnrollmentErrand(cfg: Config, n: Node, mac: Mac, m2: Mac, k2: PubKey, now: U64, w: Write)
    requires NodeInv(n)
    ensures Errand(n, RequestSent(cfg, n, w)) && Errand(n, Approved(cfg, n, mac, m2, k2, now, w))
  {
    hide Drawn, Neighbors.Inv, Replay.Inv, Routes.Inv, CacheInv, Distinct;
  }

  lemma RoleErrand(n: Node, value: bool)
    requires NodeInv(n)
    ensures Errand(n, Quiet(RoleSet(n, value)))
  {
    hide Neighbors.Inv, Replay.Inv, Distinct;
  }

  /** Every errand leaves routing, replay cache and pending relay alone and sends no beacon. */
  lemma ErrandsLeaveRouting(cfg: Config, n: Node, a: Action)
    requires NodeInv(n) && IsErrand(a)
    ensures Errand(n, Acted(cfg, n, a))
  {
    hide ReportSent, OwnTransmitted, DataBroadcast, DownlinkSent, RequestSent, Approved, RoleSet, Neighbors.Inv,
      Replay.Inv, Routes.Inv, CacheInv, Distinct;
    match a
    case RouteReport(now, w) => ReportErrand(cfg, n, now, w);
    case Originate(dataType, data, selfOriginated, now, w) =>
      BroadcastErrand(cfg, n, dataType, data, selfOriginated, w);
      OwnTransmittedErrand(cfg, n, TYPE_ADAPTER_DATA, dataType, data, now, w);
    case Broadcast(dataType, data, deliverLocally, w) => BroadcastErrand(cfg, n, dataType, data, deliverLocally, w);
    case SendDownlink(dest, dataType, data, w) => DownlinkErrand(cfg, n, dest, dataType, data, w);
    case Request(w) => EnrollmentErrand(cfg, n, cfg.self, ZERO_MAC, NoKey, 0, w);
    case Approve(mac, m2, k2, now, w) => EnrollmentErrand(cfg, n, mac, m2, k2, now, w);
    case SetMaster(value) => RoleErrand(n, value);
    case _ =>
  }

  lemma RebootedInv(stored: U32, ps: StoredPeers, saved: Enrolled, w: Write)
    ensures NodeInv(Rebooted(stored, ps, saved, w))
  {
    hide Booted;
  }

  /** Every action keeps the tables in shape. */
  lemma ActedInv(cfg: Config, n: Node, a: Action)
    requires NodeInv(n)
    ensures NodeInv(Acted(cfg, n, a).node)
  {
    hide BeaconSent, PendingFlushed, TimeoutChecked, Rebooted, Neighbors.Inv, Replay.Inv, Routes.Inv,
      CacheInv, Distinct;
    if IsErrand(a) {
      ErrandsLeaveRouting(cfg, n, a);
    } else if a.Reboot? {
      RebootedInv(n.tx.stored, a.peers, a.saved, a.w);
    } else {
      LoopInv(cfg, n, a);
    }
  }

  lemma LoopInv(cfg: Config, n: Node, a: Action)
    requires NodeInv(n) && !IsErrand(a) && !a.Reboot?
    ensures NodeInv(Acted(cfg, n, a).node)
  {
    hide Drawn, Neighbors.Inv, Replay.Inv, Routes.Inv, CacheInv, Distinct;
  }
}
