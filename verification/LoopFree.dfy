/** Which recorded paths a master can use, and why an honest network records no other. */
module LoopFree {
  import opened Types
  import opened Keys
  import opened Message
  import opened EspNow
  import opened Peers
  import opened KeyStore
  import opened Downlink
  import opened OutboundSequence
  import opened NodeSpec
  import opened NodeInvariant
  import opened Relaying
  import opened World
  import opened Actions
  import opened Distance
  import opened BeaconRelay
  import opened SourceRoute
  import opened RouteChain
  import opened ReturnPath
  import Neighbors
  import Replay
  import Routes

  // ---- The answer along a recorded path ----

  /** The reversed path up to the destination's own place on it. */
  function WayTo(path: seq<Mac>, dest: Mac): seq<Mac> {
    var back := Reversed(path);
    back[..PositionOn(back, dest)]
  }

  /** Whatever path is on record, the downlink sent along it reaches its destination exactly when
      no node repeats on the way. */
  lemma AnswerCarriedIff(cfg: Config, n: Node, dest: Mac, dataType: I32, data: Data, w: Write, path: seq<Mac>)
    requires NodeInv(n) && n.isMaster && dest != BROADCAST_MAC
    requires Routes.PathTo(n.routes, dest) == Some(path) && path != []
    ensures forall s :: s in DownlinkSent(cfg, n, dest, dataType, data, w).sent ==>
              s.dest == path[|path| - 1] && (Carried(s.msg, s.dest) <==> Distinct(WayTo(path, dest)))
  {
    hide DownlinkSealed, Carried;
    var sealedMsg := DownlinkSealed(cfg, n, dest, dataType, data, w);
    SealedDownlinkErrand(cfg, n, dest, dataType, data, w);
    if sealedMsg.msg.Some? {
      var m := WithRoute(sealedMsg.msg.value, path);
      assert PathOf(m) == Reversed(path);
      RouteUsableIff(m);
    }
  }

  lemma DistinctWay(path: seq<Mac>, dest: Mac)
    requires Distinct(path)
    ensures Distinct(WayTo(path, dest))
  {
  }

  // ---- Replay caches remember what they let through ----

  /** The node drops every copy of this frame. */
  predicate Blocks(n: Node, m: Msg) {
    m.epoch > 0 && Replay.IsReplayOf(n.replay, FrameOf(m, 0))
  }

  /** A cache with room for every origin it meets goes on blocking what it blocked, and blocks what
      it has just admitted. */
  lemma AdmittedIsBlocked(t: Replay.Cache, f: Replay.Frame, all: set<Mac>, g: Replay.Frame)
    requires t != [] && Replay.Inv(t)
    requires Replay.UsedMacs(t) <= all && f.origin in all && |all| <= |t|
    ensures Replay.IsReplayOf(t, g) ==> Replay.IsReplayOf(Replay.Admit(t, f), g)
    ensures Replay.IsReplayOf(Replay.Admit(t, f), f)
    ensures Replay.UsedMacs(Replay.Admit(t, f)) <= all
  {
    var r := Replay.Admit(t, f);
    Replay.AdmitKeepsInv(t, f);
    Replay.AdmitRefines(t, f, all);
    Replay.HighWaterAt(t, g.origin);
    Replay.HighWaterAt(r, g.origin);
    Replay.HighWaterAt(t, f.origin);
    Replay.HighWaterAt(r, f.origin);
  }

  // ---- One reception ----

  lemma TransmittedPath(cfg: Config, n: Node, m: Msg, now: U64)
    requires CacheInv(n.keys) && m.kind == TYPE_ROUTE_REPORT
    ensures forall s :: s in Transmitted(cfg, n, m, now).sent ==>
              s.msg.routeLen == m.routeLen && s.msg.routePath == m.routePath && SameMark(s.msg, m)
  {
  }

  predicate SameMark(a: Msg, b: Msg) {
    a.origin == b.origin && a.epoch == b.epoch && a.seqNum == b.seqNum
  }

  /** `out` is `msg` with one more hop on its path. */
  predicate Extends(out: Msg, msg: Msg, self: Mac) {
    && msg.kind == TYPE_ROUTE_REPORT && msg.routeLen < MAX_HOPS && SameMark(out, msg)
    && out.routeLen == msg.routeLen + 1 && out.routePath == msg.routePath[msg.routeLen := self]
  }

  lemma ReportExtends(cfg: Config, n: Node, msg: Msg, now: U64)
    requires NodeInv(n) && msg.kind == TYPE_ROUTE_REPORT
    ensures forall s :: s in ReportProcessed(cfg, n, msg, now).sent ==> Extends(s.msg, msg, cfg.self)
  {
    hide Transmitted;
    var keys := MasterKeys(cfg, n);
    MasterKeysInv(cfg, n);
    if !n.isMaster && keys.Some? && msg.hopCount < MAX_HOPS && msg.routeLen < MAX_HOPS {
      TransmittedPath(cfg, AfterMasterKeys(cfg, n), Extended(msg, cfg.self, keys.value.up), now);
    }
  }

  /** A route report leaves a reception only as an extension of the report heard, and only through
      the replay gate. */
  lemma HearingExtends(cfg: Config, n: Node, src: Mac, msg: Msg, now: U64, jitter: Byte)
    requires NodeInv(n)
    ensures forall s :: s in Received(cfg, n, src, msg, now, jitter).sent && s.msg.kind == TYPE_ROUTE_REPORT ==>
              GatePasses(n, msg, now) && Extends(s.msg, msg, cfg.self)
  {
    hide ReportProcessed, DataProcessed, EnrollmentRelayed, AckDispatched, BeaconProcessed;
    ReceivedRelays(cfg, n, src, msg, now, jitter);
    if GatePasses(n, msg, now) && msg.kind == TYPE_ROUTE_REPORT {
      GateKeepsInv(cfg, n, src, msg, now);
      ReportExtends(cfg, Gated(cfg, n, src, msg, now), msg, now);
    }
  }

  /** The handlers leave the replay cache to the gate, and only a report heard can change routes. */
  lemma HearingRecords(cfg: Config, n: Node, src: Mac, msg: Msg, now: U64, jitter: Byte)
    requires NodeInv(n)
    ensures var r := Received(cfg, n, src, msg, now, jitter).node;
            && r.replay == (if GatePasses(n, msg, now) then Gated(cfg, n, src, msg, now).replay else n.replay)
            && (r.routes == n.routes
                || (msg.kind == TYPE_ROUTE_REPORT && msg.routeLen <= MAX_HOPS
                    && r.routes == Routes.Recorded(n.routes, msg.origin, msg.routePath, msg.routeLen, now)))
  {
    hide Replay.Admit, Neighbors.Observed, Neighbors.Inv, Replay.Inv, Routes.Inv, Distinct;
    if GatePasses(n, msg, now) {
      GateKeepsInv(cfg, n, src, msg, now);
      var g := Gated(cfg, n, src, msg, now);
      if msg.kind == TYPE_ADAPTER_DATA {
        DataLeaves(cfg, g, msg, now);
      } else if msg.kind == TYPE_ROUTE_REPORT {
        ReportLeaves(cfg, g, msg, now);
      } else if msg.kind == TYPE_JOIN_ACK {
        AckPeers(cfg, g, msg, now);
      } else if msg.kind == TYPE_ENROLLMENT && !g.isMaster && msg.hopCount < MAX_HOPS {
        TransmittedKeys(cfg, AfterNextHop(cfg, g, now), Relayed(msg, cfg.self), now);
      }
    }
  }

  lemma DataLeaves(cfg: Config, n: Node, msg: Msg, now: U64)
    requires NodeInv(n)
    ensures DataProcessed(cfg, n, msg, now).node.replay == n.replay
    ensures DataProcessed(cfg, n, msg, now).node.routes == n.routes
  {
    match Classified(msg, cfg.self, n.isMaster, ToSelf(cfg, msg), ToAll(msg), ToMaster(n, msg))
    case RelayTowardMaster => TransmittedKeys(cfg, n, Relayed(msg, cfg.self), now);
    case _ =>
  }

  lemma ReportLeaves(cfg: Config, n: Node, msg: Msg, now: U64)
    requires NodeInv(n)
    ensures var r := ReportProcessed(cfg, n, msg, now).node;
            && r.replay == n.replay
            && (r.routes == n.routes
                || (msg.routeLen <= MAX_HOPS
                    && r.routes == Routes.Recorded(n.routes, msg.origin, msg.routePath, msg.routeLen, now)))
  {
    hide Routes.Recorded;
    ReportAcceptedKeys(cfg, n, msg, now);
    var keys := MasterKeys(cfg, n);
    MasterKeysInv(cfg, n);
    if keys.Some? && msg.hopCount < MAX_HOPS && msg.routeLen < MAX_HOPS {
      TransmittedKeys(cfg, AfterMasterKeys(cfg, n), Extended(msg, cfg.self, keys.value.up), now);
    }
  }

  // ---- The network ----

  /** Every path on record is free of repeats. */
  predicate RoutesDistinct(t: Routes.Table) {
    forall i :: 0 <= i < |t| && t[i].valid && t[i].pathLen <= MAX_HOPS ==> Distinct(t[i].path[..t[i].pathLen])
  }

  lemma RecordedDistinct(t: Routes.Table, mac: Mac, path: RoutePath, pathLen: Byte, now: U64)
    requires t != [] && RoutesDistinct(t) && (pathLen <= MAX_HOPS ==> Distinct(path[..pathLen]))
    ensures RoutesDistinct(Routes.Recorded(t, mac, path, pathLen, now))
  {
    if pathLen <= MAX_HOPS {
      var s := Routes.TargetSlot(t, mac);
      var r := Routes.Recorded(t, mac, path, pathLen, now);
      assert r[s].path[..pathLen] == path[..pathLen];
    }
  }

  /** A report in the air: no relay is on its path twice, and each would drop it. */
  ghost predicate Settled(nodes: map<Mac, Node>, m: Msg) {
    m.kind == TYPE_ROUTE_REPORT ==>
      && m.epoch > 0 && m.routeLen <= MAX_HOPS && Distinct(PathOf(m))
      && forall x :: x in PathOf(m) ==> x in nodes && Blocks(nodes[x], m)
  }

  /** For each node the origins it hears of: no more than its replay cache has slots. */
  type Company = map<Mac, set<Mac>>

  ghost predicate Remembers(nodes: map<Mac, Node>, heard: Company) {
    forall m :: m in nodes && m in heard ==> Replay.UsedMacs(nodes[m].replay) <= heard[m]
  }

  ghost predicate SettledNet(net: Net, heard: Company) {
    && NetInv(net) && Remembers(net.nodes, heard)
    && (forall i :: 0 <= i < |net.air| ==> Settled(net.nodes, net.air[i].msg))
    && (forall m :: m in net.nodes ==> NodeSettled(net.nodes[m]))
  }

  /** Only beacons wait in the relay slot, and no recorded path repeats a node. */
  predicate NodeSettled(n: Node) {
    RoutesDistinct(n.routes) && (n.pending.Some? ==> n.pending.value.kind == TYPE_MASTER_BEACON)
  }

  /** A receiver never meets a thirteenth origin; no device restarts while a report it relayed is in
      the air; and no route report is sent under epoch zero. */
  ghost predicate Orderly(net: Net, e: Distance.Event, heard: Company) {
    NetInv(net) &&
    match e
    case Heard(i, _, _) =>
      i < |net.air| && net.air[i].to in net.nodes ==>
        && net.air[i].to in heard && |heard[net.air[i].to]| <= REPLAY_MAX_ORIGINS
        && net.air[i].msg.origin in heard[net.air[i].to]
    case Dropped(_) => true
    case Own(m, a) =>
      m in net.nodes ==>
        && (a.Reboot? ==> forall d :: d in net.air ==> !Names(d.msg, m))
        && (forall s :: s in Acted(net.cfgs[m], net.nodes[m], a).sent && s.msg.kind == TYPE_ROUTE_REPORT ==>
              s.msg.epoch > 0)
  }

  predicate Names(msg: Msg, m: Mac) {
    msg.kind == TYPE_ROUTE_REPORT && (msg.routeLen <= MAX_HOPS ==> m in PathOf(msg))
  }

  /** One node changes and goes on blocking what it blocked. */
  lemma SettledSurvives(nodes: map<Mac, Node>, m: Msg, x: Mac, r: Node)
    requires Settled(nodes, m) && x in nodes && (!Names(m, x) || (Blocks(nodes[x], m) ==> Blocks(r, m)))
    ensures Settled(nodes[x := r], m)
  {
  }

  /** Hearing a frame, a node with room for its origins goes on blocking what it blocked, and a
      frame it lets through it blocks from then on. */
  lemma HearingBlocks(cfg: Config, n: Node, src: Mac, msg: Msg, now: U64, jitter: Byte, all: set<Mac>, g: Msg)
    requires NodeInv(n) && Replay.UsedMacs(n.replay) <= all && msg.origin in all && |all| <= REPLAY_MAX_ORIGINS
    ensures var r := Received(cfg, n, src, msg, now, jitter).node;
            && Replay.UsedMacs(r.replay) <= all
            && (Blocks(n, g) ==> Blocks(r, g))
            && (GatePasses(n, msg, now) && msg.epoch > 0 && SameMark(g, msg) ==> Blocks(r, g))
  {
    hide Received;
    HearingRecords(cfg, n, src, msg, now, jitter);
    AdmittedIsBlocked(n.replay, FrameOf(msg, now), all, FrameOf(g, 0));
  }

  /** The path grows by a node that was not on it: it would have dropped the report. */
  lemma ExtensionSettled(nodes: map<Mac, Node>, msg: Msg, out: Msg, x: Mac, r: Node, now: U64)
    requires Settled(nodes, msg) && Extends(out, msg, x) && x in nodes && GatePasses(nodes[x], msg, now)
    requires Blocks(r, out)
    ensures Settled(nodes[x := r], out)
  {
    assert x !in PathOf(msg);
    assert PathOf(out) == PathOf(msg) + [x];
    assert forall i :: 0 <= i < msg.routeLen ==> PathOf(msg)[i] in PathOf(msg);
  }

  lemma AnswerSettled(net: Net, heard: Company, i: nat, now: U64, jitter: Byte, s: Send)
    requires SettledNet(net, heard) && i < |net.air| && Orderly(net, Heard(i, now, jitter), heard)
    requires net.air[i].to in net.nodes && s in Answer(net, net.air[i], now, jitter).sent
    ensures Settled(net.nodes[net.air[i].to := Answer(net, net.air[i], now, jitter).node], s.msg)
  {
    hide Received, NodeInv, Blocks;
    var d := net.air[i];
    var cfg, n := net.cfgs[d.to], net.nodes[d.to];
    if s.msg.kind == TYPE_ROUTE_REPORT {
      HearingExtends(cfg, n, d.src, d.msg, now, jitter);
      HearingBlocks(cfg, n, d.src, d.msg, now, jitter, heard[d.to], s.msg);
      ExtensionSettled(net.nodes, d.msg, s.msg, d.to, Answer(net, d, now, jitter).node, now);
    }
  }

  lemma HeardStaysSettled(net: Net, heard: Company, i: nat, now: U64, jitter: Byte)
    requires SettledNet(net, heard) && i < |net.air| && Orderly(net, Heard(i, now, jitter), heard)
    ensures SettledNet(Deliver(net, i, now, jitter), heard)
  {
    hide Received, NodeInv, Settled, RoutesDistinct;
    var d, r := net.air[i], Deliver(net, i, now, jitter);
    DeliverInv(net, i, now, jitter);
    if d.to in net.nodes {
      var cfg, n, o := net.cfgs[d.to], net.nodes[d.to], Answer(net, d, now, jitter);
      forall x | x in r.air
        ensures Settled(r.nodes, x.msg)
      {
        HearingBlocks(cfg, n, d.src, d.msg, now, jitter, heard[d.to], x.msg);
        if x in World.Without(net.air, i) {
          SettledSurvives(net.nodes, x.msg, d.to, o.node);
        } else {
          var s :| s in o.sent && x.msg == s.msg;
          AnswerSettled(net, heard, i, now, jitter, s);
        }
      }
      HearingBlocks(cfg, n, d.src, d.msg, now, jitter, heard[d.to], d.msg);
      HearingKeepsRoutes(net, heard, i, now, jitter);
    }
  }

  lemma HearingKeepsRoutes(net: Net, heard: Company, i: nat, now: U64, jitter: Byte)
    requires SettledNet(net, heard) && i < |net.air| && net.air[i].to in net.nodes
    ensures NodeSettled(Answer(net, net.air[i], now, jitter).node)
  {
    hide Received, RoutesDistinct;
    var d := net.air[i];
    var n := net.nodes[d.to];
    HearingRecords(net.cfgs[d.to], n, d.src, d.msg, now, jitter);
    HearingArms(net.cfgs[d.to], n, d.src, d.msg, now, jitter);
    assert Settled(net.nodes, d.msg);
    if d.msg.kind == TYPE_ROUTE_REPORT {
      RecordedDistinct(n.routes, d.msg.origin, d.msg.routePath, d.msg.routeLen, now);
    }
  }

  /** What a device does on its own: it forgets origins only in a restart, records no path, and
      every report it sends is its own, with an empty path. */
  lemma ActionSettled(cfg: Config, n: Node, a: Action)
    requires NodeInv(n) && NodeSettled(n)
    ensures var o := Acted(cfg, n, a);
            && NodeSettled(o.node)
            && Replay.UsedMacs(o.node.replay) <= Replay.UsedMacs(n.replay)
            && (!a.Reboot? ==> o.node.replay == n.replay)
            && (forall s :: s in o.sent && s.msg.kind == TYPE_ROUTE_REPORT ==> s.msg.routeLen == 0)
  {
    hide Rebooted, Drawn, Neighbors.Inv, Replay.Inv, Routes.Inv, Distinct;
    if IsErrand(a) {
      hide Acted;
      ErrandsLeaveRouting(cfg, n, a);
    } else if a.Reboot? {
      RebootedIsFresh(n.tx.stored, a.peers, a.saved, a.w);
    }
  }

  lemma OwnStaysSettled(net: Net, heard: Company, m: Mac, a: Action)
    requires SettledNet(net, heard) && m in net.nodes && Orderly(net, Own(m, a), heard)
    ensures SettledNet(Act(net, m, Acted(net.cfgs[m], net.nodes[m], a)), heard)
  {
    hide Acted, NodeInv, RoutesDistinct, Settled;
    var cfg, n := net.cfgs[m], net.nodes[m];
    var o := Acted(cfg, n, a);
    var r := Act(net, m, o);
    ActedInv(cfg, n, a);
    ActInv(net, m, o);
    ActionSettled(cfg, n, a);
    forall x | x in r.air
      ensures Settled(r.nodes, x.msg)
    {
      if x in net.air {
        SettledSurvives(net.nodes, x.msg, m, o.node);
      } else {
        var s :| s in o.sent && x.msg == s.msg;
        EmptyPathSettled(r.nodes, s.msg);
      }
    }
  }

  lemma EmptyPathSettled(nodes: map<Mac, Node>, m: Msg)
    requires m.kind == TYPE_ROUTE_REPORT ==> m.epoch > 0 && m.routeLen == 0
    ensures Settled(nodes, m)
  {
  }

  lemma StepStaysSettled(net: Net, e: Distance.Event, heard: Company)
    requires SettledNet(net, heard) && Enabled(net, e) && Orderly(net, e, heard)
    ensures SettledNet(After(net, e), heard)
  {
    hide NodeInv, Settled, NodeSettled;
    match e
    case Heard(i, now, jitter) => HeardStaysSettled(net, heard, i, now, jitter);
    case Dropped(i) =>
    case Own(m, a) => OwnStaysSettled(net, heard, m, a);
  }

  // ---- Runs ----

  ghost predicate OrderlyRun(run: seq<Net>, es: seq<Distance.Event>, heard: Company) {
    IsRun(run, es) && forall k :: 0 <= k < |es| ==> Orderly(run[k], es[k], heard)
  }

  lemma FreshIsSettled(n: Node)
    requires Fresh(n)
    ensures NodeSettled(n) && Replay.UsedMacs(n.replay) == {}
  {
    assert forall s :: s in n.replay ==> s == Replay.FREE;
    assert forall i :: 0 <= i < |n.routes| ==> n.routes[i] == Routes.NO_ROUTE;
  }

  lemma StartIsSettled(net: Net, heard: Company)
    requires Start(net)
    ensures SettledNet(net, heard)
  {
    hide Fresh, NodeSettled, NodeInv, Replay.UsedMacs;
    forall m | m in net.nodes
      ensures NodeSettled(net.nodes[m]) && Replay.UsedMacs(net.nodes[m].replay) == {}
    {
      FreshIsSettled(net.nodes[m]);
    }
  }

  lemma {:induction false} RunIsSettled(run: seq<Net>, es: seq<Distance.Event>, heard: Company, k: nat)
    requires OrderlyRun(run, es, heard) && Start(run[0]) && k <= |es|
    ensures SettledNet(run[k], heard)
  {
    hide SettledNet, Start, Orderly, Enabled;
    if k == 0 {
      StartIsSettled(run[0], heard);
    } else {
      RunIsSettled(run, es, heard, k - 1);
      assert Steps(run[k - 1], es[k - 1], run[k]);
      StepStaysSettled(run[k - 1], es[k - 1], heard);
    }
  }

  /** No report relayed by honest nodes runs in a circle: as long as no replay cache overflows and no
      relay restarts under a report in the air, no path on record ever repeats a node, and every
      downlink a master sends along a recorded path reaches its destination. */
  lemma EveryRecordedPathIsUsable(run: seq<Net>, es: seq<Distance.Event>, heard: Company, k: nat, m: Mac,
                                  dest: Mac, path: seq<Mac>, dataType: I32, data: Data, w: Write)
    requires OrderlyRun(run, es, heard) && Start(run[0]) && k <= |es|
    requires m in run[k].nodes && run[k].nodes[m].isMaster && dest != BROADCAST_MAC
    requires Routes.PathTo(run[k].nodes[m].routes, dest) == Some(path) && path != []
    ensures Distinct(path) && NetInv(run[k])
    ensures forall s :: s in DownlinkSent(run[k].cfgs[m], run[k].nodes[m], dest, dataType, data, w).sent ==>
              s.dest == path[|path| - 1] && Carried(s.msg, s.dest)
  {
    hide DownlinkSent, Carried, Steps, Orderly, Start, NodeInv;
    RunIsSettled(run, es, heard, k);
    assert NodeSettled(run[k].nodes[m]);
    DistinctWay(path, dest);
    AnswerCarriedIff(run[k].cfgs[m], run[k].nodes[m], dest, dataType, data, w, path);
  }

  /** And that is what the devices do: with relays that are running, no masters and hear the frame for
      the first time, each hands it on, alone, to the next, and the destination delivers exactly the
      payload. */
  lemma EveryRecordedPathDelivers(run: seq<Net>, es: seq<Distance.Event>, heard: Company, k: nat, m: Mac, co: Config,
                                  path: seq<Mac>, dataType: I32, payload: Data, w: Write, answer: Msg,
                                  back: seq<Stop>, dest: Stop)
    requires OrderlyRun(run, es, heard) && Start(run[0]) && k <= |es|
    requires m in run[k].nodes && m in run[k].cfgs && co.self != BROADCAST_MAC
    requires var cm, nm := run[k].cfgs[m], run[k].nodes[m];
             && NodeInv(nm) && nm.isMaster && Ready(cm, nm) && KeyOf(nm.peers, co.self) == Pub(co.priv)
             && CanDraw(nm.tx, w)
             && Routes.PathTo(nm.routes, co.self) == Some(path) && path != [] && path[|path| - 1] != cm.self
             && DownlinkSent(cm, nm, co.self, dataType, payload, w).sent == [Send(path[|path| - 1], answer)]
             && Joined(co, dest.node, cm) && dest.node.enroll.master == cm.self
    requires WayBack(back, co, Reversed(path), answer)
    requires dest.node.tx.on && !GateDrops(dest.node, HoppedBy(answer, |back|), dest.now)
    ensures |path| <= MAX_HOPS && Distinct(path)
    ensures forall i :: 0 <= i < |back| ==> HandsOn(back[i], co, Reversed(path), answer, i)
    ensures Received(co, dest.node, dest.src, HoppedBy(answer, |back|), dest.now, dest.jitter).local
            == [HoppedBy(answer, |back|).(data := payload)]
  {
    hide DownlinkSent, Carried, Steps, Orderly, Start, Received, DownFrame, HandsOn, Carries, GateDrops, Follows, Ready,
      CanDraw, Neighbors.Inv, Replay.Inv, Routes.Inv, Distinct, RoutesDistinct;
    var cm, nm := run[k].cfgs[m], run[k].nodes[m];
    RunIsSettled(run, es, heard, k);
    assert NodeSettled(nm);
    RecordedIsDistinct(nm, co.self, path);
    MasterSendsBack(co, cm, path, nm, dataType, payload, w);
    DownFrameDelivers(back, co, cm, Reversed(path), payload, answer, dest);
  }

  lemma RecordedIsDistinct(n: Node, dest: Mac, path: seq<Mac>)
    requires NodeSettled(n) && Routes.PathTo(n.routes, dest) == Some(path)
    ensures Distinct(path) && Distinct(Reversed(path))
  {
  }
}
