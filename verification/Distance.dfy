/** Distances never underestimate: over whole runs of a network, every distance a node holds or
    announces is at least the true one from the master its build pins, whatever the others pin. */
module Distance {
  import opened Types
  import opened Message
  import opened KeyStore
  import opened EspNow
  import opened Downlink
  import opened OutboundSequence
  import opened NodeSpec
  import opened NodeInvariant
  import opened Relaying
  import opened World
  import opened Actions
  import opened Peers
  import Neighbors
  import Replay
  import Routes

  /** Who hears whom. */
  type Graph = map<Mac, seq<Mac>>

  predicate Hears(g: Graph, x: Mac, y: Mac) {
    y in g && x in g[y]
  }

  /** `x` hears the root over at most `k` radio hops. */
  ghost predicate Within(g: Graph, root: Mac, x: Mac, k: nat)
    decreases k
  {
    x == root || (k > 0 && exists y :: Hears(g, x, y) && Within(g, root, y, k - 1))
  }

  /** The true hop distance. */
  ghost predicate IsDistance(g: Graph, root: Mac, x: Mac, k: nat) {
    Within(g, root, x, k) && (k > 0 ==> !Within(g, root, x, k - 1))
  }

  lemma {:induction false} WithinMonotone(g: Graph, root: Mac, x: Mac, j: nat, k: nat)
    requires Within(g, root, x, j) && j <= k
    ensures Within(g, root, x, k)
    decreases j
  {
    if x != root {
      var y :| Hears(g, x, y) && Within(g, root, y, j - 1);
      WithinMonotone(g, root, y, j - 1, k - 1);
    }
  }

  /** A claim `Within(.., k)` is exactly "the true distance exists and is at most `k`". */
  lemma {:induction false} ClaimBoundsDistance(g: Graph, root: Mac, x: Mac, k: nat)
    ensures Within(g, root, x, k) <==> exists d: nat :: d <= k && IsDistance(g, root, x, d)
  {
    if Within(g, root, x, k) {
      if k > 0 && Within(g, root, x, k - 1) {
        ClaimBoundsDistance(g, root, x, k - 1);
      } else {
        assert IsDistance(g, root, x, k);
      }
    } else {
      forall d: nat | d <= k
        ensures !IsDistance(g, root, x, d)
      {
        if IsDistance(g, root, x, d) { WithinMonotone(g, root, x, d, k); }
      }
    }
  }

  // ---- The invariant ----

  /** A neighbour entry of node `m`: heard by `m`, and honest. */
  ghost predicate EntryOk(g: Graph, root: Mac, m: Mac, e: Neighbors.Neighbor) {
    e.valid ==> e.dist < MAX_HOPS && Hears(g, m, e.mac) && Within(g, root, e.mac, e.dist)
  }

  ghost predicate TableOk(g: Graph, root: Mac, m: Mac, t: Neighbors.Table) {
    forall i :: 0 <= i < |t| ==> EntryOk(g, root, m, t[i])
  }

  ghost predicate DistOk(g: Graph, root: Mac, m: Mac, d: Byte) {
    d != NO_DISTANCE ==> 1 <= d <= MAX_HOPS && Within(g, root, m, d)
  }

  /** What a node is about to relay is a beacon of the master it pins, under its own MAC. */
  predicate PendingPinned(cfg: Config, p: Option<Msg>) {
    p.Some? ==> p.value.kind == TYPE_MASTER_BEACON && p.value.origin == cfg.pinMac && p.value.lastHop == cfg.self
  }

  ghost predicate PendingOk(g: Graph, root: Mac, m: Mac, p: Option<Msg>) {
    p.Some? ==> 1 <= p.value.hopCount <= MAX_HOPS && Within(g, root, m, p.value.hopCount)
  }

  /** What a node that pins `root` holds of it is honest; what another node holds is not about it. */
  ghost predicate NodeOk(g: Graph, root: Mac, cfg: Config, n: Node) {
    && PendingPinned(cfg, n.pending)
    && (cfg.pinMac == root ==>
          TableOk(g, root, cfg.self, n.neighbors) && DistOk(g, root, cfg.self, n.dist)
          && PendingOk(g, root, cfg.self, n.pending))
  }

  /** A beacon of the master in the air: its receiver hears the announced last hop, whose
      announced distance is honest. */
  ghost predicate FrameOk(g: Graph, root: Mac, d: Delivery) {
    d.msg.kind == TYPE_MASTER_BEACON && d.msg.origin == root ==>
      Hears(g, d.to, d.msg.lastHop) && Within(g, root, d.msg.lastHop, d.msg.hopCount)
  }

  ghost predicate Honest(net: Net, root: Mac) {
    && (forall m :: m in net.nodes ==> m in net.cfgs && NodeOk(net.hears, root, net.cfgs[m], net.nodes[m]))
    && (forall i :: 0 <= i < |net.air| ==> FrameOk(net.hears, root, net.air[i]))
  }

  ghost predicate DistInv(net: Net, root: Mac) {
    NetInv(net) && Honest(net, root)
  }

  // ---- One node ----

  lemma DataKeepsRouting(cfg: Config, n: Node, msg: Msg, now: U64)
    requires NodeInv(n)
    ensures SameRouting(DataProcessed(cfg, n, msg, now).node, n)
  {
    match Classified(msg, cfg.self, n.isMaster, ToSelf(cfg, msg), ToAll(msg), ToMaster(n, msg))
    case RelayTowardMaster => TransmittedKeys(cfg, n, Relayed(msg, cfg.self), now);
    case _ =>
  }

  lemma ReportKeepsRouting(cfg: Config, n: Node, msg: Msg, now: U64)
    requires NodeInv(n)
    ensures SameRouting(ReportProcessed(cfg, n, msg, now).node, n)
  {
    ReportAcceptedKeys(cfg, n, msg, now);
    var keys := MasterKeys(cfg, n);
    MasterKeysInv(cfg, n);
    if keys.Some? && msg.hopCount < MAX_HOPS && msg.routeLen < MAX_HOPS {
      TransmittedKeys(cfg, AfterMasterKeys(cfg, n), Extended(msg, cfg.self, keys.value.up), now);
    }
  }

  /** Only a beacon changes what a node knows about the way to the master. */
  lemma OthersKeepRouting(cfg: Config, n: Node, src: Mac, msg: Msg, now: U64, jitter: Byte)
    requires NodeInv(n) && msg.kind != TYPE_MASTER_BEACON
    ensures SameRouting(Received(cfg, n, src, msg, now, jitter).node, n)
  {
    if n.tx.on && !GateDrops(n, msg, now) {
      GateKeepsInv(cfg, n, src, msg, now);
      var g := Gated(cfg, n, src, msg, now);
      if msg.kind == TYPE_ADAPTER_DATA {
        DataKeepsRouting(cfg, g, msg, now);
      } else if msg.kind == TYPE_ROUTE_REPORT {
        ReportKeepsRouting(cfg, g, msg, now);
      } else if msg.kind == TYPE_JOIN_ACK {
        AckPeers(cfg, g, msg, now);
      } else if msg.kind == TYPE_ENROLLMENT && !g.isMaster && msg.hopCount < MAX_HOPS {
        TransmittedKeys(cfg, AfterNextHop(cfg, g, now), Relayed(msg, cfg.self), now);
      }
    }
  }

  /** A node's derived distance after an honest beacon is honest, and in 1 .. 8. */
  lemma DerivedIsHonest(g: Graph, root: Mac, m: Mac, t: Neighbors.Table, hop: Mac, dist: Byte, now: U64)
    requires t != [] && TableOk(g, root, m, t)
    requires dist < MAX_HOPS && Hears(g, m, hop) && Within(g, root, hop, dist)
    ensures var r := Neighbors.Observed(t, hop, dist, now);
            TableOk(g, root, m, r)
            && 1 <= Derived(r, now) <= MAX_HOPS && Within(g, root, m, Derived(r, now))
  {
    var s := Neighbors.SlotFor(t, hop, now);
    var r := Neighbors.Observed(t, hop, dist, now);
    assert r[s] in r && Neighbors.Fresh(r[s], now);
    var least := Neighbors.MinFresh(r, now);
    var e :| e in r && Neighbors.Fresh(e, now) && e.dist == least;
    var i :| 0 <= i < |r| && r[i] == e;
    assert EntryOk(g, root, m, r[i]);
    assert Within(g, root, m, least + 1) by { assert Hears(g, m, e.mac); }
  }

  lemma BeaconIsHonest(g: Graph, root: Mac, cfg: Config, n: Node, msg: Msg, now: U64, jitter: Byte)
    requires n.neighbors != [] && NodeOk(g, root, cfg, n)
    requires msg.kind == TYPE_MASTER_BEACON
    requires FrameOk(g, root, Delivery(cfg.self, msg.lastHop, msg))
    ensures NodeOk(g, root, cfg, BeaconProcessed(cfg, n, msg, now, jitter))
  {
    if !BeaconRejected(cfg, n, msg, now) && cfg.pinMac == root {
      DerivedIsHonest(g, root, cfg.self, n.neighbors, msg.lastHop, msg.hopCount, now);
    }
  }

  lemma ReceivedIsHonest(g: Graph, root: Mac, cfg: Config, n: Node, src: Mac, msg: Msg, now: U64, jitter: Byte)
    requires NodeInv(n) && NodeOk(g, root, cfg, n)
    requires FrameOk(g, root, Delivery(cfg.self, src, msg))
    ensures NodeOk(g, root, cfg, Received(cfg, n, src, msg, now, jitter).node)
  {
    if msg.kind != TYPE_MASTER_BEACON {
      OthersKeepRouting(cfg, n, src, msg, now, jitter);
    } else if n.tx.on && !GateDrops(n, msg, now) {
      BeaconIsHonest(g, root, cfg, Gated(cfg, n, src, msg, now), msg, now, jitter);
    }
  }

  /** A reception puts no beacon on the air: relays of beacons are deferred. */
  lemma NoBeaconAnswered(cfg: Config, n: Node, src: Mac, msg: Msg, now: U64, jitter: Byte)
    requires NodeInv(n)
    ensures forall s :: s in Received(cfg, n, src, msg, now, jitter).sent ==> s.msg.kind != TYPE_MASTER_BEACON
  {
    ReceivedRelays(cfg, n, src, msg, now, jitter);
  }

  // ---- The network ----

  /** RAM that remembers nothing of the mesh. */
  predicate Fresh(n: Node) {
    && NodeInv(n) && n.dist == NO_DISTANCE && n.pending.None? && n.lastRelayed == Mark(0, 0)
    && n.neighbors == Neighbors.NoNeighbors() && n.replay == Replay.EmptyCache() && n.routes == Routes.NoRoutes()
  }

  lemma RebootedIsFresh(stored: U32, ps: StoredPeers, saved: Enrolled, w: Write)
    ensures Fresh(Rebooted(stored, ps, saved, w))
  {
    hide Booted;
    RebootedInv(stored, ps, saved, w);
  }

  datatype Event =
    | Heard(i: nat, now: U64, jitter: Byte)
    | Dropped(i: nat)
    | Own(m: Mac, a: Action)

  ghost predicate Enabled(net: Net, e: Event) {
    NetInv(net) &&
    match e
    case Heard(i, _, _) => i < |net.air|
    case Dropped(i) => i < |net.air|
    case Own(m, _) => m in net.nodes
  }

  function After(net: Net, e: Event): Net
    requires Enabled(net, e)
  {
    match e
    case Heard(i, now, jitter) => Deliver(net, i, now, jitter)
    case Dropped(i) => Lose(net, i)
    case Own(m, a) => Act(net, m, Acted(net.cfgs[m], net.nodes[m], a))
  }

  /** A beacon of the root, sent by this device, is honest. */
  ghost predicate SentOk(g: Graph, root: Mac, m: Mac, sent: seq<Send>) {
    forall s :: s in sent && s.msg.kind == TYPE_MASTER_BEACON && s.msg.origin == root ==>
      s.msg.lastHop == m && Within(g, root, m, s.msg.hopCount)
  }

  /** What is in the air after node `m` sends honestly is honest. */
  lemma SpreadIsHonest(g: Graph, rs: seq<Mac>, root: Mac, m: Mac, sent: seq<Send>)
    requires forall x :: x in rs ==> Hears(g, x, m)
    requires SentOk(g, root, m, sent)
    ensures forall d :: d in Spread(rs, m, sent) ==> FrameOk(g, root, d)
  {
    forall d | d in Spread(rs, m, sent)
      ensures FrameOk(g, root, d)
    {
      var s :| s in sent && d.msg == s.msg;
    }
  }

  lemma AirStaysHonest(g: Graph, root: Mac, air: seq<Delivery>, more: seq<Delivery>)
    requires forall i :: 0 <= i < |air| ==> FrameOk(g, root, air[i])
    requires forall d :: d in more ==> FrameOk(g, root, d)
    ensures forall i :: 0 <= i < |air + more| ==> FrameOk(g, root, (air + more)[i])
  {
    forall i | 0 <= i < |air + more|
      ensures FrameOk(g, root, (air + more)[i])
    {
      assert i >= |air| ==> (air + more)[i] == more[i - |air|] && more[i - |air|] in more;
    }
  }

  lemma ActIsHonest(net: Net, root: Mac, m: Mac, o: Outcome)
    requires Honest(net, root) && m in net.cfgs && NodeOk(net.hears, root, net.cfgs[m], o.node)
    requires SentOk(net.hears, root, m, o.sent)
    ensures Honest(Act(net, m, o), root)
  {
    SpreadIsHonest(net.hears, Range(net, m), root, m, o.sent);
    AirStaysHonest(net.hears, root, net.air, Spread(Range(net, m), m, o.sent));
  }

  lemma LoseIsHonest(net: Net, root: Mac, i: nat)
    requires Honest(net, root) && i < |net.air|
    ensures Honest(Lose(net, i), root)
  {
  }

  lemma DeliverIsHonest(net: Net, root: Mac, i: nat, now: U64, jitter: Byte)
    requires DistInv(net, root) && i < |net.air|
    ensures DistInv(Deliver(net, i, now, jitter), root)
  {
    var d := net.air[i];
    LoseIsHonest(net, root, i);
    if d.to in net.nodes {
      var cfg, n := net.cfgs[d.to], net.nodes[d.to];
      assert FrameOk(net.hears, root, d) && NodeOk(net.hears, root, cfg, n);
      ReceivedIsHonest(net.hears, root, cfg, n, d.src, d.msg, now, jitter);
      NoBeaconAnswered(cfg, n, d.src, d.msg, now, jitter);
      DeliverInv(net, i, now, jitter);
      ActIsHonest(Lose(net, i), root, d.to, Answer(net, d, now, jitter));
    }
  }

  /** Whatever a device does on its own keeps it honest, and every beacon of the root that it sends
      is honest: it relays one, or it is the root. */
  lemma ActedIsHonest(g: Graph, root: Mac, cfg: Config, n: Node, a: Action)
    requires NodeInv(n) && NodeOk(g, root, cfg, n)
    ensures NodeOk(g, root, cfg, Acted(cfg, n, a).node)
    ensures SentOk(g, root, cfg.self, Acted(cfg, n, a).sent)
  {
    hide Rebooted, Drawn, Neighbors.Inv, Replay.Inv, Routes.Inv, CacheInv, Distinct;
    if IsErrand(a) {
      ErrandIsHonest(g, root, cfg, n, a);
    } else if a.Reboot? {
      RebootedIsFresh(n.tx.stored, a.peers, a.saved, a.w);
    }
  }

  lemma ErrandIsHonest(g: Graph, root: Mac, cfg: Config, n: Node, a: Action)
    requires NodeInv(n) && NodeOk(g, root, cfg, n) && IsErrand(a)
    ensures NodeOk(g, root, cfg, Acted(cfg, n, a).node) && SentOk(g, root, cfg.self, Acted(cfg, n, a).sent)
  {
    hide Acted;
    ErrandsLeaveRouting(cfg, n, a);
  }

  lemma StepIsHonest(net: Net, root: Mac, e: Event)
    requires DistInv(net, root) && Enabled(net, e)
    ensures DistInv(After(net, e), root)
  {
    match e
    case Heard(i, now, jitter) => DeliverIsHonest(net, root, i, now, jitter);
    case Dropped(i) => LoseIsHonest(net, root, i);
    case Own(m, a) =>
      assert NodeOk(net.hears, root, net.cfgs[m], net.nodes[m]);
      ActedIsHonest(net.hears, root, net.cfgs[m], net.nodes[m], a);
      ActedInv(net.cfgs[m], net.nodes[m], a);
      ActIsHonest(net, root, m, Acted(net.cfgs[m], net.nodes[m], a));
      ActInv(net, m, Acted(net.cfgs[m], net.nodes[m], a));
  }

  // ---- Runs ----

  /** Every device has just booted and nothing is in the air. */
  ghost predicate Start(net: Net) {
    NetInv(net) && net.air == [] && forall m :: m in net.nodes ==> Fresh(net.nodes[m])
  }

  ghost predicate IsRun(run: seq<Net>, es: seq<Event>) {
    |run| == |es| + 1 && forall k :: 0 <= k < |es| ==> Steps(run[k], es[k], run[k + 1])
  }

  ghost predicate Steps(a: Net, e: Event, b: Net) {
    Enabled(a, e) && b == After(a, e)
  }

  lemma StepsHonestly(a: Net, e: Event, b: Net, root: Mac)
    requires Steps(a, e, b) && DistInv(a, root)
    ensures DistInv(b, root)
  {
    StepIsHonest(a, root, e);
  }

  lemma StartIsHonest(net: Net, root: Mac)
    requires Start(net)
    ensures DistInv(net, root)
  {
    forall m | m in net.nodes
      ensures NodeOk(net.hears, root, net.cfgs[m], net.nodes[m])
    {
      assert Fresh(net.nodes[m]);
    }
  }

  lemma {:induction false} HonestyLasts(run: seq<Net>, es: seq<Event>, root: Mac, k: nat)
    requires IsRun(run, es) && DistInv(run[0], root) && k <= |es|
    ensures forall j :: 0 <= j <= k ==> DistInv(run[j], root)
  {
    if k > 0 {
      HonestyLasts(run, es, root, k - 1);
      StepsHonestly(run[k - 1], es[k - 1], run[k], root);
    }
  }

  lemma RunIsHonest(run: seq<Net>, es: seq<Event>, root: Mac, k: nat)
    requires IsRun(run, es) && Start(run[0]) && k <= |es|
    ensures DistInv(run[k], root)
  {
    StartIsHonest(run[0], root);
    HonestyLasts(run, es, root, k);
  }

  /** Whatever is lost, delayed, aged out, evicted or rebooted, and whatever other builds pin: in
      every reachable state a node that claims a distance really is connected to the master it
      pins, and no nearer than it claims. */
  lemma OwnDistanceNeverUnderestimates(run: seq<Net>, es: seq<Event>, k: nat, m: Mac)
    requires IsRun(run, es) && Start(run[0]) && k <= |es|
    requires m in run[k].nodes && run[k].nodes[m].dist != NO_DISTANCE
    ensures 1 <= run[k].nodes[m].dist <= MAX_HOPS && m in run[k].cfgs
    ensures exists d: nat :: d <= run[k].nodes[m].dist && IsDistance(run[k].hears, run[k].cfgs[m].pinMac, m, d)
  {
    hide Steps, Start, NodeInv;
    assert m in run[k].cfgs by { RunIsHonest(run, es, m, k); }
    var root := run[k].cfgs[m].pinMac;
    RunIsHonest(run, es, root, k);
    assert NodeOk(run[k].hears, root, run[k].cfgs[m], run[k].nodes[m]);
    ClaimBoundsDistance(run[k].hears, root, m, run[k].nodes[m].dist);
  }

  /** The same of every neighbour entry, for the neighbour it describes. */
  lemma NeighborDistanceNeverUnderestimates(run: seq<Net>, es: seq<Event>, k: nat, m: Mac, i: nat)
    requires IsRun(run, es) && Start(run[0]) && k <= |es|
    requires m in run[k].nodes && i < |run[k].nodes[m].neighbors| && run[k].nodes[m].neighbors[i].valid
    ensures var e := run[k].nodes[m].neighbors[i];
            m in run[k].cfgs
            && exists d: nat :: d <= e.dist && IsDistance(run[k].hears, run[k].cfgs[m].pinMac, e.mac, d)
  {
    hide Steps, Start, NodeInv;
    assert m in run[k].cfgs by { RunIsHonest(run, es, m, k); }
    var root := run[k].cfgs[m].pinMac;
    RunIsHonest(run, es, root, k);
    assert NodeOk(run[k].hears, root, run[k].cfgs[m], run[k].nodes[m]);
    var e := run[k].nodes[m].neighbors[i];
    assert EntryOk(run[k].hears, root, m, e);
    ClaimBoundsDistance(run[k].hears, root, e.mac, e.dist);
  }

  /** And of every beacon in the air, whichever device sent it first: it announces no less than the
      true distance between that device and the one it was last sent by. */
  lemma BeaconNeverUnderestimates(run: seq<Net>, es: seq<Event>, k: nat, i: nat)
    requires IsRun(run, es) && Start(run[0]) && k <= |es|
    requires i < |run[k].air| && run[k].air[i].msg.kind == TYPE_MASTER_BEACON
    ensures var msg := run[k].air[i].msg;
            exists d: nat :: d <= msg.hopCount && IsDistance(run[k].hears, msg.origin, msg.lastHop, d)
  {
    hide Steps, Start, NodeInv;
    var msg := run[k].air[i].msg;
    RunIsHonest(run, es, msg.origin, k);
    assert FrameOk(run[k].hears, msg.origin, run[k].air[i]);
    ClaimBoundsDistance(run[k].hears, msg.origin, msg.lastHop, msg.hopCount);
  }
}
