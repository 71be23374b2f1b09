/** The return path: what an uplink route report collects, and the way a downlink takes back. */
module ReturnPath {
  import opened Types
  import opened Keys
  import opened Message
  import opened FrameCrypto
  import opened Peers
  import opened KeyStore
  import opened EspNow
  import opened Downlink
  import opened OutboundSequence
  import opened NodeSpec
  import opened NodeInvariant
  import opened Relaying
  import opened RouteChain
  import Neighbors
  import Replay
  import Routes

  // ---- Nodes that have joined a master ----

  /** The node follows master `cm`, holds its key and has a sound key cache. */
  predicate Joined(cfg: Config, n: Node, cm: Config) {
    NodeInv(n) && Follows(cfg, n, cm)
  }

  predicate Follows(cfg: Config, n: Node, cm: Config) {
    && !n.isMaster && CacheInv(n.keys)
    && n.enroll.hasMaster && n.masterMac == cm.self && KeyOf(n.peers, cm.self) == Pub(cm.priv)
    && Coherent(n.keys, n.peers, cfg.priv) && n.keys.entries != []
  }

  /** The uplink and downlink keys a node and its master share. */
  function Up(a: nat, b: nat): Key { KUp({a, b}) }
  function Down(a: nat, b: nat): Key { KDown({a, b}) }

  lemma JoinedKeys(cfg: Config, n: Node, cm: Config)
    requires Follows(cfg, n, cm)
    ensures MasterKeys(cfg, n) == Some(KeyPair(Up(cfg.priv, cm.priv), Down(cfg.priv, cm.priv)))
  {
    PeerKeysAreFresh(n.keys, n.peers, cm.self, cfg.priv);
  }

  lemma GateKeepsJoined(cfg: Config, n: Node, cm: Config, src: Mac, msg: Msg, now: U64)
    requires Joined(cfg, n, cm)
    ensures Joined(cfg, Gated(cfg, n, src, msg, now), cm)
  {
    GateKeepsInv(cfg, n, src, msg, now);
    GateKeepsFollows(cfg, n, cm, src, msg, now);
  }

  // ---- Origin and relays ----

  /** A sealed, seeded report of this device on its way out. */
  predicate FreshReport(cfg: Config, cm: Config, m: Msg) {
    && m.kind == TYPE_ROUTE_REPORT && m.origin == cfg.self && m.target == cm.self
    && m.hopCount == 0 && m.routeLen == 0 && m.proto == PROTO_VERSION
    && m.data == SealPayload(Up(cfg.priv, cm.priv), m.(data := Padded(OP_ROUTE_REPORT))).data
    && m.authTag == SealPayload(Up(cfg.priv, cm.priv), m.(data := Padded(OP_ROUTE_REPORT))).authTag
    && m.authPath == ChainOf(m, [Up(cfg.priv, cm.priv)], 0)
  }

  /** Whatever `sendRouteReport` puts on the air is such a report. */
  lemma OriginSends(cfg: Config, n: Node, cm: Config, now: U64, w: Write)
    requires Joined(cfg, n, cm)
    ensures forall s :: s in ReportSent(cfg, n, now, w).sent ==> FreshReport(cfg, cm, s.msg)
  {
    var n1 := AfterNextHop(cfg, n, now);
    var n2 := n1.(tx := Drawn(n1.tx, w));
    JoinedKeys(cfg, n2.(tx := n2.tx.(sealed := Mark(n2.tx.boot, n2.tx.tx))), cm);
  }

  /** The keys of origin and relays, in path order. */
  function PathKeys(co: Config, cm: Config, stops: seq<Stop>): (r: seq<Key>)
    ensures |r| == |stops| + 1
  {
    [Up(co.priv, cm.priv)]
    + seq(|stops|, i requires 0 <= i < |stops| => Up(stops[i].cfg.priv, cm.priv))
  }

  function PathMacs(stops: seq<Stop>): (r: seq<Mac>)
    ensures |r| == |stops|
    ensures forall i :: 0 <= i < |r| ==> r[i] == stops[i].cfg.self
  {
    seq(|stops|, i requires 0 <= i < |stops| => stops[i].cfg.self)
  }

  /** The report after its first `j` relays: untouched but for the hops, their MACs in order and
      their links on the chain. */
  predicate Travelled(base: Msg, co: Config, cm: Config, stops: seq<Stop>, j: nat, m: Msg)
    requires j <= |stops|
  {
    && j <= MAX_HOPS && m.hopCount == j && m.routeLen == j
    && SameHeader(m, base) && m.kind == base.kind && m.proto == base.proto && m.dataType == base.dataType
    && m.data == base.data && m.authTag == base.authTag
    && (forall i :: 0 <= i < j ==> m.routePath[i] == stops[i].cfg.self)
    && m.authPath == ChainOf(m, PathKeys(co, cm, stops), j)
  }

  /** What a relay does with a report that passes its gate. */
  lemma RelayProcesses(cfg: Config, g: Node, cm: Config, msg: Msg, now: U64)
    requires Follows(cfg, g, cm) && g.routes != [] && msg.origin != cfg.self && msg.kind == TYPE_ROUTE_REPORT
    ensures ReportProcessed(cfg, g, msg, now).sent
            == if msg.hopCount >= MAX_HOPS || msg.routeLen >= MAX_HOPS then []
               else
                 var hop := NextHopToMaster(cfg, g, now);
                 if hop.None? then []
                 else Unicast(hop.value, Extended(msg, cfg.self, Up(cfg.priv, cm.priv)), cfg.self)
  {
    JoinedKeys(cfg, g, cm);
    MasterKeysInv(cfg, g);
  }

  lemma ReportReachesHandler(cfg: Config, n: Node, src: Mac, msg: Msg, now: U64, jitter: Byte)
    requires NodeInv(n) && msg.kind == TYPE_ROUTE_REPORT
    ensures CacheInv(Gated(cfg, n, src, msg, now).keys) && Gated(cfg, n, src, msg, now).routes != []
    ensures Received(cfg, n, src, msg, now, jitter).sent
            == if n.tx.on && !GateDrops(n, msg, now)
               then ReportProcessed(cfg, Gated(cfg, n, src, msg, now), msg, now).sent else []
  {
    GateKeepsInv(cfg, n, src, msg, now);
  }

  lemma GateKeepsFollows(cfg: Config, n: Node, cm: Config, src: Mac, msg: Msg, now: U64)
    requires Follows(cfg, n, cm) && n.replay != []
    ensures Follows(cfg, Gated(cfg, n, src, msg, now), cm)
  {
    TouchedKeys(n.peers, src, cfg.self, now);
  }

  /** A relay sends its extension of the report whenever the frame passes the replay gate, has
      hops left and the relay knows a next hop. */
  lemma RelaySends(cfg: Config, n: Node, cm: Config, src: Mac, msg: Msg, now: U64, jitter: Byte)
    requires Joined(cfg, n, cm) && msg.kind == TYPE_ROUTE_REPORT && msg.origin != cfg.self
    requires n.tx.on && !GateDrops(n, msg, now) && msg.hopCount < MAX_HOPS && msg.routeLen < MAX_HOPS
    requires var hop := NextHopToMaster(cfg, Gated(cfg, n, src, msg, now), now);
             hop.Some? && hop.value != cfg.self
    ensures Received(cfg, n, src, msg, now, jitter).sent
            == [Send(NextHopToMaster(cfg, Gated(cfg, n, src, msg, now), now).value,
                     Extended(msg, cfg.self, Up(cfg.priv, cm.priv)))]
  {
    ReportReachesHandler(cfg, n, src, msg, now, jitter);
    GateKeepsFollows(cfg, n, cm, src, msg, now);
    RelayProcesses(cfg, Gated(cfg, n, src, msg, now), cm, msg, now);
  }

  /** It sends nothing else. */
  lemma AnswerIsExtension(s: Stop, cm: Config, heard: Msg, out: Msg)
    requires Answers(s, heard, out) && Joined(s.cfg, s.node, cm) && heard.kind == TYPE_ROUTE_REPORT
    ensures heard.hopCount < MAX_HOPS && heard.routeLen < MAX_HOPS
    ensures out == Extended(heard, s.cfg.self, Up(s.cfg.priv, cm.priv))
  {
    ReportReachesHandler(s.cfg, s.node, s.src, heard, s.now, s.jitter);
    GateKeepsFollows(s.cfg, s.node, cm, s.src, heard, s.now);
    RelayProcesses(s.cfg, Gated(s.cfg, s.node, s.src, heard, s.now), cm, heard, s.now);
  }

  lemma ExtensionTravels(base: Msg, co: Config, cm: Config, stops: seq<Stop>, j: nat, m: Msg)
    requires j < |stops| && j < MAX_HOPS && Travelled(base, co, cm, stops, j, m)
    ensures Travelled(base, co, cm, stops, j + 1,
                      Extended(m, stops[j].cfg.self, Up(stops[j].cfg.priv, cm.priv)))
  {
    var ks := PathKeys(co, cm, stops);
    var r := Extended(m, stops[j].cfg.self, Up(stops[j].cfg.priv, cm.priv));
    ChainDependsOn(m, r, ks, ks, j);
    assert BuildHopContext(r.(authPath := m.authPath), PreviousHop(m), stops[j].cfg.self)
        == BuildHopContext(r, HopBefore(r, j), r.routePath[j]);
  }

  /** Each stop is an enrolled relay other than the origin, and hears what the one before it
      sent. */
  ghost predicate ReportRun(co: Config, cm: Config, stops: seq<Stop>, frames: seq<Msg>) {
    |frames| == |stops| + 1 && forall i :: 0 <= i < |stops| ==> RelayedAt(co, cm, stops, frames, i)
  }

  ghost predicate RelayedAt(co: Config, cm: Config, stops: seq<Stop>, frames: seq<Msg>, i: nat)
    requires i < |stops| && |frames| == |stops| + 1
  {
    && Joined(stops[i].cfg, stops[i].node, cm) && stops[i].cfg.self != co.self
    && Answers(stops[i], frames[i], frames[i + 1])
  }

  lemma StopTravels(base: Msg, co: Config, cm: Config, stops: seq<Stop>, j: nat, heard: Msg, out: Msg)
    requires j < |stops| && Answers(stops[j], heard, out) && Joined(stops[j].cfg, stops[j].node, cm)
    requires Travelled(base, co, cm, stops, j, heard) && base.kind == TYPE_ROUTE_REPORT
    ensures j < MAX_HOPS && Travelled(base, co, cm, stops, j + 1, out)
  {
    AnswerIsExtension(stops[j], cm, heard, out);
    ExtensionTravels(base, co, cm, stops, j, heard);
  }

  lemma {:induction false} ReportTravels(co: Config, cm: Config, stops: seq<Stop>, frames: seq<Msg>, j: nat)
    requires ReportRun(co, cm, stops, frames) && FreshReport(co, cm, frames[0]) && j <= |stops|
    ensures Travelled(frames[0], co, cm, stops, j, frames[j])
  {
    if j == 0 {
      ChainDependsOn(frames[0], frames[0], [Up(co.priv, cm.priv)], PathKeys(co, cm, stops), 0);
    } else {
      ReportTravels(co, cm, stops, frames, j - 1);
      assert RelayedAt(co, cm, stops, frames, j - 1);
      StopTravels(frames[0], co, cm, stops, j - 1, frames[j - 1], frames[j]);
    }
  }

  // ---- The master ----

  /** The master holds the key of the origin and of every relay, and a sound cache. */
  predicate Enrolls(cm: Config, n: Node, co: Config, stops: seq<Stop>) {
    && NodeInv(n) && n.isMaster && Ready(cm, n)
    && KeyOf(n.peers, co.self) == Pub(co.priv)
    && forall i :: 0 <= i < |stops| ==> KeyOf(n.peers, stops[i].cfg.self) == Pub(stops[i].cfg.priv)
  }

  lemma GateKeepsEnrolls(cm: Config, n: Node, co: Config, stops: seq<Stop>, src: Mac, msg: Msg, now: U64)
    requires Enrolls(cm, n, co, stops)
    ensures Enrolls(cm, Gated(cm, n, src, msg, now), co, stops)
  {
    GateKeepsInv(cm, n, src, msg, now);
    TouchedKeys(n.peers, src, cm.self, now);
  }

  lemma KeyMatchesAt(base: Msg, co: Config, cm: Config, stops: seq<Stop>, n: Node, m: Msg, i: nat)
    requires Enrolls(cm, n, co, stops) && m.origin == co.self && i <= |stops| <= MAX_HOPS
    requires forall k :: 0 <= k < |stops| ==> m.routePath[k] == stops[k].cfg.self
    ensures KeyOf(n.peers, HopBefore(m, i)).Pub?
    ensures UpKey(n.peers, cm.priv, HopBefore(m, i)) == PathKeys(co, cm, stops)[i]
  {
    if i == 0 {
      assert {cm.priv, co.priv} == {co.priv, cm.priv};
    } else {
      assert {cm.priv, stops[i - 1].cfg.priv} == {stops[i - 1].cfg.priv, cm.priv};
    }
  }

  /** The keys on record at the master are those the hops chained with. */
  lemma KeysMatch(base: Msg, co: Config, cm: Config, stops: seq<Stop>, n: Node, m: Msg)
    requires Enrolls(cm, n, co, stops) && FreshReport(co, cm, base)
    requires Travelled(base, co, cm, stops, |stops|, m)
    ensures AllKnown(n.peers, m)
    ensures KeysOnRecord(n.peers, cm.priv, m) == PathKeys(co, cm, stops)
  {
    forall i | 0 <= i <= |stops|
      ensures KeyOf(n.peers, HopBefore(m, i)).Pub?
      ensures UpKey(n.peers, cm.priv, HopBefore(m, i)) == PathKeys(co, cm, stops)[i]
    {
      KeyMatchesAt(base, co, cm, stops, n, m, i);
    }
    assert forall i :: 0 <= i < |stops| ==> m.routePath[i] == HopBefore(m, i + 1);
  }

  lemma TravelledIsGenuine(base: Msg, co: Config, cm: Config, stops: seq<Stop>, n: Node, m: Msg)
    requires Enrolls(cm, n, co, stops) && FreshReport(co, cm, base)
    requires Travelled(base, co, cm, stops, |stops|, m)
    ensures Genuine(cm, n, m) && m.data.plain == Padded(OP_ROUTE_REPORT)
  {
    KeysMatch(base, co, cm, stops, n, m);
    assert {cm.priv, co.priv} == {co.priv, cm.priv};
  }

  /** A genuine report is delivered and its path is the one found from then on. */
  lemma MasterAccepts(cm: Config, g: Node, co: Config, stops: seq<Stop>, m: Msg, now: U64)
    requires Enrolls(cm, g, co, stops) && Genuine(cm, g, m) && m.origin == co.self
    ensures var o := ReportAccepted(cm, g, m, now);
            && o.local == [m.(data := m.data.plain)]
            && Routes.PathTo(o.node.routes, co.self) == Some(PathOf(m))
            && Enrolls(cm, o.node, co, stops) && o.node.tx == g.tx
  {
    AcceptedIffGenuine(cm, g, m, now);
    ReportAcceptedInv(cm, g, m, now);
    Routes.PathAfterRecord(g.routes, co.self, m.routePath, m.routeLen, now);
  }

  lemma MasterDispatches(cm: Config, nm: Node, src: Mac, m: Msg, now: U64, jitter: Byte)
    requires NodeInv(nm) && nm.isMaster && nm.tx.on && !GateDrops(nm, m, now) && m.kind == TYPE_ROUTE_REPORT
    ensures NodeInv(Gated(cm, nm, src, m, now))
    ensures Received(cm, nm, src, m, now, jitter) == ReportAccepted(cm, Gated(cm, nm, src, m, now), m, now)
  {
    GateKeepsInv(cm, nm, src, m, now);
  }

  /** The master hears the report, accepts it, and then looks up exactly the relays in order. */
  lemma MasterLearnsPath(base: Msg, co: Config, cm: Config, stops: seq<Stop>, m: Msg, nm: Node,
                         src: Mac, now: U64, jitter: Byte)
    requires FreshReport(co, cm, base) && Travelled(base, co, cm, stops, |stops|, m)
    requires Enrolls(cm, nm, co, stops) && nm.tx.on && !GateDrops(nm, m, now)
    ensures var o := Received(cm, nm, src, m, now, jitter);
            && o.local == [m.(data := Padded(OP_ROUTE_REPORT))]
            && Routes.PathTo(o.node.routes, co.self) == Some(PathMacs(stops))
            && Enrolls(cm, o.node, co, stops) && o.node.tx == nm.tx
  {
    hide Received, GateDrops, ReportAccepted, ChainOf, Ready, Neighbors.Inv, Replay.Inv, Routes.Inv, CacheInv, Distinct;
    MasterDispatches(cm, nm, src, m, now, jitter);
    GateKeepsEnrolls(cm, nm, co, stops, src, m, now);
    TravelledIsGenuine(base, co, cm, stops, Gated(cm, nm, src, m, now), m);
    MasterAccepts(cm, Gated(cm, nm, src, m, now), co, stops, m, now);
    assert PathOf(m) == PathMacs(stops);
  }

  // ---- The way back ----

  /** A downlink for `co` as the master sends it, after `i` hops along its source route. */
  predicate DownFrame(co: Config, cm: Config, route: seq<Mac>, payload: Data, i: nat, m: Msg) {
    && |route| <= MAX_HOPS && m.routeLen == |route| && PathOf(m) == route && m.hopCount == i
    && m.kind == TYPE_ADAPTER_DATA && m.target == co.self && m.origin == cm.self && m.proto == PROTO_VERSION
    && m.data == SealPayload(Down(co.priv, cm.priv), m.(data := payload)).data
    && m.authTag == SealPayload(Down(co.priv, cm.priv), m.(data := payload)).authTag
  }

  /** The master has a pair to draw: it is running, below the last epoch, and the write of a
      wrapped epoch, if one is due, succeeds. */
  predicate CanDraw(tx: Device, w: Write) {
    tx.on && Consistent(tx) && tx.stored < EPOCH_MAX && Drawn(tx, w).on
  }

  /** With a path on record the master sends exactly one frame, to the last relay of that path,
      with the path reversed. */
  lemma MasterSendsBack(co: Config, cm: Config, path: seq<Mac>, nm: Node, dataType: I32, payload: Data, w: Write)
    requires NodeInv(nm) && nm.isMaster && Ready(cm, nm) && KeyOf(nm.peers, co.self) == Pub(co.priv)
    requires CanDraw(nm.tx, w)
    requires path != [] && Routes.PathTo(nm.routes, co.self) == Some(path) && path[|path| - 1] != cm.self
    ensures |path| <= MAX_HOPS
    ensures var o := DownlinkSent(cm, nm, co.self, dataType, payload, w);
            && |o.sent| == 1 && o.sent[0].dest == path[|path| - 1]
            && DownFrame(co, cm, Reversed(path), payload, 0, o.sent[0].msg)
            && o.sent[0].msg.dataType == dataType
  {
    var n1 := nm.(tx := Drawn(nm.tx, w));
    SealNeverRejected(nm.tx, w);
    PeerKeysAreFresh(nm.keys, nm.peers, co.self, cm.priv);
    assert {cm.priv, co.priv} == {co.priv, cm.priv};
    var o := DownlinkSent(cm, nm, co.self, dataType, payload, w);
    var m := o.sent[0].msg;
    assert PathOf(m) == Reversed(path);
  }

  /** The `i`-th stop of the way back passes the replay gate, is no master, and is not told that
      the destination is its master. */
  predicate Carries(s: Stop, co: Config, m: Msg) {
    && NodeInv(s.node) && s.node.tx.on && !s.node.isMaster && !GateDrops(s.node, m, s.now)
    && s.cfg.self != co.self && s.node.masterMac != co.self
  }

  /** The `i`-th node of a duplicate-free route sends the frame to exactly its successor, or to
      the destination after the last. */
  lemma CarrierForwards(s: Stop, co: Config, cm: Config, route: seq<Mac>, payload: Data, i: nat, m: Msg)
    requires DownFrame(co, cm, route, payload, i, m) && i < |route|
    requires Distinct(route) && co.self != BROADCAST_MAC
    requires s.cfg.self == route[i] && Carries(s, co, m)
    ensures Received(s.cfg, s.node, s.src, m, s.now, s.jitter).sent
            == [Send(NextOnRoute(route, i, co.self), Hopped(m))]
    ensures DownFrame(co, cm, route, payload, i + 1, Hopped(m))
  {
    var g := Gated(s.cfg, s.node, s.src, m, s.now);
    assert PositionOn(PathOf(m), s.cfg.self) == i;
    assert Classified(m, s.cfg.self, g.isMaster, ToSelf(s.cfg, m), ToAll(m), ToMaster(g, m))
        == ForwardOnRoute(NextOnRoute(route, i, co.self));
  }

  /** The destination opens and delivers exactly the payload. */
  lemma DestinationDelivers(co: Config, cm: Config, route: seq<Mac>, payload: Data, i: nat, m: Msg,
                            n: Node, src: Mac, now: U64, jitter: Byte)
    requires DownFrame(co, cm, route, payload, i, m) && co.self != BROADCAST_MAC
    requires Joined(co, n, cm) && n.enroll.master == cm.self && n.tx.on && !GateDrops(n, m, now)
    ensures Received(co, n, src, m, now, jitter).local == [m.(data := payload)]
    ensures Received(co, n, src, m, now, jitter).sent == []
  {
    var g := Gated(co, n, src, m, now);
    GateKeepsJoined(co, n, cm, src, m, now);
    JoinedKeys(co, g, cm);
    assert OpenPayload(Down(co.priv, cm.priv), m) == Some(m.(data := payload));
  }

  /** The frame as it reaches each node of the way back. */
  function HoppedBy(m: Msg, i: nat): Msg
    requires m.hopCount + i <= MAX_HOPS
  {
    m.(hopCount := m.hopCount + i)
  }

  /** The stops of the way back: the nodes on the route before the destination, each ready to carry
      the frame as it arrives there. */
  ghost predicate WayBack(back: seq<Stop>, co: Config, route: seq<Mac>, m: Msg) {
    && |back| == PositionOn(route, co.self) && m.hopCount == 0 && |route| <= MAX_HOPS
    && forall i :: 0 <= i < |back| ==> back[i].cfg.self == route[i] && Carries(back[i], co, HoppedBy(m, i))
  }

  /** Stop `j` hears the frame after `j` hops and sends it, alone, to the next on the route. */
  predicate HandsOn(s: Stop, co: Config, route: seq<Mac>, m: Msg, j: nat)
    requires j < |route| <= MAX_HOPS && m.hopCount == 0
  {
    NodeInv(s.node) && Received(s.cfg, s.node, s.src, HoppedBy(m, j), s.now, s.jitter).sent
    == [Send(NextOnRoute(route, j, co.self), HoppedBy(m, j + 1))]
  }

  lemma CarrierHandsOn(s: Stop, co: Config, cm: Config, route: seq<Mac>, payload: Data, i: nat, m: Msg)
    requires i < |route| <= MAX_HOPS && m.hopCount == 0 && Distinct(route) && co.self != BROADCAST_MAC
    requires DownFrame(co, cm, route, payload, i, HoppedBy(m, i))
    requires s.cfg.self == route[i] && Carries(s, co, HoppedBy(m, i))
    ensures HandsOn(s, co, route, m, i)
    ensures DownFrame(co, cm, route, payload, i + 1, HoppedBy(m, i + 1))
  {
    CarrierForwards(s, co, cm, route, payload, i, HoppedBy(m, i));
    assert Hopped(HoppedBy(m, i)) == HoppedBy(m, i + 1);
  }

  /** Hop by hop along the route: stop `i` hears the frame with hop count `i` and sends it, alone,
      to the next; the hop limit is never reached. */
  lemma {:induction false} RouteIsFollowed(back: seq<Stop>, co: Config, cm: Config, route: seq<Mac>, payload: Data,
                                           m: Msg, i: nat)
    requires DownFrame(co, cm, route, payload, 0, m) && WayBack(back, co, route, m)
    requires Distinct(route) && co.self != BROADCAST_MAC && i <= |back|
    ensures DownFrame(co, cm, route, payload, i, HoppedBy(m, i))
    ensures forall j :: 0 <= j < i ==> HandsOn(back[j], co, route, m, j)
  {
    hide DownFrame, Carries, HandsOn, Distinct;
    if i > 0 {
      RouteIsFollowed(back, co, cm, route, payload, m, i - 1);
      CarrierHandsOn(back[i - 1], co, cm, route, payload, i - 1, m);
    }
  }

  /** One report's way to the master, the downlink the master answers with, and the stops that
      carry it back. */
  datatype Journey = Journey(co: Config, cm: Config, stops: seq<Stop>, frames: seq<Msg>,
                             master: Stop, dataType: I32, payload: Data, w: Write,
                             back: seq<Stop>, dest: Stop)

  /** The master after it heard the report. */
  function MasterAfter(j: Journey): Node
    requires NodeInv(j.master.node) && |j.frames| == |j.stops| + 1
  {
    Received(j.cm, j.master.node, j.master.src, j.frames[|j.stops|], j.master.now, j.master.jitter).node
  }

  /** What it then sends toward the origin. */
  function AnswerSent(j: Journey): seq<Send>
    requires NodeInv(j.master.node) && |j.frames| == |j.stops| + 1
  {
    if !CacheInv(MasterAfter(j).keys) then []
    else DownlinkSent(j.cm, MasterAfter(j), j.co.self, j.dataType, j.payload, j.w).sent
  }

  /** One to eight distinct enrolled relays carry a fresh report of the origin to a master that
      enrols them all. */
  ghost predicate ReportArrives(j: Journey) {
    && ReportRun(j.co, j.cm, j.stops, j.frames) && FreshReport(j.co, j.cm, j.frames[0])
    && j.stops != [] && Distinct(PathMacs(j.stops)) && j.stops[|j.stops| - 1].cfg.self != j.cm.self
    && j.co.self != BROADCAST_MAC
    && Enrolls(j.cm, j.master.node, j.co, j.stops) && CanDraw(j.master.node.tx, j.w)
    && !GateDrops(j.master.node, j.frames[|j.stops|], j.master.now)
  }

  function AnswerMsg(j: Journey): Msg
    requires NodeInv(j.master.node) && |j.frames| == |j.stops| + 1
  {
    if AnswerSent(j) == [] then BLANK else AnswerSent(j)[0].msg
  }

  /** Relays and origin let the answer through their replay gates as it passes. */
  ghost predicate AnswerPasses(j: Journey)
    requires NodeInv(j.master.node) && |j.frames| == |j.stops| + 1
  {
    var m := AnswerMsg(j);
    && |j.stops| <= MAX_HOPS
    && WayBack(j.back, j.co, Reversed(PathMacs(j.stops)), m)
    && Joined(j.co, j.dest.node, j.cm) && j.dest.node.enroll.master == j.cm.self && j.dest.node.tx.on
    && !GateDrops(j.dest.node, HoppedBy(m, |j.stops|), j.dest.now)
  }

  /** The return-path theorem. A report relayed by distinct enrolled relays makes the master
      record exactly those relays in order; the one frame it then sends leaves for the last of
      them, each relay hands it on, alone, to the one before it, and the origin delivers exactly
      the payload. */
  lemma LearnedPathDelivers(j: Journey)
    requires ReportArrives(j) && AnswerPasses(j)
    ensures 1 <= |j.stops| <= MAX_HOPS
    ensures Routes.PathTo(MasterAfter(j).routes, j.co.self) == Some(PathMacs(j.stops))
    ensures AnswerSent(j) == [Send(j.stops[|j.stops| - 1].cfg.self, AnswerMsg(j))]
    ensures var m := AnswerMsg(j);
            && |j.back| == |j.stops| && m.hopCount == 0
            && (forall i :: 0 <= i < |j.back| ==> HandsOn(j.back[i], j.co, Reversed(PathMacs(j.stops)), m, i))
            && NodeInv(j.dest.node)
            && Received(j.co, j.dest.node, j.dest.src, HoppedBy(m, |j.stops|), j.dest.now, j.dest.jitter).local
               == [HoppedBy(m, |j.stops|).(data := j.payload)]
  {
    hide ReportArrives, Received, DownFrame, HandsOn, Carries, Follows, GateDrops, DownlinkSent, Distinct;
    AnswerIsBuilt(j);
    OriginOffRoute(j);
    ArrivalFacts(j);
    DownFrameDelivers(j.back, j.co, j.cm, Reversed(PathMacs(j.stops)), j.payload, AnswerMsg(j), j.dest);
  }

  lemma ArrivalFacts(j: Journey)
    requires ReportArrives(j)
    ensures j.stops != [] && Distinct(Reversed(PathMacs(j.stops))) && j.co.self != BROADCAST_MAC
    ensures NodeInv(j.master.node) && |j.frames| == |j.stops| + 1
  {
    hide RelayedAt, FreshReport, CanDraw;
  }

  lemma AnswerIsBuilt(j: Journey)
    requires ReportArrives(j)
    ensures |j.stops| <= MAX_HOPS
    ensures Routes.PathTo(MasterAfter(j).routes, j.co.self) == Some(PathMacs(j.stops))
    ensures AnswerSent(j) == [Send(j.stops[|j.stops| - 1].cfg.self, AnswerMsg(j))]
    ensures DownFrame(j.co, j.cm, Reversed(PathMacs(j.stops)), j.payload, 0, AnswerMsg(j))
  {
    hide Received, DownlinkSent, DownFrame, GateDrops, Ready, RelayedAt, FreshReport, MasterAfter, CanDraw,
      Neighbors.Inv, Replay.Inv, Routes.Inv, CacheInv, Distinct;
    ReportIsLearned(j);
    MasterSendsBack(j.co, j.cm, PathMacs(j.stops), MasterAfter(j), j.dataType, j.payload, j.w);
  }

  lemma ReportIsLearned(j: Journey)
    requires ReportArrives(j)
    ensures |j.stops| <= MAX_HOPS
    ensures Routes.PathTo(MasterAfter(j).routes, j.co.self) == Some(PathMacs(j.stops))
    ensures Enrolls(j.cm, MasterAfter(j), j.co, j.stops) && MasterAfter(j).tx == j.master.node.tx
  {
    ReportTravels(j.co, j.cm, j.stops, j.frames, |j.stops|);
    MasterLearnsPath(j.frames[0], j.co, j.cm, j.stops, j.frames[|j.stops|], j.master.node,
                     j.master.src, j.master.now, j.master.jitter);
  }

  /** A frame sealed for `co` goes hop by hop through the nodes before it on the route, and `co` opens
      and delivers the payload. */
  lemma DownFrameDelivers(back: seq<Stop>, co: Config, cm: Config, route: seq<Mac>, payload: Data, m: Msg, dest: Stop)
    requires DownFrame(co, cm, route, payload, 0, m) && WayBack(back, co, route, m)
    requires Distinct(route) && co.self != BROADCAST_MAC
    requires Joined(co, dest.node, cm) && dest.node.enroll.master == cm.self && dest.node.tx.on
    requires !GateDrops(dest.node, HoppedBy(m, |back|), dest.now)
    ensures forall i :: 0 <= i < |back| ==> HandsOn(back[i], co, route, m, i)
    ensures Received(co, dest.node, dest.src, HoppedBy(m, |back|), dest.now, dest.jitter).local
            == [HoppedBy(m, |back|).(data := payload)]
  {
    hide DownFrame, HandsOn, Carries, Distinct, Received, Joined, GateDrops;
    RouteIsFollowed(back, co, cm, route, payload, m, |back|);
    DestinationDelivers(co, cm, route, payload, |back|, HoppedBy(m, |back|), dest.node, dest.src,
                        dest.now, dest.jitter);
  }

  /** No relay of a report is its origin, so all of them lie before it on the way back. */
  lemma OriginOffRoute(j: Journey)
    requires ReportArrives(j)
    ensures PositionOn(Reversed(PathMacs(j.stops)), j.co.self) == |j.stops|
  {
    hide RelayedAt;
    forall i | 0 <= i < |j.stops|
      ensures j.stops[i].cfg.self != j.co.self
    {
      RelayIsNotOrigin(j, i);
    }
  }

  lemma RelayIsNotOrigin(j: Journey, i: nat)
    requires ReportArrives(j) && i < |j.stops|
    ensures j.stops[i].cfg.self != j.co.self
  {
    hide Answers, Joined;
    assert RelayedAt(j.co, j.cm, j.stops, j.frames, i);
  }
}
