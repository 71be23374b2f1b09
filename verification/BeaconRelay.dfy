/** Within one boot: the beacons a node schedules for relay and puts on the air, and the next hop
    it then has. */
module BeaconRelay {
  import opened Types
  import opened Message
  import opened EspNow
  import opened OutboundSequence
  import opened Peers
  import opened NodeSpec
  import opened NodeInvariant
  import opened Actions
  import opened Distance
  import Neighbors
  import Replay
  import Routes

  /** Everything a node lives through between two boots. */
  datatype Moment =
    | Hear(src: Mac, msg: Msg, now: U64, jitter: Byte)
    | Do(action: Action)

  function Lived(cfg: Config, n: Node, e: Moment): Outcome
    requires NodeInv(n)
  {
    match e
    case Hear(src, msg, now, jitter) => Received(cfg, n, src, msg, now, jitter)
    case Do(action) => Acted(cfg, n, action)
  }

  predicate SameBoot(es: seq<Moment>) {
    forall e :: e in es ==> !(e.Do? && e.action.Reboot?)
  }

  function MsgMark(m: Msg): Mark { Mark(m.epoch, m.seqNum) }

  // ---- The relay slot ----

  predicate RelayKept(n: Node, r: Node) {
    r.pending == n.pending && r.pendingAt == n.pendingAt && r.lastRelayed == n.lastRelayed
  }

  /** The relay slot takes a copy of this very beacon, newer than all before, with the distance
      the node has just derived. */
  predicate RelayArmed(cfg: Config, n: Node, r: Node, msg: Msg) {
    && msg.kind == TYPE_MASTER_BEACON && msg.origin != cfg.self
    && Newer(MsgMark(msg), n.lastRelayed) && r.lastRelayed == MsgMark(msg)
    && r.pending == Some(msg.(hopCount := r.dist, lastHop := cfg.self))
  }

  /** A reception leaves the relay slot alone or arms it, and puts no beacon on the air. */
  lemma HearingArms(cfg: Config, n: Node, src: Mac, msg: Msg, now: U64, jitter: Byte)
    requires NodeInv(n)
    ensures var o := Received(cfg, n, src, msg, now, jitter);
            && (RelayKept(n, o.node) || RelayArmed(cfg, n, o.node, msg))
            && forall s :: s in o.sent ==> s.msg.kind != TYPE_MASTER_BEACON
  {
    NoBeaconAnswered(cfg, n, src, msg, now, jitter);
    if msg.kind != TYPE_MASTER_BEACON {
      OthersKeepRouting(cfg, n, src, msg, now, jitter);
    }
  }

  // ---- Bounds ----

  /** Neighbours are nearer than the hop limit and the own distance is 1 .. 8 or unknown. */
  predicate Bounded(n: Node) {
    Near(n.neighbors) && (n.dist == NO_DISTANCE || 1 <= n.dist <= MAX_HOPS)
  }

  predicate Near(t: Neighbors.Table) {
    forall i :: 0 <= i < |t| && t[i].valid ==> t[i].dist < MAX_HOPS
  }

  /** A waiting relay is another node's beacon, the last one taken, under this node's MAC. */
  predicate Armed(cfg: Config, n: Node) {
    n.pending.Some? ==>
      var b := n.pending.value;
      b.kind == TYPE_MASTER_BEACON && b.origin != cfg.self && MsgMark(b) == n.lastRelayed
      && b.lastHop == cfg.self && 1 <= b.hopCount <= MAX_HOPS
  }

  predicate InBounds(cfg: Config, n: Node) {
    NodeInv(n) && Bounded(n) && Armed(cfg, n)
  }

  /** The distance derived right after hearing a beacon is that of the closest fresh
      neighbour plus one, and never exceeds the hop limit. */
  lemma DerivedInBounds(t: Neighbors.Table, hop: Mac, dist: Byte, now: U64)
    requires t != [] && Near(t) && dist < MAX_HOPS
    ensures var r := Neighbors.Observed(t, hop, dist, now);
            && Near(r) && 1 <= Derived(r, now) <= MAX_HOPS
            && (exists i :: 0 <= i < |r| && Neighbors.Eligible(r[i], Derived(r, now), now))
  {
    var s := Neighbors.SlotFor(t, hop, now);
    var r := Neighbors.Observed(t, hop, dist, now);
    assert r[s] in r && Neighbors.Fresh(r[s], now);
    var least := Neighbors.MinFresh(r, now);
    var e :| e in r && Neighbors.Fresh(e, now) && e.dist == least;
    var i :| 0 <= i < |r| && r[i] == e;
    assert Neighbors.Eligible(r[i], least + 1, now);
  }

  /** Another node's beacons among the frames handed to the radio. */
  function Relays(sent: seq<Send>, self: Mac): (r: seq<Msg>)
    ensures forall b :: b in r ==> b.kind == TYPE_MASTER_BEACON && b.origin != self
  {
    if sent == [] then []
    else
      var b := sent[0].msg;
      (if b.kind == TYPE_MASTER_BEACON && b.origin != self then [b] else []) + Relays(sent[1..], self)
  }

  lemma {:induction false} NoRelays(sent: seq<Send>, self: Mac)
    requires forall s :: s in sent ==> s.msg.kind != TYPE_MASTER_BEACON || s.msg.origin == self
    ensures Relays(sent, self) == []
  {
    if sent != [] {
      NoRelays(sent[1..], self);
    }
  }

  lemma OneRelay(dest: Mac, b: Msg, self: Mac)
    requires b.kind == TYPE_MASTER_BEACON && b.origin != self
    ensures Relays([Send(dest, b)], self) == [b]
  {
    assert [Send(dest, b)][1..] == [];
  }

  /** What a moment does to the relay slot: nothing; or the waiting relay is sent, alone, once; or
      a beacon newer than all before it is taken, with this node's MAC and just-derived distance. */
  predicate GoodMoment(cfg: Config, n: Node, o: Outcome) {
    var r := o.node;
    || (RelayKept(n, r) && Relays(o.sent, cfg.self) == [])
    || (n.pending.Some? && r == n.(pending := None) && Relays(o.sent, cfg.self) == [n.pending.value])
    || (Newer(r.lastRelayed, n.lastRelayed) && r.pending.Some? && MsgMark(r.pending.value) == r.lastRelayed
        && r.pending.value.kind == TYPE_MASTER_BEACON && r.pending.value.origin != cfg.self
        && r.pending.value.lastHop == cfg.self && r.pending.value.hopCount == r.dist && 1 <= r.dist <= MAX_HOPS
        && Relays(o.sent, cfg.self) == [])
  }

  lemma BeaconKeepsBounds(cfg: Config, n: Node, msg: Msg, now: U64, jitter: Byte)
    requires n.neighbors != [] && Bounded(n)
    ensures var r := BeaconProcessed(cfg, n, msg, now, jitter);
            Bounded(r) && (RelayKept(n, r) || 1 <= r.dist <= MAX_HOPS)
  {
    if !BeaconRejected(cfg, n, msg, now) {
      DerivedInBounds(n.neighbors, msg.lastHop, msg.hopCount, now);
    }
  }

  lemma HearKeepsBounds(cfg: Config, n: Node, src: Mac, msg: Msg, now: U64, jitter: Byte)
    requires NodeInv(n) && Bounded(n)
    ensures var r := Received(cfg, n, src, msg, now, jitter).node;
            Bounded(r) && (RelayKept(n, r) || 1 <= r.dist <= MAX_HOPS)
  {
    if msg.kind != TYPE_MASTER_BEACON {
      OthersKeepRouting(cfg, n, src, msg, now, jitter);
    } else if n.tx.on && !GateDrops(n, msg, now) {
      BeaconKeepsBounds(cfg, Gated(cfg, n, src, msg, now), msg, now, jitter);
    }
  }

  lemma ActionIsGood(cfg: Config, n: Node, a: Action)
    requires InBounds(cfg, n) && !a.Reboot?
    ensures Bounded(Acted(cfg, n, a).node) && GoodMoment(cfg, n, Acted(cfg, n, a))
  {
    hide Drawn, Neighbors.Inv, Replay.Inv, Routes.Inv, Near;
    var o := Acted(cfg, n, a);
    if IsErrand(a) {
      hide Acted;
      ErrandsLeaveRouting(cfg, n, a);
      NoRelays(o.sent, cfg.self);
    } else if a.Flush? {
      if o.sent != [] {
        OneRelay(BROADCAST_MAC, n.pending.value, cfg.self);
      }
    } else {
      NoRelays(o.sent, cfg.self);
    }
  }

  lemma MomentKeepsBounds(cfg: Config, n: Node, e: Moment)
    requires InBounds(cfg, n) && SameBoot([e])
    ensures InBounds(cfg, Lived(cfg, n, e).node) && GoodMoment(cfg, n, Lived(cfg, n, e))
  {
    hide Received, Acted, Bounded, NodeInv;
    match e
    case Hear(src, msg, now, jitter) =>
      ReceivedInv(cfg, n, src, msg, now, jitter);
      HearKeepsBounds(cfg, n, src, msg, now, jitter);
      HearingArms(cfg, n, src, msg, now, jitter);
      NoRelays(Received(cfg, n, src, msg, now, jitter).sent, cfg.self);
    case Do(action) =>
      assert e in [e];
      ActedInv(cfg, n, action);
      ActionIsGood(cfg, n, action);
  }

  /** Right after an accepted beacon the node has a next hop toward the master: a fresh
      neighbour strictly closer than itself. */
  lemma NextHopAfterBeacon(cfg: Config, n: Node, msg: Msg, now: U64, jitter: Byte)
    requires NodeInv(n) && Bounded(n) && !BeaconRejected(cfg, n, msg, now)
    ensures var r := BeaconProcessed(cfg, n, msg, now, jitter);
            && r.dist != NO_DISTANCE
            && Neighbors.NextHopOf(r.neighbors, r.dist, now).Some?
            && exists i :: 0 <= i < |r.neighbors| && Neighbors.Eligible(r.neighbors[i], r.dist, now)
                 && r.neighbors[i].mac == Neighbors.NextHopOf(r.neighbors, r.dist, now).value
  {
    DerivedInBounds(n.neighbors, msg.lastHop, msg.hopCount, now);
    var r := BeaconProcessed(cfg, n, msg, now, jitter);
    var best := Neighbors.BestHop(r.neighbors, r.dist, now);
    assert Neighbors.Eligible(r.neighbors[best.value], r.dist, now);
  }

  // ---- A whole boot ----

  /** The beacon, if any, that a moment puts into the relay slot. */
  function Taken(n: Node, r: Node): seq<Msg> {
    if r.pending.Some? && (r.pending != n.pending || r.pendingAt != n.pendingAt) then [r.pending.value] else []
  }

  /** Every beacon scheduled for relay, and every relayed beacon put on the air. */
  datatype Log = Log(scheduled: seq<Msg>, aired: seq<Msg>)

  function Logged(cfg: Config, n: Node, es: seq<Moment>): Log
    requires InBounds(cfg, n) && SameBoot(es)
    decreases es
  {
    if es == [] then Log([], [])
    else
      var o := Lived(cfg, n, es[0]);
      MomentKeepsBounds(cfg, n, es[0]);
      var rest := Logged(cfg, o.node, es[1..]);
      Log(Taken(n, o.node) + rest.scheduled, Relays(o.sent, cfg.self) + rest.aired)
  }

  /** Above everything relayed so far: the mark passed `m`, or stands at it with nothing waiting. */
  predicate Past(n: Node, m: Mark) {
    Newer(n.lastRelayed, m) || (n.lastRelayed == m && n.pending.None?)
  }

  predicate RelayedWell(cfg: Config, b: Msg, m: Mark) {
    Newer(MsgMark(b), m) && b.lastHop == cfg.self && 1 <= b.hopCount <= MAX_HOPS
  }

  lemma {:induction false} ScheduledAbove(cfg: Config, n: Node, es: seq<Moment>, m: Mark)
    requires InBounds(cfg, n) && SameBoot(es) && (n.lastRelayed == m || Newer(n.lastRelayed, m))
    ensures forall b :: b in Logged(cfg, n, es).scheduled ==> RelayedWell(cfg, b, m)
    decreases es
  {
    hide Lived, Relays, NodeInv, Bounded;
    if es != [] {
      MomentKeepsBounds(cfg, n, es[0]);
      ScheduledAbove(cfg, Lived(cfg, n, es[0]).node, es[1..], m);
    }
  }

  lemma {:induction false} AiredAbove(cfg: Config, n: Node, es: seq<Moment>, m: Mark)
    requires InBounds(cfg, n) && SameBoot(es) && Past(n, m)
    ensures forall b :: b in Logged(cfg, n, es).aired ==> RelayedWell(cfg, b, m)
    decreases es
  {
    hide Lived, Relays, NodeInv, Bounded;
    if es != [] {
      MomentKeepsBounds(cfg, n, es[0]);
      AiredAbove(cfg, Lived(cfg, n, es[0]).node, es[1..], m);
    }
  }

  /** A restarted device is in bounds. */
  lemma BootIsInBounds(cfg: Config, stored: U32, ps: StoredPeers, saved: Enrolled, w: Write)
    ensures InBounds(cfg, Rebooted(stored, ps, saved, w))
  {
    hide Booted;
    RebootedIsFresh(stored, ps, saved, w);
  }

  predicate Rising(s: seq<Msg>) {
    forall i, j :: 0 <= i < j < |s| ==> Newer(MsgMark(s[j]), MsgMark(s[i]))
  }

  lemma RisingAfter(cfg: Config, first: seq<Msg>, rest: seq<Msg>, m: Mark)
    requires |first| <= 1 && forall b :: b in first ==> MsgMark(b) == m
    requires Rising(rest) && (first != [] ==> forall b :: b in rest ==> RelayedWell(cfg, b, m))
    ensures Rising(first + rest)
  {
    assert forall j :: 0 <= j < |rest| ==> rest[j] in rest;
    assert forall j :: 0 <= j < |first| ==> first[j] in first;
  }

  /** Within a boot both the beacons scheduled for relay and the relays put on the air strictly
      rise in (epoch, sequence): a node relays each beacon at most once and never goes back to an
      older one. */
  lemma {:induction false} RelaysRise(cfg: Config, n: Node, es: seq<Moment>)
    requires InBounds(cfg, n) && SameBoot(es)
    ensures Rising(Logged(cfg, n, es).scheduled) && Rising(Logged(cfg, n, es).aired)
    decreases es
  {
    hide Lived, Relays, NodeInv, Bounded;
    if es != [] {
      var o := Lived(cfg, n, es[0]);
      MomentKeepsBounds(cfg, n, es[0]);
      RelaysRise(cfg, o.node, es[1..]);
      ScheduledAbove(cfg, o.node, es[1..], o.node.lastRelayed);
      RisingAfter(cfg, Taken(n, o.node), Logged(cfg, o.node, es[1..]).scheduled, o.node.lastRelayed);
      if Relays(o.sent, cfg.self) != [] {
        AiredAbove(cfg, o.node, es[1..], o.node.lastRelayed);
      }
      RisingAfter(cfg, Relays(o.sent, cfg.self), Logged(cfg, o.node, es[1..]).aired, o.node.lastRelayed);
    }
  }
}
