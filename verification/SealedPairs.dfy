/** Under which pairs a node seals: over runs of receptions, actions and restarts, and what becomes
    of that when it hears its own sealed frames. */
module SealedPairs {
  import opened Types
  import opened Keys
  import opened Message
  import opened FrameCrypto
  import opened EspNow
  import opened Peers
  import opened KeyStore
  import opened Downlink
  import opened OutboundSequence
  import opened NodeSpec
  import opened NodeInvariant
  import opened Actions
  import opened Relaying
  import opened ReturnPath
  import opened UplinkData
  import BeaconRelay
  import Distance
  import Neighbors
  import Replay
  import Routes

  type Moment = BeaconRelay.Moment

  function MarkOf(m: Msg): Mark { Mark(m.epoch, m.seqNum) }

  // ---- What a reception does to the counters ----

  /** The seal guard: the pair is remembered, or the device halts. */
  function Guarded(d: Device, m: Mark): Device {
    if SealAllowed(d.sealed, m) then d.(sealed := m) else d.(on := false)
  }

  /** The receptions that reach the seal path: a node hears, through its replay gate and below the
      hop limit, data of its own on the way to its master, or a report of its own while it has its
      master's keys. */
  predicate Reseals(cfg: Config, n: Node, msg: Msg, now: U64)
    requires CacheInv(n.keys)
  {
    && GatePasses(n, msg, now) && !n.isMaster && msg.origin == cfg.self && msg.hopCount < MAX_HOPS
    && ((msg.kind == TYPE_ADAPTER_DATA && !ToSelf(cfg, msg) && !ToAll(msg) && ToMaster(n, msg))
        || (msg.kind == TYPE_ROUTE_REPORT && msg.routeLen < MAX_HOPS && MasterKeys(cfg, n).Some?))
  }

  lemma TransmittedTx(cfg: Config, n: Node, m: Msg, now: U64)
    requires CacheInv(n.keys)
    ensures Transmitted(cfg, n, m, now).node.tx
         == if MustSeal(cfg, n, m) then Guarded(n.tx, MarkOf(m)) else n.tx
  {
  }

  lemma DataTx(cfg: Config, n: Node, msg: Msg, now: U64)
    requires NodeInv(n) && msg.kind == TYPE_ADAPTER_DATA
    ensures DataProcessed(cfg, n, msg, now).node.tx
         == if Classified(msg, cfg.self, n.isMaster, ToSelf(cfg, msg), ToAll(msg), ToMaster(n, msg)).RelayTowardMaster?
               && msg.origin == cfg.self
            then Guarded(n.tx, MarkOf(msg)) else n.tx
  {
    hide Transmitted;
    match Classified(msg, cfg.self, n.isMaster, ToSelf(cfg, msg), ToAll(msg), ToMaster(n, msg))
    case RelayTowardMaster => TransmittedTx(cfg, n, Relayed(msg, cfg.self), now);
    case _ =>
  }

  lemma ReportTx(cfg: Config, n: Node, msg: Msg, now: U64)
    requires NodeInv(n) && msg.kind == TYPE_ROUTE_REPORT
    ensures ReportProcessed(cfg, n, msg, now).node.tx
         == if !n.isMaster && msg.hopCount < MAX_HOPS && msg.routeLen < MAX_HOPS && MasterKeys(cfg, n).Some?
               && msg.origin == cfg.self
            then Guarded(n.tx, MarkOf(msg)) else n.tx
  {
    hide Transmitted;
    ReportAcceptedKeys(cfg, n, msg, now);
    var keys := MasterKeys(cfg, n);
    MasterKeysInv(cfg, n);
    if keys.Some? && msg.hopCount < MAX_HOPS && msg.routeLen < MAX_HOPS {
      TransmittedTx(cfg, AfterMasterKeys(cfg, n), Extended(msg, cfg.self, keys.value.up), now);
    }
  }

  lemma GateKeepsMaster(cfg: Config, n: Node, src: Mac, msg: Msg, now: U64)
    requires NodeInv(n)
    ensures var g := Gated(cfg, n, src, msg, now);
            NodeInv(g) && MasterKeys(cfg, g) == MasterKeys(cfg, n) && g.tx == n.tx
  {
    GateKeepsInv(cfg, n, src, msg, now);
    TouchedKeys(n.peers, src, cfg.self, now);
  }

  /** A reception seals, or halts the device, exactly when it reaches the seal path; any other
      reception leaves the counters alone. */
  lemma HearingTx(cfg: Config, n: Node, src: Mac, msg: Msg, now: U64, jitter: Byte)
    requires NodeInv(n)
    ensures var r := Received(cfg, n, src, msg, now, jitter).node;
            && r.tx == (if Reseals(cfg, n, msg, now) then Guarded(n.tx, MarkOf(msg)) else n.tx)
            && (msg.epoch < EPOCH_MAX ==> (r.tx != n.tx <==> Reseals(cfg, n, msg, now)))
  {
    hide Neighbors.Inv, Replay.Inv, Routes.Inv, CacheInv, Distinct, MasterKeys, Transmitted, DataProcessed,
      ReportProcessed, Neighbors.Observed;
    if GatePasses(n, msg, now) {
      GateKeepsMaster(cfg, n, src, msg, now);
      var g := Gated(cfg, n, src, msg, now);
      if msg.kind == TYPE_ADAPTER_DATA {
        DataTx(cfg, g, msg, now);
      } else if msg.kind == TYPE_ROUTE_REPORT {
        ReportTx(cfg, g, msg, now);
      } else if msg.kind == TYPE_JOIN_ACK {
        AckPeers(cfg, g, msg, now);
      } else if msg.kind == TYPE_ENROLLMENT && !g.isMaster && msg.hopCount < MAX_HOPS {
        TransmittedTx(cfg, AfterNextHop(cfg, g, now), Relayed(msg, cfg.self), now);
      }
    }
  }

  // ---- What an action does to the counters ----

  datatype Effect = NoEffect | Counted(event: Event) | Faulted

  /** The counter event an action amounts to. */
  function EffectOf(cfg: Config, n: Node, a: Action): Effect {
    if !n.tx.on && !a.Reboot? then NoEffect
    else
      match a
      case MasterBeacon(w) => if n.isMaster then Counted(Draw(w)) else NoEffect
      case RouteReport(now, w) =>
        if n.isMaster || NextHopToMaster(cfg, n, now).None? then NoEffect else Counted(DrawSeal(w))
      case Originate(_, _, _, _, w) => Counted(if n.isMaster then Draw(w) else DrawSeal(w))
      case Broadcast(_, _, _, w) => Counted(Draw(w))
      case SendDownlink(_, _, _, w) => if n.isMaster then Counted(DrawSeal(w)) else NoEffect
      case Request(w) => Counted(Draw(w))
      case Approve(mac, _, _, _, w) => if Known(n.peers, mac) then Counted(Draw(w)) else NoEffect
      case AddPeer(mac, _) => if CanAdd(n.peers, mac, cfg.self) then NoEffect else Faulted
      case Reboot(_, _, w) => Counted(Boot(w))
      case _ => NoEffect
  }

  /** A restart forgets all but the stored epoch. */
  function Applied(d: Device, e: Effect): Device {
    match e
    case NoEffect => d
    case Faulted => d.(on := false)
    case Counted(event) => Step(if event.Boot? then Blank(d.stored).tx else d, event)
  }

  lemma OwnTransmittedTx(cfg: Config, n: Node, kind: Byte, dataType: I32, data: Data, now: U64, w: Write)
    requires CacheInv(n.keys) && !n.isMaster && IsSealedType(kind) && n.tx.on
    ensures OwnTransmitted(cfg, n, kind, dataType, data, now, w).node.tx == Step(n.tx, DrawSeal(w))
  {
    hide Transmitted, Drawn;
    var n1 := n.(tx := Drawn(n.tx, w));
    TransmittedTx(cfg, n1, Built(cfg, n1, kind, dataType, data), now);
  }

  lemma DownlinkTx(cfg: Config, n: Node, dest: Mac, dataType: I32, data: Data, w: Write)
    requires CacheInv(n.keys) && n.isMaster && n.tx.on
    ensures DownlinkSent(cfg, n, dest, dataType, data, w).node.tx == Step(n.tx, DrawSeal(w))
  {
    hide Drawn, WithRoute;
  }

  /** Every action draws, seals and restarts as the counter events say. */
  lemma ActedTx(cfg: Config, n: Node, a: Action)
    requires NodeInv(n)
    ensures Acted(cfg, n, a).node.tx == Applied(n.tx, EffectOf(cfg, n, a))
  {
    hide OwnTransmitted, DownlinkSealed, DownlinkRouted, NextHopToMaster, Drawn, Booted, CanAdd, Added,
      Neighbors.Inv, Replay.Inv, Routes.Inv, CacheInv, Distinct;
    if n.tx.on {
      match a
      case RouteReport(now, w) =>
        if !n.isMaster && NextHopToMaster(cfg, n, now).Some? {
          OwnTransmittedTx(cfg, AfterNextHop(cfg, n, now), TYPE_ROUTE_REPORT, UNKNOWN_ADAPTER,
                           Padded(OP_ROUTE_REPORT), now, w);
        }
      case Originate(dataType, data, _, now, w) =>
        if !n.isMaster {
          OwnTransmittedTx(cfg, n, TYPE_ADAPTER_DATA, dataType, data, now, w);
        }
      case SendDownlink(dest, dataType, data, w) =>
        if n.isMaster {
          DownlinkTx(cfg, n, dest, dataType, data, w);
        }
      case _ =>
    }
  }

  // ---- One moment ----

  predicate Echoed(cfg: Config, n: Node, e: Moment)
    requires NodeInv(n)
  {
    e.Hear? && Reseals(cfg, n, e.msg, e.now)
  }

  function MomentEffect(cfg: Config, n: Node, e: Moment): Effect {
    if e.Do? then EffectOf(cfg, n, e.action) else NoEffect
  }

  /** The stored epoch is below its maximum and the store is up. */
  predicate StoreUp(cfg: Config, n: Node, e: Moment) {
    n.tx.stored < EPOCH_MAX
    && var f := MomentEffect(cfg, n, e); f.Counted? ==> f.event.w != Skipped
  }

  /** The moment ends in a fault that restarts the device: a failed epoch write or a full registry. */
  predicate Fails(cfg: Config, n: Node, e: Moment) {
    var f := MomentEffect(cfg, n, e);
    f.Faulted? || (f.Counted? && !Passes(f.event.w))
  }

  /** The pair, if any, that the seal guard lets through. */
  function SealedUnder(n: Node, e: Moment, r: Node): seq<Mark> {
    if r.tx.sealed == n.tx.sealed || (e.Do? && e.action.Reboot?) then [] else [r.tx.sealed]
  }

  lemma MomentTx(cfg: Config, n: Node, e: Moment)
    requires NodeInv(n)
    ensures BeaconRelay.Lived(cfg, n, e).node.tx
         == if Echoed(cfg, n, e) then Guarded(n.tx, MarkOf(e.msg)) else Applied(n.tx, MomentEffect(cfg, n, e))
  {
    hide Received, Acted, NodeInv;
    match e
    case Hear(src, msg, now, jitter) => HearingTx(cfg, n, src, msg, now, jitter);
    case Do(action) => ActedTx(cfg, n, action);
  }

  lemma BootSound(d: Device, w: Write, m: Mark)
    requires Consistent(d) && d.stored < EPOCH_MAX && w != Skipped && Above(d, m)
    ensures Consistent(Booted(Blank(d.stored).tx, w)) && Above(Booted(Blank(d.stored).tx, w), m)
    ensures !Booted(Blank(d.stored).tx, w).on ==> !Passes(w)
  {
  }

  /** A running device draws above all earlier pairs and, when it seals, seals under what it drew. */
  lemma DrawSound(d: Device, e: Event, m: Mark)
    requires Consistent(d) && d.on && d.stored < EPOCH_MAX && e.w != Skipped && !e.Boot? && Above(d, m)
    ensures Consistent(Step(d, e)) && Above(Step(d, e), m)
    ensures !Step(d, e).on ==> !Passes(e.w)
    ensures Step(d, e).sealed != d.sealed ==>
              var x := Step(d, e).sealed;
              e.DrawSeal? && Newer(x, m) && Above(Step(d, e), x) && x.seqNum != 0
  {
    StepConsistent(d, e);
    StepAbove(d, e, m);
  }

  lemma AppliedSound(d: Device, f: Effect, m: Mark)
    requires Consistent(d) && d.stored < EPOCH_MAX && Above(d, m)
    requires f.Counted? ==> f.event.w != Skipped && (d.on || f.event.Boot?)
    ensures Consistent(Applied(d, f)) && Above(Applied(d, f), m)
    ensures d.on && !Applied(d, f).on ==> f.Faulted? || (f.Counted? && !Passes(f.event.w))
    ensures Applied(d, f).sealed != d.sealed && !(f.Counted? && f.event.Boot?) ==>
              var x := Applied(d, f).sealed;
              f.Counted? && f.event.DrawSeal? && Newer(x, m) && Above(Applied(d, f), x) && x.seqNum != 0
  {
    if f.Counted? {
      hide Booted, Drawn, Consistent, Above;
      if f.event.Boot? {
        BootSound(d, f.event.w, m);
      } else {
        hide Step;
        DrawSound(d, f.event, m);
      }
    }
  }

  /** Unless a node hears a sealed frame of its own, every moment keeps its counters consistent, seals
      only under a pair above all earlier ones, and stops it only for a failed write or a full
      registry. */
  lemma MomentSound(cfg: Config, n: Node, e: Moment, m: Mark)
    requires NodeInv(n) && Consistent(n.tx) && StoreUp(cfg, n, e) && !Echoed(cfg, n, e) && Above(n.tx, m)
    ensures var r := BeaconRelay.Lived(cfg, n, e).node;
            && Consistent(r.tx) && Above(r.tx, m)
            && (forall x :: x in SealedUnder(n, e, r) ==> Newer(x, m) && Above(r.tx, x) && x.seqNum != 0)
            && (n.tx.on && !r.tx.on ==> Fails(cfg, n, e))
  {
    hide NodeInv, Applied, Above, BeaconRelay.Lived;
    MomentTx(cfg, n, e);
    AppliedSound(n.tx, MomentEffect(cfg, n, e), m);
  }

  /** Hearing a sealed frame of its own, a node stays consistent if and only if the guard halts it or
      the pair lies within what it has drawn. */
  lemma EchoConsistentIff(cfg: Config, n: Node, src: Mac, msg: Msg, now: U64, jitter: Byte)
    requires NodeInv(n) && Consistent(n.tx) && Reseals(cfg, n, msg, now) && msg.epoch < EPOCH_MAX
    ensures Consistent(Received(cfg, n, src, msg, now, jitter).node.tx)
       <==> !SealAllowed(n.tx.sealed, MarkOf(msg)) || !Newer(MarkOf(msg), Mark(n.tx.boot, n.tx.tx))
  {
    hide Received, NodeInv;
    HearingTx(cfg, n, src, msg, now, jitter);
  }

  lemma MomentInv(cfg: Config, n: Node, e: Moment)
    requires NodeInv(n)
    ensures NodeInv(BeaconRelay.Lived(cfg, n, e).node)
  {
    hide Received, Acted, Neighbors.Inv, Replay.Inv, Routes.Inv, CacheInv, Distinct;
    match e
    case Hear(src, msg, now, jitter) => ReceivedInv(cfg, n, src, msg, now, jitter);
    case Do(action) => ActedInv(cfg, n, action);
  }

  // ---- Runs ----

  function Next(cfg: Config, n: Node, e: Moment): (r: Node)
    requires NodeInv(n)
    ensures NodeInv(r) && r == BeaconRelay.Lived(cfg, n, e).node
  {
    MomentInv(cfg, n, e);
    BeaconRelay.Lived(cfg, n, e).node
  }

  function End(cfg: Config, n: Node, es: seq<Moment>): Node
    requires NodeInv(n)
    decreases es
  {
    if es == [] then n else End(cfg, Next(cfg, n, es[0]), es[1..])
  }

  /** All pairs the seal guard lets through. */
  function Pairs(cfg: Config, n: Node, es: seq<Moment>): seq<Mark>
    requires NodeInv(n)
    decreases es
  {
    if es == [] then []
    else SealedUnder(n, es[0], Next(cfg, n, es[0])) + Pairs(cfg, Next(cfg, n, es[0]), es[1..])
  }

  predicate Steady(cfg: Config, n: Node, es: seq<Moment>)
    requires NodeInv(n)
    decreases es
  {
    es == [] || (StoreUp(cfg, n, es[0]) && Steady(cfg, Next(cfg, n, es[0]), es[1..]))
  }

  /** No reception reaches the seal path. */
  predicate NoEcho(cfg: Config, n: Node, es: seq<Moment>)
    requires NodeInv(n)
    decreases es
  {
    es == [] || (!Echoed(cfg, n, es[0]) && NoEcho(cfg, Next(cfg, n, es[0]), es[1..]))
  }

  /** The device stops only for a failed write or a full registry. */
  predicate StopsForFaults(cfg: Config, n: Node, es: seq<Moment>)
    requires NodeInv(n)
    decreases es
  {
    es == [] || ((n.tx.on && !Next(cfg, n, es[0]).tx.on ==> Fails(cfg, n, es[0]))
                 && StopsForFaults(cfg, Next(cfg, n, es[0]), es[1..]))
  }

  lemma {:induction false} PairsAbove(cfg: Config, n: Node, es: seq<Moment>, m: Mark)
    requires NodeInv(n) && Consistent(n.tx) && Steady(cfg, n, es) && NoEcho(cfg, n, es) && Above(n.tx, m)
    ensures forall x :: x in Pairs(cfg, n, es) ==> Newer(x, m) && x.seqNum != 0
    decreases es
  {
    hide NodeInv, Consistent, Above, StoreUp, Echoed, SealedUnder, BeaconRelay.Lived;
    if es != [] {
      MomentSound(cfg, n, es[0], m);
      PairsAbove(cfg, Next(cfg, n, es[0]), es[1..], m);
    }
  }

  lemma RisingOnto(log: seq<Mark>, more: seq<Mark>)
    requires OutboundSequence.Rising(log) && OutboundSequence.Rising(more)
    requires forall x, y :: x in log && y in more ==> Newer(y, x)
    ensures OutboundSequence.Rising(log + more)
  {
    assert forall i :: 0 <= i < |log| ==> log[i] in log;
    assert forall i :: 0 <= i < |more| ==> more[i] in more;
  }

  /** Over any run of receptions, actions and restarts in which no reception reaches the seal path, the
      pairs a node seals under strictly rise, none has sequence zero, its counters stay consistent
      and the seal guard never stops it. */
  lemma {:induction false} SealedPairsRise(cfg: Config, n: Node, es: seq<Moment>)
    requires NodeInv(n) && Consistent(n.tx) && Steady(cfg, n, es) && NoEcho(cfg, n, es)
    ensures OutboundSequence.Rising(Pairs(cfg, n, es))
    ensures forall x :: x in Pairs(cfg, n, es) ==> x.seqNum != 0
    ensures Consistent(End(cfg, n, es).tx) && StopsForFaults(cfg, n, es)
    decreases es
  {
    hide NodeInv, Consistent, Above, StoreUp, Echoed, Fails, BeaconRelay.Lived;
    if es != [] {
      var r := Next(cfg, n, es[0]);
      var first := SealedUnder(n, es[0], r);
      BottomIsBelow(n.tx);
      MomentSound(cfg, n, es[0], Mark(0, 0));
      SealedPairsRise(cfg, r, es[1..]);
      if first != [] {
        PairsAbove(cfg, r, es[1..], first[0]);
      }
      RisingOnto(first, Pairs(cfg, r, es[1..]));
    }
  }

  lemma BottomIsBelow(d: Device)
    ensures Above(d, Mark(0, 0))
  {
  }

  // ---- Exactly when: a node that hears nothing of its own but what it sealed ----

  /** Whatever reaches the seal path carries a pair the node has sealed under before. */
  predicate OwnEchoes(cfg: Config, n: Node, es: seq<Moment>, log: seq<Mark>)
    requires NodeInv(n)
    decreases es
  {
    es == []
    || ((Echoed(cfg, n, es[0]) ==> MarkOf(es[0].msg) in log)
        && OwnEchoes(cfg, Next(cfg, n, es[0]), es[1..], log + SealedUnder(n, es[0], Next(cfg, n, es[0]))))
  }

  /** The nonce discipline: pairs strictly rise, and the seal guard never stops the device. */
  predicate NonceSafe(cfg: Config, n: Node, es: seq<Moment>, log: seq<Mark>)
    requires NodeInv(n)
  {
    OutboundSequence.Rising(log + Pairs(cfg, n, es)) && StopsForFaults(cfg, n, es)
  }

  /** What a node has sealed under so far. */
  predicate SealedSoFar(d: Device, log: seq<Mark>) {
    OutboundSequence.Rising(log) && forall x :: x in log ==> Above(d, x)
  }

  /** An echo of a frame the node sealed before halts it or repeats the pair. */
  lemma EchoBreaks(cfg: Config, n: Node, e: Moment, log: seq<Mark>)
    requires NodeInv(n) && Consistent(n.tx) && StoreUp(cfg, n, e) && SealedSoFar(n.tx, log)
    requires Echoed(cfg, n, e) && MarkOf(e.msg) in log
    ensures var r := Next(cfg, n, e);
            || (n.tx.on && !r.tx.on && !Fails(cfg, n, e))
            || (SealedUnder(n, e, r) == [MarkOf(e.msg)] && MarkOf(e.msg) in log)
  {
    hide NodeInv, BeaconRelay.Lived;
    MomentTx(cfg, n, e);
  }

  lemma RepeatIsNotRising(log: seq<Mark>, m: Mark, more: seq<Mark>)
    requires m in log
    ensures !OutboundSequence.Rising(log + ([m] + more))
  {
    var i :| 0 <= i < |log| && log[i] == m;
    var all := log + ([m] + more);
    assert all[i] == m && all[|log|] == m;
  }

  lemma LogGrows(cfg: Config, n: Node, e: Moment, log: seq<Mark>)
    requires NodeInv(n) && Consistent(n.tx) && StoreUp(cfg, n, e) && !Echoed(cfg, n, e) && SealedSoFar(n.tx, log)
    ensures var r := Next(cfg, n, e);
            && Consistent(r.tx) && SealedSoFar(r.tx, log + SealedUnder(n, e, r))
            && (n.tx.on && !r.tx.on ==> Fails(cfg, n, e))
  {
    hide NodeInv, Consistent, Above, StoreUp, Echoed, Fails, BeaconRelay.Lived;
    var r := Next(cfg, n, e);
    BottomIsBelow(n.tx);
    MomentSound(cfg, n, e, Mark(0, 0));
    forall x | x in log
      ensures Above(r.tx, x) && forall y :: y in SealedUnder(n, e, r) ==> Newer(y, x)
    {
      MomentSound(cfg, n, e, x);
    }
    RisingOnto(log, SealedUnder(n, e, r));
  }

  /** For a node that hears nothing of its own but frames it sealed, the nonce discipline holds of a
      run if and only if no reception reaches the seal path: the first that does halts the device
      or seals a second time under the same pair. */
  lemma {:induction false} NonceSafeIff(cfg: Config, n: Node, es: seq<Moment>, log: seq<Mark>)
    requires NodeInv(n) && Consistent(n.tx) && Steady(cfg, n, es) && SealedSoFar(n.tx, log)
    requires OwnEchoes(cfg, n, es, log)
    ensures NonceSafe(cfg, n, es, log) <==> NoEcho(cfg, n, es)
    decreases es
  {
    hide NodeInv, Consistent, Above, StoreUp, Fails, SealedUnder, Reseals, BeaconRelay.Lived;
    if es == [] {
      assert log + Pairs(cfg, n, es) == log;
    } else {
      var r := Next(cfg, n, es[0]);
      var first, rest := SealedUnder(n, es[0], r), Pairs(cfg, r, es[1..]);
      if Echoed(cfg, n, es[0]) {
        EchoBreaks(cfg, n, es[0], log);
        if first == [MarkOf(es[0].msg)] {
          RepeatIsNotRising(log, MarkOf(es[0].msg), rest);
        }
      } else {
        LogGrows(cfg, n, es[0], log);
        NonceSafeIff(cfg, r, es[1..], log + first);
        assert log + (first + rest) == (log + first) + rest;
      }
    }
  }

  // ---- The frames ----

  /** Payloads given to the device are bytes, not ciphertexts of the model. */
  predicate ClearPayload(a: Action) {
    match a
    case Originate(_, data, _, _, _) => data.Clear?
    case Broadcast(_, data, _, _) => data.Clear?
    case SendDownlink(_, _, data, _) => data.Clear?
    case _ => true
  }

  /** Only another node's beacon waits for relay. */
  predicate RelaysOthers(cfg: Config, n: Node) {
    n.pending.Some? ==> n.pending.value.origin != cfg.self
  }

  /** A frame of this device's own that it has sealed in this moment: not the one it heard. */
  predicate SealedNow(cfg: Config, e: Moment, m: Msg) {
    m.origin == cfg.self && m.data.Sealed? && (e.Hear? ==> m.data != e.msg.data)
  }

  /** A running device whose last seal is its last draw. */
  predicate SealedLast(d: Device) {
    d.on && d.sealed == Mark(d.boot, d.tx)
  }

  lemma LastSealIsNew(d: Device, e: Event, m: Mark)
    requires Consistent(d) && d.on && d.stored < EPOCH_MAX && e.DrawSeal? && e.w != Skipped && Above(d, m)
    requires SealedLast(Step(d, e))
    ensures Newer(Step(d, e).sealed, m) && Above(Step(d, e), Step(d, e).sealed)
  {
    StepAbove(d, e, m);
  }

  predicate CarriesPair(m: Msg, x: Mark) {
    MarkOf(m) == x && m.data.Sealed? && m.data.nonce == BuildNonce(m)
  }

  lemma TransmittedSeals(cfg: Config, n: Node, m: Msg, now: U64)
    requires CacheInv(n.keys)
    ensures forall s :: s in Transmitted(cfg, n, m, now).sent ==>
              s.msg.origin == m.origin
              && (if MustSeal(cfg, n, m) then CarriesPair(s.msg, MarkOf(m)) && SealAllowed(n.tx.sealed, MarkOf(m))
                  else s.msg.data == m.data)
    ensures MustSeal(cfg, n, m) && SealAllowed(n.tx.sealed, MarkOf(m)) ==>
              Transmitted(cfg, n, m, now).node.tx == n.tx.(sealed := MarkOf(m))
  {
  }

  lemma CopiesSame(msg: Msg, ps: Registry, self: Mac)
    ensures forall s :: s in CopiesTo(msg, ps, self) ==> s.msg == msg
  {
    CopiesReachPeers(msg, ps, self);
  }

  lemma DownlinkSeals(cfg: Config, n: Node, dest: Mac, dataType: I32, data: Data, w: Write)
    requires NodeInv(n) && n.isMaster && n.tx.on
    ensures var o := DownlinkSent(cfg, n, dest, dataType, data, w);
            forall s :: s in o.sent ==> CarriesPair(s.msg, o.node.tx.sealed) && SealedLast(o.node.tx)
  {
    hide Drawn, SealAllowed, Distinct, Neighbors.Inv, Replay.Inv, Routes.Inv;
    var d := DownlinkSealed(cfg, n, dest, dataType, data, w);
    if d.msg.Some? {
      CopiesSame(d.msg.value, d.node.peers, cfg.self);
    }
  }

  lemma OwnTransmittedSeals(cfg: Config, n: Node, kind: Byte, dataType: I32, data: Data, now: U64, w: Write)
    requires NodeInv(n) && !n.isMaster && IsSealedType(kind) && n.tx.on
    ensures var o := OwnTransmitted(cfg, n, kind, dataType, data, now, w);
            forall s :: s in o.sent ==> CarriesPair(s.msg, o.node.tx.sealed) && SealedLast(o.node.tx)
  {
    hide Transmitted, Drawn, SealAllowed, CarriesPair;
    var n1 := n.(tx := Drawn(n.tx, w));
    TransmittedSeals(cfg, n1, Built(cfg, n1, kind, dataType, data), now);
  }

  /** A frame an action seals carries the pair it has just drawn, and its nonce is built from it. */
  lemma ActionSeals(cfg: Config, n: Node, a: Action)
    requires NodeInv(n) && RelaysOthers(cfg, n) && ClearPayload(a)
    ensures var o := Acted(cfg, n, a);
            forall s :: s in o.sent && SealedNow(cfg, BeaconRelay.Do(a), s.msg) ==>
              && CarriesPair(s.msg, o.node.tx.sealed) && SealedLast(o.node.tx)
              && n.tx.on && EffectOf(cfg, n, a).Counted? && EffectOf(cfg, n, a).event.DrawSeal?
  {
    hide OwnTransmitted, DownlinkSealed, DownlinkRouted, NextHopToMaster, Drawn, Booted, Neighbors.Inv, Replay.Inv,
      Routes.Inv, CacheInv, Distinct, CarriesPair;
    if n.tx.on {
      match a
      case RouteReport(now, w) =>
        if !n.isMaster && NextHopToMaster(cfg, n, now).Some? {
          OwnTransmittedSeals(cfg, AfterNextHop(cfg, n, now), TYPE_ROUTE_REPORT, UNKNOWN_ADAPTER,
                              Padded(OP_ROUTE_REPORT), now, w);
        }
      case Originate(dataType, data, _, now, w) =>
        if n.isMaster {
          BroadcastClear(cfg, n, dataType, data, w);
        } else {
          OwnTransmittedSeals(cfg, n, TYPE_ADAPTER_DATA, dataType, data, now, w);
        }
      case Broadcast(dataType, data, _, w) => BroadcastClear(cfg, n, dataType, data, w);
      case SendDownlink(dest, dataType, data, w) =>
        if n.isMaster {
          DownlinkSeals(cfg, n, dest, dataType, data, w);
        }
      case _ =>
    }
  }

  lemma BroadcastClear(cfg: Config, n: Node, dataType: I32, data: Data, w: Write)
    requires data.Clear?
    ensures forall deliverLocally :: forall s :: s in DataBroadcast(cfg, n, dataType, data, deliverLocally, w).sent ==>
              s.msg.data.Clear?
  {
    var n1 := n.(tx := Drawn(n.tx, w));
    CopiesSame(Built(cfg, n1, TYPE_ADAPTER_DATA, dataType, data).(target := BROADCAST_MAC), n.peers, cfg.self);
  }

  /** `out` is what was heard, or a copy sealed afresh under the pair heard. */
  predicate SameOrResealed(n: Node, msg: Msg, out: Msg, seals: bool) {
    out.data == msg.data || (seals && CarriesPair(out, MarkOf(msg)) && n.tx.sealed == MarkOf(msg))
  }

  lemma DataSeals(cfg: Config, n: Node, msg: Msg, now: U64)
    requires NodeInv(n) && msg.kind == TYPE_ADAPTER_DATA
    ensures var o := DataProcessed(cfg, n, msg, now);
            var d := Classified(msg, cfg.self, n.isMaster, ToSelf(cfg, msg), ToAll(msg), ToMaster(n, msg));
            forall s :: s in o.sent ==>
              SameOrResealed(o.node, msg, s.msg, d.RelayTowardMaster? && msg.origin == cfg.self)
  {
    hide Transmitted, Distinct;
    match Classified(msg, cfg.self, n.isMaster, ToSelf(cfg, msg), ToAll(msg), ToMaster(n, msg))
    case RelayTowardMaster => TransmittedSeals(cfg, n, Relayed(msg, cfg.self), now);
    case Flood => FloodSame(cfg, n, msg);
    case NotRouted => FloodSame(cfg, n, msg);
    case _ =>
  }

  lemma FloodSame(cfg: Config, n: Node, msg: Msg)
    ensures forall s :: s in FloodSends(msg, n.peers, cfg.self) ==> s.msg.data == msg.data
  {
    if msg.hopCount < MAX_HOPS {
      CopiesSame(Relayed(msg, cfg.self), n.peers, cfg.self);
    }
  }

  lemma ReportSeals(cfg: Config, n: Node, msg: Msg, now: U64)
    requires NodeInv(n) && msg.kind == TYPE_ROUTE_REPORT
    ensures var o := ReportProcessed(cfg, n, msg, now);
            forall s :: s in o.sent ==>
              !n.isMaster && msg.hopCount < MAX_HOPS && msg.routeLen < MAX_HOPS && MasterKeys(cfg, n).Some?
              && SameOrResealed(o.node, msg, s.msg, msg.origin == cfg.self)
  {
    hide Transmitted;
    var keys := MasterKeys(cfg, n);
    MasterKeysInv(cfg, n);
    if keys.Some? && msg.hopCount < MAX_HOPS && msg.routeLen < MAX_HOPS {
      TransmittedSeals(cfg, AfterMasterKeys(cfg, n), Extended(msg, cfg.self, keys.value.up), now);
    }
  }

  /** A reception sends on what it heard, or, exactly when it reaches the seal path, a copy sealed
      afresh under the pair heard. */
  lemma HearingSeals(cfg: Config, n: Node, src: Mac, msg: Msg, now: U64, jitter: Byte)
    requires NodeInv(n)
    ensures var o := Received(cfg, n, src, msg, now, jitter);
            forall s :: s in o.sent ==> SameOrResealed(o.node, msg, s.msg, Reseals(cfg, n, msg, now))
  {
    hide Neighbors.Inv, Replay.Inv, Routes.Inv, CacheInv, Distinct, MasterKeys, Transmitted, DataProcessed,
      ReportProcessed, CarriesPair;
    if GatePasses(n, msg, now) {
      GateKeepsMaster(cfg, n, src, msg, now);
      var g := Gated(cfg, n, src, msg, now);
      if msg.kind == TYPE_ADAPTER_DATA {
        DataSeals(cfg, g, msg, now);
      } else if msg.kind == TYPE_ROUTE_REPORT {
        ReportSeals(cfg, g, msg, now);
      } else {
        OtherSeals(cfg, g, msg, now, jitter);
      }
    }
  }

  lemma OtherSeals(cfg: Config, g: Node, msg: Msg, now: U64, jitter: Byte)
    requires NodeInv(g) && msg.kind != TYPE_ADAPTER_DATA && msg.kind != TYPE_ROUTE_REPORT
    ensures forall s :: s in Dispatched(cfg, g, msg, now, jitter).sent ==> s.msg.data == msg.data
  {
    hide Transmitted;
    if msg.kind == TYPE_ENROLLMENT && !g.isMaster && msg.hopCount < MAX_HOPS {
      TransmittedSeals(cfg, AfterNextHop(cfg, g, now), Relayed(msg, cfg.self), now);
    }
  }

  /** One moment's sealed frames: above all earlier pairs, and within what the device has drawn. */
  lemma MomentFrames(cfg: Config, n: Node, e: Moment, m: Mark)
    requires NodeInv(n) && Consistent(n.tx) && StoreUp(cfg, n, e) && !Echoed(cfg, n, e) && Above(n.tx, m)
    requires RelaysOthers(cfg, n) && (e.Do? ==> ClearPayload(e.action))
    ensures var o := BeaconRelay.Lived(cfg, n, e);
            forall s :: s in o.sent && SealedNow(cfg, e, s.msg) ==>
              Newer(MarkOf(s.msg), m) && Above(o.node.tx, MarkOf(s.msg)) && s.msg.data.nonce == BuildNonce(s.msg)
  {
    hide NodeInv, Received, Acted, EffectOf, Consistent, Above, Step, Reseals, BuildNonce;
    match e
    case Hear(src, msg, now, jitter) => HearingSeals(cfg, n, src, msg, now, jitter);
    case Do(a) =>
      ActionSeals(cfg, n, a);
      ActedTx(cfg, n, a);
      var f := EffectOf(cfg, n, a);
      if f.Counted? && f.event.DrawSeal? && n.tx.on && SealedLast(Step(n.tx, f.event)) {
        LastSealIsNew(n.tx, f.event, m);
      }
  }

  /** What the device does in moment `j` of a run. */
  function OutcomeAt(cfg: Config, n: Node, es: seq<Moment>, j: nat): Outcome
    requires NodeInv(n) && j < |es|
    decreases es
  {
    if j == 0 then BeaconRelay.Lived(cfg, n, es[0]) else OutcomeAt(cfg, Next(cfg, n, es[0]), es[1..], j - 1)
  }

  predicate ClearPayloads(es: seq<Moment>) {
    forall e :: e in es && e.Do? ==> ClearPayload(e.action)
  }

  lemma ActedRelaysOthers(cfg: Config, n: Node, a: Action)
    requires NodeInv(n) && RelaysOthers(cfg, n)
    ensures RelaysOthers(cfg, Acted(cfg, n, a).node)
  {
    hide Rebooted, Drawn, Neighbors.Inv, Replay.Inv, Routes.Inv, CacheInv, Distinct;
    if IsErrand(a) {
      hide Acted;
      ErrandsLeaveRouting(cfg, n, a);
    } else if a.Reboot? {
      Distance.RebootedIsFresh(n.tx.stored, a.peers, a.saved, a.w);
    }
  }

  lemma NextRelaysOthers(cfg: Config, n: Node, e: Moment)
    requires NodeInv(n) && RelaysOthers(cfg, n)
    ensures RelaysOthers(cfg, Next(cfg, n, e))
  {
    hide Received, Acted, NodeInv;
    match e
    case Hear(src, msg, now, jitter) => BeaconRelay.HearingArms(cfg, n, src, msg, now, jitter);
    case Do(a) => ActedRelaysOthers(cfg, n, a);
  }

  /** A run may start at any boot with the store up. */
  lemma BootStarts(cfg: Config, stored: U32, ps: StoredPeers, saved: Enrolled, w: Write)
    requires stored < EPOCH_MAX && w != Skipped
    ensures var n := Rebooted(stored, ps, saved, w);
            NodeInv(n) && Consistent(n.tx) && RelaysOthers(cfg, n) && SealedSoFar(n.tx, [])
  {
    hide NodeInv;
    RebootedInv(stored, ps, saved, w);
  }

  /** Every frame sealed from here on lies above whatever the device has passed. */
  lemma {:induction false} FramesAbove(cfg: Config, n: Node, es: seq<Moment>, m: Mark, j: nat, s: Send)
    requires NodeInv(n) && Consistent(n.tx) && Steady(cfg, n, es) && NoEcho(cfg, n, es) && Above(n.tx, m)
    requires RelaysOthers(cfg, n) && ClearPayloads(es)
    requires j < |es| && s in OutcomeAt(cfg, n, es, j).sent && SealedNow(cfg, es[j], s.msg)
    ensures Newer(MarkOf(s.msg), m) && s.msg.data.nonce == BuildNonce(s.msg)
    decreases es
  {
    hide NodeInv, Consistent, Above, StoreUp, Echoed, RelaysOthers, ClearPayload, SealedNow,
      BeaconRelay.Lived, BuildNonce;
    assert es[0] in es;
    if j == 0 {
      MomentFrames(cfg, n, es[0], m);
    } else {
      MomentSound(cfg, n, es[0], m);
      NextRelaysOthers(cfg, n, es[0]);
      FramesAbove(cfg, Next(cfg, n, es[0]), es[1..], m, j - 1, s);
    }
  }

  /** No nonce twice: over any run of receptions, actions and restarts in which no reception reaches the
      seal path, two frames a node seals in different moments carry different nonces, the later one
      the newer pair. */
  lemma {:induction false} NoNonceTwice(cfg: Config, n: Node, es: seq<Moment>, i: nat, a: Send, j: nat, b: Send)
    requires NodeInv(n) && Consistent(n.tx) && Steady(cfg, n, es) && NoEcho(cfg, n, es)
    requires RelaysOthers(cfg, n) && ClearPayloads(es)
    requires i < j < |es|
    requires a in OutcomeAt(cfg, n, es, i).sent && SealedNow(cfg, es[i], a.msg)
    requires b in OutcomeAt(cfg, n, es, j).sent && SealedNow(cfg, es[j], b.msg)
    ensures Newer(MarkOf(b.msg), MarkOf(a.msg)) && b.msg.data.nonce != a.msg.data.nonce
    decreases es
  {
    hide NodeInv, Consistent, Above, StoreUp, Echoed, RelaysOthers, ClearPayload, BeaconRelay.Lived, BuildNonce;
    BottomIsBelow(n.tx);
    assert es[0] in es;
    MomentSound(cfg, n, es[0], Mark(0, 0));
    NextRelaysOthers(cfg, n, es[0]);
    var r := Next(cfg, n, es[0]);
    if i > 0 {
      NoNonceTwice(cfg, r, es[1..], i - 1, a, j - 1, b);
    } else {
      MomentFrames(cfg, n, es[0], Mark(0, 0));
      FramesAbove(cfg, r, es[1..], MarkOf(a.msg), j - 1, b);
      if b.msg.data.nonce == a.msg.data.nonce {
        NonceInjective(a.msg, b.msg);
      }
    }
  }

  // ---- Hearing one's own sealed frame ----

  /** Data of a node's own that the guard lets through leaves for the next hop, sealed for its master. */
  lemma SealsAndSends(co: Config, g: Node, cm: Config, m: Msg, now: U64)
    requires CacheInv(g.keys) && Follows(co, g, cm) && m.kind == TYPE_ADAPTER_DATA && m.origin == co.self
    requires m.target == cm.self && SealAllowed(g.tx.sealed, MarkOf(m))
    requires var hop := NextHopToMaster(co, g, now); hop.Some? && hop.value != co.self
    ensures Transmitted(co, g, m, now).sent
         == [Send(NextHopToMaster(co, g, now).value, SealPayload(Up(co.priv, cm.priv), m))]
  {
    JoinedKeys(co, g.(tx := g.tx.(sealed := MarkOf(m))), cm);
  }

  /** A node that has sealed nothing since its restart hears data of its own, sealed for its master, on
      the way there: it seals the ciphertext again, under the same key and the same nonce, and sends
      it. */
  lemma EchoIsResealed(co: Config, n: Node, cm: Config, dataType: I32, payload: Data, src: Mac, msg: Msg, now: U64,
                       jitter: Byte)
    requires Joined(co, n, cm) && SealedData(co, cm, dataType, payload, msg) && GatePasses(n, msg, now)
    requires cm.self != co.self && cm.self != BROADCAST_MAC && msg.hopCount < MAX_HOPS
    requires n.tx.sealed.epoch == EPOCH_MAX
    requires var hop := NextHopToMaster(co, Gated(co, n, src, msg, now), now); hop.Some? && hop.value != co.self
    ensures var o := Received(co, n, src, msg, now, jitter);
            && |o.sent| == 1 && var m := o.sent[0].msg;
               && m.data.Sealed? && msg.data.Sealed?
               && m.data.key == msg.data.key && m.data.nonce == msg.data.nonce && m.data.aad == msg.data.aad
               && msg.data.plain == payload && m.data.plain == msg.data && m.data != msg.data
  {
    hide Neighbors.Inv, Replay.Inv, Routes.Inv, NextHopToMaster;
    var g := Gated(co, n, src, msg, now);
    GateKeepsJoined(co, n, cm, src, msg, now);
    SealsAndSends(co, g, cm, Relayed(msg, co.self), now);
  }

  /** With a pair not above its last seal it halts instead. */
  lemma EchoHalts(co: Config, n: Node, cm: Config, dataType: I32, payload: Data, src: Mac, msg: Msg, now: U64,
                  jitter: Byte)
    requires Joined(co, n, cm) && SealedData(co, cm, dataType, payload, msg) && GatePasses(n, msg, now)
    requires cm.self != co.self && cm.self != BROADCAST_MAC && msg.hopCount < MAX_HOPS
    requires !SealAllowed(n.tx.sealed, MarkOf(msg))
    ensures !Received(co, n, src, msg, now, jitter).node.tx.on
    ensures Received(co, n, src, msg, now, jitter).sent == []
  {
    hide Neighbors.Inv, Replay.Inv, Routes.Inv, NextHopToMaster;
    HearingTx(co, n, src, msg, now, jitter);
    GateKeepsJoined(co, n, cm, src, msg, now);
  }
}
