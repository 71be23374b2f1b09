/** The hypotheses of the end-to-end theorems can be met: one origin, one relay, one master. */
module Witnesses {
  import opened Types
  import opened Keys
  import opened Message
  import opened FrameCrypto
  import opened Peers
  import opened KeyStore
  import opened EspNow
  import opened Downlink
  import opened OutboundSequence
  import opened NodeSpec
  import opened NodeInvariant
  import opened Actions
  import opened Relaying
  import opened RouteChain
  import opened ReturnPath
  import opened SealedPairs
  import BeaconRelay
  import EnrollmentRun
  import Neighbors
  import Replay
  import Routes

  const ORIGIN := Mac(2, 0, 0, 0, 0, 1)
  const RELAY := Mac(2, 0, 0, 0, 0, 2)
  const MASTER := Mac(2, 0, 0, 0, 0, 3)

  function ConfigOf(mac: Mac): Config {
    Config(mac, mac.b5, MASTER, Pub(3), false)
  }

  const CO := ConfigOf(ORIGIN)
  const CR := ConfigOf(RELAY)
  const CM := ConfigOf(MASTER)

  /** A booted device that has drawn nothing yet. */
  function Booting(isMaster: bool, ps: Registry): Node {
    Blank(1).(isMaster := isMaster, peers := ps, tx := Device(1, true, 1, 0, NEVER_SEALED))
  }

  /** An enrolled node next to the master. */
  function Leaf(): Node {
    Booting(false, [Peer(MASTER, Pub(3), 0)]).(enroll := Enrolled(true, MASTER, false, BROADCAST_MAC, true),
      masterMac := MASTER, dist := 1)
  }

  function Master(): Node {
    Booting(true, [Peer(ORIGIN, Pub(1), 0), Peer(RELAY, Pub(2), 0)])
  }

  lemma BootingInv(isMaster: bool, ps: Registry)
    requires |ps| <= MAX_PEERS
    ensures NodeInv(Booting(isMaster, ps))
  {
  }

  lemma LeafJoined(cfg: Config)
    ensures Joined(cfg, Leaf(), CM) && NodeInv(Leaf())
  {
    BootingInv(false, [Peer(MASTER, Pub(3), 0)]);
    assert Leaf().peers[0].mac == MASTER;
  }

  lemma MasterReady()
    ensures NodeInv(Master()) && Ready(CM, Master())
    ensures KeyOf(Master().peers, ORIGIN) == Pub(1) && KeyOf(Master().peers, RELAY) == Pub(2)
  {
    BootingInv(true, Master().peers);
    assert Master().peers[0].mac == ORIGIN && Master().peers[1].mac == RELAY;
  }

  /** A device that has heard nothing drops nothing. */
  lemma NothingDropped(n: Node, m: Msg, now: U64)
    requires n.replay == Replay.EmptyCache() && m.proto == PROTO_VERSION
    ensures !GateDrops(n, m, now)
  {
  }

  // ---- The return path ----

  function Report(): Msg {
    var m := BLANK.(proto := PROTO_VERSION, kind := TYPE_ROUTE_REPORT, origin := ORIGIN, target := MASTER,
                    lastHop := ORIGIN, data := Padded(OP_ROUTE_REPORT), epoch := 1, seqNum := 1);
    Seeded(Up(1, 3), SealPayload(Up(1, 3), m))
  }

  function RelayStop(src: Mac): Stop {
    Stop(CR, Leaf(), src, 0, 0)
  }

  lemma ReportIsFresh()
    ensures FreshReport(CO, CM, Report())
  {
  }

  lemma HopKnown(src: Mac, msg: Msg)
    requires src != MASTER
    ensures NodeInv(Leaf()) && NextHopToMaster(CR, Gated(CR, Leaf(), src, msg, 0), 0) == Some(MASTER)
  {
    LeafJoined(CR);
    var ps := Gated(CR, Leaf(), src, msg, 0).peers;
    assert ps[0].mac == MASTER && FindPeer(ps, MASTER) == 0;
  }

  lemma ReportRelays()
    ensures ReportRun(CO, CM, [RelayStop(ORIGIN)], [Report(), Extended(Report(), RELAY, Up(2, 3))])
  {
    hide Leaf, Extended, Report, Received;
    ReportIsFresh();
    var frames := [Report(), Extended(Report(), RELAY, Up(2, 3))];
    LeafJoined(CR);
    RelayPasses();
    HopKnown(ORIGIN, Report());
    RelaySends(CR, Leaf(), CM, ORIGIN, Report(), 0, 0);
    assert Answers(RelayStop(ORIGIN), frames[0], frames[1]) by {
      var s := Send(MASTER, frames[1]);
      assert s in Received(CR, Leaf(), ORIGIN, frames[0], 0, 0).sent;
    }
  }

  lemma RelayPasses()
    ensures Leaf().tx.on && !GateDrops(Leaf(), Report(), 0)
  {
    NothingDropped(Leaf(), Report(), 0);
  }

  function TheJourney(): Journey {
    Journey(CO, CM, [RelayStop(ORIGIN)], [Report(), Extended(Report(), RELAY, Up(2, 3))],
            Stop(CM, Master(), RELAY, 0, 0), SERIAL_ADAPTER, Padded(1), Done,
            [RelayStop(MASTER)], Stop(CO, Leaf(), RELAY, 0, 0))
  }

  lemma JourneyArrives()
    ensures ReportArrives(TheJourney())
  {
    hide Leaf, Received, GateDrops;
    ReportIsFresh();
    ReportRelays();
    MasterReady();
    NothingDropped(Master(), Extended(Report(), RELAY, Up(2, 3)), 0);
  }

  /** A report, one relay, the master's answer and its way back: the hypotheses of
      `LearnedPathDelivers` hold together. */
  lemma AJourneyExists()
    ensures ReportArrives(TheJourney()) && AnswerPasses(TheJourney())
  {
    hide Received, DownlinkSent, ReportArrives, DownFrame, GateDrops;
    var j := TheJourney();
    JourneyArrives();
    assert j.stops == [RelayStop(ORIGIN)] && NodeInv(j.master.node) && |j.frames| == |j.stops| + 1 by {
      MasterReady();
    }
    AnswerIsBuilt(j);
    var m := AnswerMsg(j);
    AnswerShape(m);
    LeafJoined(CO);
    LeafJoined(CR);
    NothingDropped(Leaf(), HoppedBy(m, 0), 0);
    NothingDropped(Leaf(), HoppedBy(m, 1), 0);
    var route := Reversed(PathMacs(j.stops));
    assert |route| == 1 && route[0] == RELAY;
    assert WayBack(j.back, j.co, route, m);
  }

  lemma AnswerShape(m: Msg)
    requires DownFrame(CO, CM, Reversed(PathMacs([RelayStop(ORIGIN)])), Padded(1), 0, m)
    ensures m.proto == PROTO_VERSION && m.hopCount == 0
  {
  }

  // ---- Enrollment ----

  function Request(): Msg {
    RequestSent(CO, Booting(false, []), Done).sent[0].msg
  }

  function Heard(): Node
    requires NodeInv(Booting(true, []))
  {
    Received(CM, Booting(true, []), ORIGIN, Request(), 0, 0).node
  }

  lemma RequestHeard()
    ensures NodeInv(Booting(true, [])) && !GateDrops(Booting(true, []), Request(), 0)
    ensures EnrollmentRun.CanHold(Booting(true, []).peers, ORIGIN, Pub(1))
    ensures KeyOf(Heard().peers, ORIGIN) == Pub(1) && Drawn(Heard().tx, Done).on
  {
    BootingInv(true, []);
    NothingDropped(Booting(true, []), Request(), 0);
    EnrollmentRun.RequestRegisters(CO, Booting(false, []), Done, CM, Booting(true, []), ORIGIN, Request(), 0, 0);
  }

  function Ack(secondary: Mac, key: PubKey): seq<Send>
    requires NodeInv(Booting(true, []))
  {
    Approved(CM, Heard(), ORIGIN, secondary, key, 0, Done).sent
  }

  /** A request and an acknowledgement that name any secondary master: the hypotheses of
      `EnrollmentEstablishesKeys` hold together, so the node ends up enrolled. */
  lemma AnEnrollmentExists(secondary: Mac, key: PubKey)
    ensures NodeInv(Booting(true, [])) && NodeInv(Booting(false, [])) && |Ack(secondary, key)| == 1
    ensures Received(CO, Booting(false, []), MASTER, Ack(secondary, key)[0].msg, 0, 0).node.enroll.enrolled
  {
    RequestHeard();
    BootingInv(false, []);
    EnrollmentRun.ApprovalAnnounces(CO, CM, Heard(), secondary, key, 0, Done);
    hide Received, Approved, GateDrops, Drawn;
    var ack := Ack(secondary, key)[0].msg;
    AckPasses(secondary, key);
    assert RelayedAlong([], [Request()]) && RelayedAlong([], [ack]);
    EnrollmentRun.EnrollmentEstablishesKeys(CO, Booting(false, []), Done, [], [Request()],
      CM, Booting(true, []), ORIGIN, 0, 0, secondary, key, 0, Done, [], [ack], Booting(false, []), MASTER, 0, 0);
  }

  lemma AckPasses(secondary: Mac, key: PubKey)
    requires NodeInv(Booting(true, [])) && KeyOf(Heard().peers, ORIGIN) == Pub(1) && Drawn(Heard().tx, Done).on
    ensures |Ack(secondary, key)| == 1 && !GateDrops(Booting(false, []), Ack(secondary, key)[0].msg, 0)
  {
    NothingDropped(Booting(false, []), Ack(secondary, key)[0].msg, 0);
  }

  // ---- A nonce used twice ----

  /** The node sends data, restarts, hears a beacon of its master, and then a relayed copy of what it
      sent before. */
  function Replayed(): seq<BeaconRelay.Moment> {
    [Sends()] + ([Restarts()] + ([HearsMaster()] + [HearsItself()]))
  }

  function Sends(): BeaconRelay.Moment {
    BeaconRelay.Do(Originate(SERIAL_ADAPTER, Padded(1), false, 0, Done))
  }

  function Restarts(): BeaconRelay.Moment {
    BeaconRelay.Do(Reboot([Peer(MASTER, Pub(3), 0)], Enrolled(true, MASTER, false, BROADCAST_MAC, true), Done))
  }

  function HearsMaster(): BeaconRelay.Moment {
    BeaconRelay.Hear(MASTER, Beacon(), 0, 0)
  }

  function HearsItself(): BeaconRelay.Moment {
    BeaconRelay.Hear(RELAY, SentBefore().(hopCount := 1, lastHop := RELAY), 0, 0)
  }

  function Beacon(): Msg {
    BLANK.(proto := PROTO_VERSION, kind := TYPE_MASTER_BEACON, origin := MASTER, target := BROADCAST_MAC,
           lastHop := MASTER, epoch := 1, seqNum := 1, data := Padded(1))
  }

  function SentBefore(): Msg {
    SealPayload(Up(1, 3), Plain())
  }

  /** The four states after those moments. */
  function Restarted(): Node {
    Rebooted(1, [Peer(MASTER, Pub(3), 0)], Enrolled(true, MASTER, false, BROADCAST_MAC, true), Done)
  }

  function Plain(): Msg {
    BLANK.(proto := PROTO_VERSION, kind := TYPE_ADAPTER_DATA, dataType := SERIAL_ADAPTER, origin := ORIGIN,
           target := MASTER, lastHop := ORIGIN, data := Padded(1), epoch := 1, seqNum := 1)
  }

  function Drawing(): Node {
    Leaf().(tx := Device(1, true, 1, 1, NEVER_SEALED))
  }

  lemma DrawingSends()
    ensures CacheInv(Drawing().keys)
    ensures Transmitted(CO, Drawing(), Plain(), 0).sent == [Send(MASTER, SentBefore())]
    ensures Transmitted(CO, Drawing(), Plain(), 0).node.tx == Device(1, true, 1, 1, Mark(1, 1))
  {
    hide Transmitted, Neighbors.Inv, Replay.Inv, Routes.Inv, SealPayload;
    LeafJoined(CO);
    assert Leaf().peers[0].mac == MASTER && FindPeer(Leaf().peers, MASTER) == 0;
    assert NextHopToMaster(CO, Drawing(), 0) == Some(MASTER);
    SealsAndSends(CO, Drawing(), CM, Plain(), 0);
    TransmittedTx(CO, Drawing(), Plain(), 0);
  }

  lemma FirstSend()
    ensures NodeInv(Leaf())
    ensures var o := BeaconRelay.Lived(CO, Leaf(), Sends());
            && o.sent == [Send(MASTER, SentBefore())] && o.node.tx == Device(1, true, 1, 1, Mark(1, 1))
  {
    hide Transmitted, Neighbors.Inv, Replay.Inv, Routes.Inv, CacheInv;
    LeafJoined(CO);
    DrawingSends();
    assert Leaf().(tx := Drawn(Leaf().tx, Done)) == Drawing();
    assert Built(CO, Drawing(), TYPE_ADAPTER_DATA, SERIAL_ADAPTER, Padded(1)) == Plain();
  }

  lemma SecondBoot(n: Node)
    requires NodeInv(n) && n.tx == Device(1, true, 1, 1, Mark(1, 1))
    ensures BeaconRelay.Lived(CO, n, Restarts()).node == Restarted()
    ensures NodeInv(Restarted()) && Restarted().tx == Device(2, true, 2, 0, NEVER_SEALED)
    ensures Restarted().replay == Replay.EmptyCache() && !Restarted().isMaster
  {
    RebootedInv(1, [Peer(MASTER, Pub(3), 0)], Enrolled(true, MASTER, false, BROADCAST_MAC, true), Done);
  }

  /** An accepted beacon gives a node its master back. */
  lemma BeaconTeaches(cfg: Config, g: Node, msg: Msg)
    requires g.neighbors != [] && !BeaconRejected(cfg, g, msg, 0)
    ensures var r := BeaconProcessed(cfg, g, msg, 0, 0);
            && r.tx == g.tx && r.isMaster == g.isMaster && r.enroll.hasMaster && r.masterMac == msg.origin
            && r.replay == g.replay
  {
    hide Neighbors.Observed, Neighbors.MinFresh, Derived;
  }

  lemma MasterHeard(n: Node)
    requires NodeInv(n) && n == Restarted()
    requires n.tx == Device(2, true, 2, 0, NEVER_SEALED) && n.replay == Replay.EmptyCache() && !n.isMaster
    ensures var r := BeaconRelay.Lived(CO, n, HearsMaster()).node;
            && r.tx == n.tx && !r.isMaster && r.enroll.hasMaster && r.masterMac == MASTER
            && r.replay == Replay.Admit(Replay.EmptyCache(), FrameOf(Beacon(), 0))
  {
    hide BeaconProcessed, Replay.Admit, Booted, Touched, GateDrops, Neighbors.Inv, Replay.Inv, Routes.Inv, CacheInv,
      Distinct;
    NothingDropped(n, Beacon(), 0);
    GateKeepsInv(CO, n, MASTER, Beacon(), 0);
    var g := Gated(CO, n, MASTER, Beacon(), 0);
    assert g.enroll.master == MASTER;
    BeaconTeaches(CO, g, Beacon());
  }

  lemma CopyPasses(n: Node, m: Msg)
    requires n.replay == Replay.Admit(Replay.EmptyCache(), FrameOf(Beacon(), 0)) && n.tx.on
    requires m.origin == ORIGIN && m.proto == PROTO_VERSION
    ensures GatePasses(n, m, 0)
  {
    var t := Replay.Admit(Replay.EmptyCache(), FrameOf(Beacon(), 0));
    assert forall i :: 0 <= i < |t| ==> !t[i].used || t[i].mac == MASTER;
  }

  lemma CopyResealed(n: Node)
    requires NodeInv(n) && n.tx == Device(2, true, 2, 0, NEVER_SEALED) && !n.isMaster && n.enroll.hasMaster
    requires n.masterMac == MASTER && n.replay == Replay.Admit(Replay.EmptyCache(), FrameOf(Beacon(), 0))
    ensures Echoed(CO, n, HearsItself())
    ensures Next(CO, n, HearsItself()).tx == n.tx.(sealed := Mark(1, 1))
  {
    hide NodeInv, BeaconRelay.Lived;
    CopyPasses(n, HearsItself().msg);
    MomentTx(CO, n, HearsItself());
  }

  lemma OneMoment(n: Node, e: BeaconRelay.Moment, rest: seq<BeaconRelay.Moment>)
    requires NodeInv(n)
    ensures Pairs(CO, n, [e] + rest) == SealedUnder(n, e, Next(CO, n, e)) + Pairs(CO, Next(CO, n, e), rest)
    ensures Steady(CO, n, [e] + rest) <==> StoreUp(CO, n, e) && Steady(CO, Next(CO, n, e), rest)
  {
    assert ([e] + rest)[1..] == rest;
  }

  lemma StoresUp(n: Node)
    requires n.tx.on && n.tx.stored < EPOCH_MAX
    ensures forall e :: e in Replayed() ==> StoreUp(CO, n, e)
  {
    hide NextHopToMaster;
  }

  lemma FromItself(n: Node)
    requires NodeInv(n) && n.tx == Device(2, true, 2, 0, NEVER_SEALED) && !n.isMaster && n.enroll.hasMaster
    requires n.masterMac == MASTER && n.replay == Replay.Admit(Replay.EmptyCache(), FrameOf(Beacon(), 0))
    ensures Pairs(CO, n, [HearsItself()]) == [Mark(1, 1)] && Steady(CO, n, [HearsItself()])
  {
    hide NodeInv, BeaconRelay.Lived, Pairs, Steady, StoreUp, Beacon, SentBefore, Reseals;
    CopyResealed(n);
    StoresUp(n);
    NothingMore(Next(CO, n, HearsItself()));
    OneMoment(n, HearsItself(), []);
    assert [HearsItself()] + [] == [HearsItself()];
  }

  lemma FromMaster(n: Node)
    requires NodeInv(n) && n == Restarted()
    requires n.tx == Device(2, true, 2, 0, NEVER_SEALED) && n.replay == Replay.EmptyCache() && !n.isMaster
    ensures var es := [HearsMaster()] + [HearsItself()];
            Pairs(CO, n, es) == [Mark(1, 1)] && Steady(CO, n, es)
  {
    hide NodeInv, BeaconRelay.Lived, Restarted, Pairs, Steady, StoreUp, Beacon, SentBefore;
    MasterHeard(n);
    StoresUp(n);
    FromItself(Next(CO, n, HearsMaster()));
    OneMoment(n, HearsMaster(), [HearsItself()]);
  }

  lemma FromRestart(n: Node)
    requires NodeInv(n) && n.tx == Device(1, true, 1, 1, Mark(1, 1))
    ensures var es := [Restarts()] + ([HearsMaster()] + [HearsItself()]);
            Pairs(CO, n, es) == [Mark(1, 1)] && Steady(CO, n, es)
  {
    hide NodeInv, BeaconRelay.Lived, Restarted, Pairs, Steady, StoreUp, Beacon, SentBefore;
    SecondBoot(n);
    StoresUp(n);
    FromMaster(Next(CO, n, Restarts()));
    OneMoment(n, Restarts(), [HearsMaster()] + [HearsItself()]);
  }

  lemma ReplayedPairs()
    ensures NodeInv(Leaf()) && Steady(CO, Leaf(), Replayed())
    ensures Pairs(CO, Leaf(), Replayed()) == [Mark(1, 1), Mark(1, 1)]
  {
    hide NodeInv, BeaconRelay.Lived, Leaf, Pairs, Steady, StoreUp, Beacon, SentBefore;
    FirstSend();
    LeafCounters();
    StoresUp(Leaf());
    FromRestart(Next(CO, Leaf(), Sends()));
    OneMoment(Leaf(), Sends(), [Restarts()] + ([HearsMaster()] + [HearsItself()]));
  }

  /** The nonce discipline fails: a frame of its own that a device hears after a restart is sealed a
      second time under its first pair. */
  lemma ANonceIsReused()
    ensures NodeInv(Leaf()) && Consistent(Leaf().tx) && Steady(CO, Leaf(), Replayed())
    ensures Pairs(CO, Leaf(), Replayed()) == [Mark(1, 1), Mark(1, 1)]
    ensures !NonceSafe(CO, Leaf(), Replayed(), [])
  {
    hide NodeInv, Leaf, Pairs, Steady, StopsForFaults, Replayed;
    LeafCounters();
    ReplayedPairs();
    RepeatIsNotRising([Mark(1, 1)], Mark(1, 1), []);
    assert [] + Pairs(CO, Leaf(), Replayed()) == [Mark(1, 1)] + ([Mark(1, 1)] + []);
  }

  lemma NothingMore(n: Node)
    requires NodeInv(n)
    ensures Pairs(CO, n, []) == [] && Steady(CO, n, [])
  {
  }

  lemma LeafCounters()
    ensures Leaf().tx == Device(1, true, 1, 0, NEVER_SEALED)
  {
  }
}
