/** Enrollment from end to end: request, registration, approval, acknowledgement. */
module EnrollmentRun {
  import opened Types
  import opened Keys
  import opened Message
  import opened Peers
  import opened KeyStore
  import opened EspNow
  import opened Downlink
  import opened OutboundSequence
  import opened NodeSpec
  import opened Relaying
  import opened KeyCoherence
  import Replay

  /** Two copies of one frame, however many hops apart. */
  predicate SameButHops(a: Msg, b: Msg) {
    a == b.(hopCount := a.hopCount, lastHop := a.lastHop)
  }

  predicate IsEnrollmentKind(kind: Byte) {
    kind == TYPE_ENROLLMENT || kind == TYPE_JOIN_ACK
  }

  lemma ForeignUntouched(cfg: Config, n: Node, msg: Msg, now: U64)
    requires CacheInv(n.keys) && msg.origin != cfg.self
    ensures forall s :: s in Transmitted(cfg, n, msg, now).sent ==> s.msg == msg
  {
  }

  /** A relay changes nothing of a request or an acknowledgement but its hop fields. */
  lemma RelayKeepsEnrollment(s: Stop, heard: Msg, out: Msg)
    requires Answers(s, heard, out) && IsEnrollmentKind(heard.kind)
    ensures SameButHops(out, heard)
  {
    var n := s.node;
    if n.tx.on && !GateDrops(n, heard, s.now) {
      GateKeepsInv(s.cfg, n, s.src, heard, s.now);
      var g := Gated(s.cfg, n, s.src, heard, s.now);
      if heard.kind == TYPE_ENROLLMENT && !g.isMaster && heard.hopCount < MAX_HOPS {
        ForeignUntouched(s.cfg, AfterNextHop(s.cfg, g, s.now), Relayed(heard, s.cfg.self), s.now);
      }
    }
  }

  lemma {:induction false} RelaysKeepEnrollment(stops: seq<Stop>, frames: seq<Msg>, k: nat)
    requires RelayedAlong(stops, frames) && IsEnrollmentKind(frames[0].kind) && k <= |stops|
    ensures SameButHops(frames[k], frames[0])
  {
    hide Answers;
    if k > 0 {
      RelaysKeepEnrollment(stops, frames, k - 1);
      assert Answers(stops[k - 1], frames[k - 1], frames[k]);
      RelayKeepsEnrollment(stops[k - 1], frames[k - 1], frames[k]);
    }
  }

  /** There is room for a peer, and no other key is established for it. */
  predicate CanHold(ps: Registry, mac: Mac, key: PubKey) {
    if Known(ps, mac) then KeyOf(ps, mac) == NoKey || KeyOf(ps, mac) == key else |ps| < MAX_PEERS
  }

  /** Registering without rekeying leaves exactly that key on record if and only if there is room
      and no other key is established. */
  lemma RegistersIff(ps: Registry, mac: Mac, key: PubKey, now: U64)
    requires key.Pub?
    ensures KeyOf(WithKey(ps, mac, key, false, now).peers, mac) == key <==> CanHold(ps, mac, key)
    ensures CanHold(ps, mac, key) ==> WithKey(ps, mac, key, false, now).ok
  {
    var qs := WithKey(ps, mac, key, false, now).peers;
    if Known(ps, mac) {
      FindUnchanged(ps, qs, mac);
    } else if |ps| < MAX_PEERS {
      assert qs[|ps|].mac == mac;
      assert forall j :: 0 <= j < |ps| ==> qs[j] == ps[j];
    }
  }

  /** A registration that changes the registry is in flash afterwards, whatever erasures fail, if the
      registry was in flash before. */
  lemma RegistrationIsSaved(f: Flash, ps: Registry, mac: Mac, key: PubKey, allowRekey: bool, now: U64, stuck: set<nat>)
    requires SavedAs(f, ps) && |ps| <= MAX_PEERS && WithKey(ps, mac, key, allowRekey, now).changed
    ensures var qs := WithKey(ps, mac, key, allowRekey, now).peers; SavedAs(SavedUpTo(f, qs, stuck, MAX_PEERS), qs)
  {
    OneSlotSaveIsAtomic(f, ps, WithKey(ps, mac, key, allowRekey, now).peers, FindPeer(ps, mac), stuck, MAX_PEERS);
  }

  /** The master hears a copy of the node's request. */
  lemma RequestRegisters(cn: Config, n: Node, w: Write, cm: Config, m: Node, src: Mac, heard: Msg,
                         now: U64, jitter: Byte)
    requires Drawn(n.tx, w).on && SameButHops(heard, RequestSent(cn, n, w).sent[0].msg)
    requires NodeInv(m) && m.isMaster && m.tx.on && !GateDrops(m, heard, now)
    requires CanHold(m.peers, cn.self, Pub(cn.priv))
    ensures KeyOf(Received(cm, m, src, heard, now, jitter).node.peers, cn.self) == Pub(cn.priv)
  {
    var g := Gated(cm, m, src, heard, now);
    GateKeepsInv(cm, m, src, heard, now);
    TouchedKeys(m.peers, src, cm.self, now);
    RegistersIff(g.peers, cn.self, Pub(cn.priv), now);
  }

  /** The server approves, naming a secondary master or none: the master announces its own key
      with the node's fingerprint, and keeps the node's. */
  lemma ApprovalAnnounces(cn: Config, cm: Config, m: Node, m2: Mac, k2: PubKey, now: U64, w: Write)
    requires KeyOf(m.peers, cn.self) == Pub(cn.priv) && Drawn(m.tx, w).on
    ensures var o := Approved(cm, m, cn.self, m2, k2, now, w);
            && |o.sent| == 1 && KeyOf(o.node.peers, cn.self) == Pub(cn.priv)
            && o.sent[0].msg.kind == TYPE_JOIN_ACK && o.sent[0].msg.origin == cm.self
            && o.sent[0].msg.target == cn.self && o.sent[0].msg.enrollKey == Pub(cm.priv)
            && o.sent[0].msg.data == JoinAck(Fingerprint(Pub(cn.priv)), m2, k2)
  {
    RegisterKeepsKeys(m.peers, cn.self, Pub(cn.priv), true, now);
  }

  /** What a node holds of its masters once an acknowledgement is through: the primary and its key,
      and the secondary and its key if one is named, with its key, and there is room for it. */
  predicate HoldsMasters(r: Node, master: Mac, key: PubKey, room: bool, m2: Mac, k2: PubKey) {
    && r.enroll.enrolled && r.enroll.hasMaster && r.enroll.master == master && KeyOf(r.peers, master) == key
    && (m2 != ZERO_MAC && k2.Pub? && room ==> r.enroll.hasSecondary && KeyOf(r.peers, m2) == k2)
  }

  /** The registry of a node once it knows its master. */
  function PeersWith(n: Node, src: Mac, self: Mac, master: Mac, key: PubKey, now: U64): Registry {
    WithKey(Touched(n.peers, src, self, now), master, key, false, now).peers
  }

  lemma SecondaryRegisters(n: Node, mac: Mac, key: PubKey, now: U64)
    ensures var r := WithSecondary(n, mac, key, now);
            && r.enroll == n.enroll.(hasSecondary := r.enroll.hasSecondary, secondary := r.enroll.secondary)
            && KeepsKeys(n.peers, r.peers)
            && (key.Pub? && CanHold(n.peers, mac, key) ==> r.enroll.hasSecondary && KeyOf(r.peers, mac) == key)
  {
    RegisterKeepsKeys(n.peers, mac, key, false, now);
    if key.Pub? {
      RegistersIff(n.peers, mac, key, now);
    }
  }

  /** The node hears a copy of the acknowledgement; its build pins this master's key. */
  lemma AckCompletes(cn: Config, n: Node, cm: Config, src: Mac, ack: Msg, m2: Mac, k2: PubKey, now: U64, jitter: Byte)
    requires NodeInv(n) && !n.isMaster && n.tx.on && !GateDrops(n, ack, now)
    requires ack.kind == TYPE_JOIN_ACK && ack.origin == cm.self && ack.target == cn.self
    requires ack.enrollKey == Pub(cm.priv) && ack.data == JoinAck(Fingerprint(Pub(cn.priv)), m2, k2)
    requires cn.pinKey == Pub(cm.priv) && (n.enroll.hasMaster ==> n.enroll.master == cm.self)
    requires CanHold(n.peers, cm.self, Pub(cm.priv))
    ensures HoldsMasters(Received(cn, n, src, ack, now, jitter).node, cm.self, Pub(cm.priv),
                    CanHold(PeersWith(n, src, cn.self, cm.self, Pub(cm.priv), now), m2, k2), m2, k2)
  {
    hide WithKey, WithSecondary, CanHold, KeepsKeys, Replay.Admit;
    var g := Gated(cn, n, src, ack, now);
    GateKeepsInv(cn, n, src, ack, now);
    GateKeepsRoom(n.peers, src, cn.self, now, cm.self, Pub(cm.priv));
    RegistersIff(g.peers, cm.self, Pub(cm.priv), now);
    AckEnrolls(cn, g, cm, ack, m2, k2, now);
    assert Received(cn, n, src, ack, now, jitter).node == AckProcessed(cn, g, ack, now);
  }

  lemma GateKeepsRoom(ps: Registry, src: Mac, self: Mac, now: U64, mac: Mac, key: PubKey)
    requires CanHold(ps, mac, key)
    ensures CanHold(Touched(ps, src, self, now), mac, key)
  {
    TouchedKeys(ps, src, self, now);
  }

  lemma AckEnrolls(cn: Config, g: Node, cm: Config, ack: Msg, m2: Mac, k2: PubKey, now: U64)
    requires ack.origin == cm.self && ack.enrollKey == Pub(cm.priv)
    requires ack.data == JoinAck(Fingerprint(Pub(cn.priv)), m2, k2) && cn.pinKey == Pub(cm.priv)
    requires g.enroll.hasMaster ==> g.enroll.master == cm.self
    requires var r := WithKey(g.peers, cm.self, Pub(cm.priv), false, now);
             r.ok && KeyOf(r.peers, cm.self) == Pub(cm.priv)
    ensures HoldsMasters(AckProcessed(cn, g, ack, now), cm.self, Pub(cm.priv),
                    CanHold(WithKey(g.peers, cm.self, Pub(cm.priv), false, now).peers, m2, k2), m2, k2)
  {
    hide WithKey, WithSecondary, CanHold;
    var n1 := WithPeerKey(g, cm.self, Pub(cm.priv), false, now);
    var n2 := n1.(enroll := EnrolledUnder(n1.enroll, cm.self));
    SecondaryRegisters(n2, m2, k2, now);
  }

  /** Enrollment through any relays: a request that reaches the master and an acknowledgement that
      reaches the node leave the node enrolled under that master and both holding the other's
      key, so that both derive the same pair of end-to-end keys. A secondary master named on the
      way is learned too. */
  lemma EnrollmentEstablishesKeys(
      cn: Config, n: Node, wn: Write, up: seq<Stop>, requests: seq<Msg>,
      cm: Config, m: Node, srcm: Mac, t1: U64, jm: Byte, m2: Mac, k2: PubKey, t2: U64, wm: Write,
      down: seq<Stop>, acks: seq<Msg>, n': Node, srcn: Mac, t3: U64, jn: Byte)
    requires Drawn(n.tx, wn).on && RelayedAlong(up, requests) && requests[0] == RequestSent(cn, n, wn).sent[0].msg
    requires NodeInv(m) && m.isMaster && m.tx.on && !GateDrops(m, requests[|up|], t1)
    requires CanHold(m.peers, cn.self, Pub(cn.priv))
    requires var heard := Received(cm, m, srcm, requests[|up|], t1, jm).node;
             Drawn(heard.tx, wm).on && RelayedAlong(down, acks)
             && (KeyOf(heard.peers, cn.self) == Pub(cn.priv) ==>
                   acks[0] == Approved(cm, heard, cn.self, m2, k2, t2, wm).sent[0].msg)
    requires NodeInv(n') && !n'.isMaster && n'.tx.on && !GateDrops(n', acks[|down|], t3)
    requires cn.pinKey == Pub(cm.priv) && (n'.enroll.hasMaster ==> n'.enroll.master == cm.self)
    requires CanHold(n'.peers, cm.self, Pub(cm.priv))
    ensures var heard := Received(cm, m, srcm, requests[|up|], t1, jm).node;
            var approved := Approved(cm, heard, cn.self, m2, k2, t2, wm).node;
            var r := Received(cn, n', srcn, acks[|down|], t3, jn).node;
            && HoldsMasters(r, cm.self, Pub(cm.priv),
                       CanHold(PeersWith(n', srcn, cn.self, cm.self, Pub(cm.priv), t3), m2, k2), m2, k2)
            && FreshKeys(r.peers, cm.self, cn.priv).Some?
            && FreshKeys(r.peers, cm.self, cn.priv) == FreshKeys(approved.peers, cn.self, cm.priv)
  {
    hide Received, Approved, Answers, NodeInv, CanHold, PeersWith;
    RelaysKeepEnrollment(up, requests, |up|);
    RequestRegisters(cn, n, wn, cm, m, srcm, requests[|up|], t1, jm);
    var heard := Received(cm, m, srcm, requests[|up|], t1, jm).node;
    ApprovalAnnounces(cn, cm, heard, m2, k2, t2, wm);
    RelaysKeepEnrollment(down, acks, |down|);
    AckCompletes(cn, n', cm, srcn, acks[|down|], m2, k2, t3, jn);
    DeriveAgrees(cn.priv, cm.priv);
  }
}
