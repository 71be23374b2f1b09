/** Adapter data on its way up: sealed at its origin, relayed, opened by the master. */
module UplinkData {
  import opened Types
  import opened Keys
  import opened Message
  import opened FrameCrypto
  import opened KeyStore
  import opened EspNow
  import opened Downlink
  import opened OutboundSequence
  import opened NodeSpec
  import opened Relaying
  import opened RouteChain
  import opened Authorization
  import opened ReturnPath
  import Peers

  /** Data of this device, sealed for its master. */
  predicate SealedData(co: Config, cm: Config, dataType: I32, payload: Data, m: Msg) {
    && m.kind == TYPE_ADAPTER_DATA && m.origin == co.self && m.target == cm.self && m.dataType == dataType
    && SameEnvelope(m, SealPayload(Up(co.priv, cm.priv), m.(data := payload)))
  }

  /** Whatever a joined node transmits of its own data is sealed under the key it shares with its
      master, and addressed to it. */
  lemma OriginSealsData(co: Config, n: Node, cm: Config, dataType: I32, payload: Data, now: U64, w: Write)
    requires Joined(co, n, cm)
    ensures forall s :: s in OwnTransmitted(co, n, TYPE_ADAPTER_DATA, dataType, payload, now, w).sent ==>
              SealedData(co, cm, dataType, payload, s.msg)
  {
    var n1 := n.(tx := Drawn(n.tx, w));
    JoinedKeys(co, n1.(tx := n1.tx.(sealed := Mark(n1.tx.boot, n1.tx.tx))), cm);
  }

  lemma MasterReceivesData(cm: Config, m: Node, src: Mac, msg: Msg, now: U64, jitter: Byte)
    requires NodeInv(m) && m.isMaster && m.tx.on && !GateDrops(m, msg, now) && msg.kind == TYPE_ADAPTER_DATA
    ensures NodeInv(Gated(cm, m, src, msg, now))
    ensures Received(cm, m, src, msg, now, jitter).local
         == DataDelivered(cm, Gated(cm, m, src, msg, now), msg).local
  {
    GateKeepsInv(cm, m, src, msg, now);
  }

  /** The master opens it under the same key. */
  lemma MasterOpens(co: Config, cm: Config, m: Node, dataType: I32, payload: Data, sent: Msg, msg: Msg)
    requires Ready(cm, m) && m.isMaster && Peers.KeyOf(m.peers, co.self) == Pub(co.priv)
    requires SealedData(co, cm, dataType, payload, sent) && SameEnvelope(msg, sent)
    ensures msg.origin == co.self && msg.target == cm.self && msg.data.Sealed? && msg.data.plain == payload
    ensures Authentic(SealOf(cm, m, msg), msg) && SealOf(cm, m, msg).SealedUnder? && msg.dataType == dataType
  {
    assert {cm.priv, co.priv} == {co.priv, cm.priv};
    AadInjective(msg, sent);
    NonceInjective(msg, sent);
  }

  /** From any relays, the master hands on exactly the payload; only configuration opcodes are
      refused, and only when the master itself knows a master other than the origin. */
  lemma UplinkDataDelivers(co: Config, n: Node, cm: Config, dataType: I32, payload: Data, at: U64, w: Write,
                           stops: seq<Stop>, frames: seq<Msg>, m: Node, src: Mac, now: U64, jitter: Byte)
    requires Joined(co, n, cm) && RelayedAlong(stops, frames)
    requires exists s :: s in OwnTransmitted(co, n, TYPE_ADAPTER_DATA, dataType, payload, at, w).sent
                        && s.msg == frames[0]
    requires NodeInv(m) && Ready(cm, m) && m.isMaster && m.tx.on && !GateDrops(m, frames[|stops|], now)
    requires Peers.KeyOf(m.peers, co.self) == Pub(co.priv)
    ensures var last := frames[|stops|].(data := payload);
            Received(cm, m, src, frames[|stops|], now, jitter).local
            == if IsConfigOpcode(last) && !FromKnownMaster(m, co.self) then [] else [last]
  {
    hide Received, OwnTransmitted, Answers, BuildNonce, BuildAad, GateDrops, CacheInv, Distinct;
    var msg := frames[|stops|];
    OriginSealsData(co, n, cm, dataType, payload, at, w);
    EnvelopeSurvives(stops, frames, |stops|);
    var g := Gated(cm, m, src, msg, now);
    MasterReceivesData(cm, m, src, msg, now, jitter);
    Peers.TouchedKeys(m.peers, src, cm.self, now);
    MasterOpens(co, cm, g, dataType, payload, frames[0], msg);
    AuthorizedIffAdmissible(cm, g, msg);
  }
}
