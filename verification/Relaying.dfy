/** What a node may put on the air in answer to one frame: bounded fan-out, one more hop, and
    an untouched envelope. */
module Relaying {
  import opened Types
  import opened Message
  import opened FrameCrypto
  import opened KeyStore
  import Keys
  import opened EspNow
  import opened Peers
  import opened Downlink
  import opened NodeSpec

  /** Everything but the hop count, the last hop, the route path and the chain is as received. */
  predicate SameEnvelope(a: Msg, b: Msg) {
    EnvelopeOf(a) == EnvelopeOf(b) && a.kind == b.kind && a.origin == b.origin && a.target == b.target
  }

  /** A relayed copy: received below the hop limit, one hop further, of the same type, and, when
      the frame is not this node's own, with its envelope intact. */
  predicate IsRelayOf(out: Msg, msg: Msg, self: Mac) {
    && msg.hopCount < MAX_HOPS
    && out.hopCount == msg.hopCount + 1
    && out.kind == msg.kind
    && (msg.origin != self ==> SameEnvelope(out, msg))
  }

  predicate AllRelays(sent: seq<Send>, msg: Msg, self: Mac) {
    |sent| <= MAX_PEERS && forall s :: s in sent ==> IsRelayOf(s.msg, msg, self)
  }

  lemma TransmittedOnce(cfg: Config, n: Node, m: Msg, now: U64)
    requires CacheInv(n.keys)
    ensures |Transmitted(cfg, n, m, now).sent| <= 1
    ensures forall s :: s in Transmitted(cfg, n, m, now).sent ==>
              s.msg.hopCount == m.hopCount && s.msg.kind == m.kind && (m.origin != cfg.self ==> s.msg == m)
  {
  }

  lemma FloodRelays(cfg: Config, n: Node, msg: Msg)
    requires |n.peers| <= MAX_PEERS
    ensures AllRelays(FloodSends(msg, n.peers, cfg.self), msg, cfg.self)
  {
    if msg.hopCount < MAX_HOPS {
      CopiesReachPeers(Relayed(msg, cfg.self), n.peers, cfg.self);
    }
  }

  lemma TransmittedRelays(cfg: Config, n: Node, out: Msg, msg: Msg, now: U64)
    requires CacheInv(n.keys) && IsRelayOf(out, msg, cfg.self) && out.origin == msg.origin
    ensures AllRelays(Transmitted(cfg, n, out, now).sent, msg, cfg.self)
  {
    TransmittedOnce(cfg, n, out, now);
  }

  lemma DataRelays(cfg: Config, n: Node, msg: Msg, now: U64)
    requires NodeInv(n)
    ensures AllRelays(DataProcessed(cfg, n, msg, now).sent, msg, cfg.self)
  {
    FloodRelays(cfg, n, msg);
    if msg.hopCount < MAX_HOPS {
      TransmittedRelays(cfg, n, Relayed(msg, cfg.self), msg, now);
    }
  }

  lemma ReportRelays(cfg: Config, n: Node, msg: Msg, now: U64)
    requires NodeInv(n)
    ensures AllRelays(ReportProcessed(cfg, n, msg, now).sent, msg, cfg.self)
  {
    if !n.isMaster && msg.hopCount < MAX_HOPS && msg.routeLen < MAX_HOPS {
      var keys := MasterKeys(cfg, n);
      PeerKeysInv(n.keys, n.peers, n.masterMac, cfg.priv);
      if keys.Some? {
        var out := Extended(msg, cfg.self, keys.value.up);
        TransmittedRelays(cfg, AfterMasterKeys(cfg, n), out, msg, now);
      }
    }
  }

  /** Whatever a node hears, it answers with at most ten frames, each the received one a hop
      further on. */
  lemma ReceivedRelays(cfg: Config, n: Node, src: Mac, msg: Msg, now: U64, jitter: Byte)
    requires NodeInv(n)
    ensures AllRelays(Received(cfg, n, src, msg, now, jitter).sent, msg, cfg.self)
  {
    if n.tx.on && !GateDrops(n, msg, now) {
      GateKeepsInv(cfg, n, src, msg, now);
      var g := Gated(cfg, n, src, msg, now);
      if msg.kind == TYPE_ADAPTER_DATA {
        DataRelays(cfg, g, msg, now);
      } else if msg.kind == TYPE_ROUTE_REPORT {
        ReportRelays(cfg, g, msg, now);
      } else if msg.kind == TYPE_ENROLLMENT && !g.isMaster && msg.hopCount < MAX_HOPS {
        TransmittedRelays(cfg, AfterNextHop(cfg, g, now), Relayed(msg, cfg.self), msg, now);
      }
    }
  }

  // ---- Relay transparency over a whole path ----

  /** One node's reception of a frame, at its own time. */
  datatype Stop = Stop(cfg: Config, node: Node, src: Mac, now: U64, jitter: Byte)

  /** On hearing a frame of another node, `out` is one of the frames the stop sends. */
  ghost predicate Answers(s: Stop, heard: Msg, out: Msg) {
    && NodeInv(s.node)
    && heard.origin != s.cfg.self
    && exists x :: x in Received(s.cfg, s.node, s.src, heard, s.now, s.jitter).sent && x.msg == out
  }

  /** Frame `i + 1` is one of those stop `i` sends on hearing frame `i`. */
  ghost predicate RelayedAlong(stops: seq<Stop>, frames: seq<Msg>) {
    && |frames| == |stops| + 1
    && forall i :: 0 <= i < |stops| ==> Answers(stops[i], frames[i], frames[i + 1])
  }

  lemma AnswerKeepsEnvelope(s: Stop, heard: Msg, out: Msg)
    requires Answers(s, heard, out)
    ensures SameEnvelope(out, heard)
  {
    ReceivedRelays(s.cfg, s.node, s.src, heard, s.now, s.jitter);
  }

  lemma {:induction false} EnvelopeSurvives(stops: seq<Stop>, frames: seq<Msg>, k: nat)
    requires RelayedAlong(stops, frames) && k <= |stops|
    ensures SameEnvelope(frames[k], frames[0])
  {
    hide Answers, BuildNonce, BuildAad;
    if k > 0 {
      EnvelopeSurvives(stops, frames, k - 1);
      AnswerKeepsEnvelope(stops[k - 1], frames[k - 1], frames[k]);
    }
  }

  /** However often and through whichever nodes a sealed frame is relayed, the addressee opens
      exactly the plaintext that was sealed. */
  lemma RelaysAreTransparent(key: Keys.Key, plain: Msg, stops: seq<Stop>, frames: seq<Msg>)
    requires RelayedAlong(stops, frames)
    requires SameEnvelope(frames[0], SealPayload(key, plain))
    ensures OpenPayload(key, frames[|stops|]).Some?
    ensures OpenPayload(key, frames[|stops|]).value.data == plain.data
  {
    EnvelopeSurvives(stops, frames, |stops|);
    OpenAfterSeal(key, plain, frames[|stops|]);
  }
}
