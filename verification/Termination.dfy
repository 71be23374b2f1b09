/** Relaying terminates: without new originations every delivery lowers a measure of the
    frames in the air. */
module Termination {
  import opened Types
  import opened Message
  import opened EspNow
  import opened NodeSpec
  import opened Relaying
  import opened World
  import opened BeaconRelay
  import Downlink
  import Replay

  function Pow(b: nat, e: nat): nat {
    if e == 0 then 1 else b * Pow(b, e - 1)
  }

  lemma PowPositive(b: nat, e: nat)
    requires b > 0
    ensures Pow(b, e) > 0
  {
  }

  /** Hops a frame may still make. */
  function HopsLeft(msg: Msg): nat {
    if msg.hopCount >= MAX_HOPS then 0 else MAX_HOPS - msg.hopCount
  }

  /** Every transmitter has at most `fan` receivers. */
  ghost predicate FanOut(net: Net, fan: nat) {
    forall m :: |Range(net, m)| <= fan
  }

  /** A frame weighs more than everything one reception of it can put on the air. */
  function Weight(fan: nat, msg: Msg): nat {
    Pow(MAX_PEERS * fan + 1, HopsLeft(msg))
  }

  function Measure(fan: nat, air: seq<Delivery>): nat {
    if air == [] then 0 else Weight(fan, air[0].msg) + Measure(fan, air[1..])
  }

  lemma {:induction false} MeasureConcat(fan: nat, a: seq<Delivery>, b: seq<Delivery>)
    ensures Measure(fan, a + b) == Measure(fan, a) + Measure(fan, b)
  {
    if a == [] {
      assert a + b == b;
    } else {
      MeasureConcat(fan, a[1..], b);
      assert (a + b)[1..] == a[1..] + b;
    }
  }

  lemma MeasureWithout(fan: nat, air: seq<Delivery>, i: nat)
    requires i < |air|
    ensures Measure(fan, air) == Measure(fan, Without(air, i)) + Weight(fan, air[i].msg)
  {
    var a, d, b := air[..i], [air[i]], air[i + 1..];
    assert air == a + (d + b);
    MeasureConcat(fan, a, d + b);
    MeasureConcat(fan, d, b);
    MeasureConcat(fan, a, b);
    assert d[1..] == [];
  }

  /** A list of deliveries of equal weight. */
  lemma {:induction false} MeasureUniform(fan: nat, ds: seq<Delivery>, w: nat)
    requires forall i :: 0 <= i < |ds| ==> Weight(fan, ds[i].msg) == w
    ensures Measure(fan, ds) == |ds| * w
  {
    if ds != [] {
      MeasureUniform(fan, ds[1..], w);
      OneMore(|ds| - 1, w);
    }
  }

  lemma OneMore(n: nat, w: nat)
    ensures (n + 1) * w == w + n * w
  {
  }

  lemma {:induction false} SpreadSize(rs: seq<Mac>, src: Mac, sent: seq<Send>, fan: nat)
    requires |rs| <= fan
    ensures |Spread(rs, src, sent)| <= |sent| * fan
  {
    if sent != [] {
      SpreadSize(rs, src, sent[1..], fan);
      OneMore(|sent| - 1, fan);
    }
  }

  lemma MulMono(a: nat, b: nat, w: nat)
    requires a <= b
    ensures a * w <= b * w
  {
  }

  /** Copies one hop further, to at most ten destinations and `fan` receivers each, weigh less
      than the frame they copy. */
  lemma CopiesLighter(rs: seq<Mac>, src: Mac, sent: seq<Send>, msg: Msg, self: Mac, fan: nat)
    requires AllRelays(sent, msg, self) && |rs| <= fan
    ensures Measure(fan, Spread(rs, src, sent)) < Weight(fan, msg)
  {
    var b := MAX_PEERS * fan + 1;
    var ds := Spread(rs, src, sent);
    PowPositive(b, HopsLeft(msg));
    if sent != [] {
      assert IsRelayOf(sent[0].msg, msg, self);
      var w := Pow(b, HopsLeft(msg) - 1);
      forall x | x in ds
        ensures Weight(fan, x.msg) == w
      {
        var s :| s in sent && x.msg == s.msg;
      }
      MeasureUniform(fan, ds, w);
      SpreadSize(rs, src, sent, fan);
      MulMono(|sent|, MAX_PEERS, fan);
      MulMono(|ds|, MAX_PEERS * fan, w);
      PowPositive(b, HopsLeft(msg) - 1);
      assert b * w == MAX_PEERS * fan * w + w;
    }
  }

  /** One reception puts less on the air than it takes off it. */
  lemma AnswerLighter(net: Net, d: Delivery, now: U64, jitter: Byte, fan: nat)
    requires NetInv(net) && FanOut(net, fan) && d.to in net.nodes
    ensures Measure(fan, Spread(Range(net, d.to), d.to, Answer(net, d, now, jitter).sent))
            < Weight(fan, d.msg)
  {
    ReceivedRelays(net.cfgs[d.to], net.nodes[d.to], d.src, d.msg, now, jitter);
    CopiesLighter(Range(net, d.to), d.to, Answer(net, d, now, jitter).sent, d.msg,
                  net.cfgs[d.to].self, fan);
  }

  /** For any topology, any routing loops and any replay-cache contents, a delivery strictly
      lowers the measure. */
  lemma DeliveryLowersMeasure(net: Net, i: nat, now: U64, jitter: Byte, fan: nat)
    requires NetInv(net) && FanOut(net, fan) && i < |net.air|
    ensures Measure(fan, Deliver(net, i, now, jitter).air) < Measure(fan, net.air)
  {
    var d := net.air[i];
    MeasureWithout(fan, net.air, i);
    PowPositive(MAX_PEERS * fan + 1, HopsLeft(d.msg));
    if d.to in net.nodes {
      var ds := Spread(Range(net, d.to), d.to, Answer(net, d, now, jitter).sent);
      MeasureConcat(fan, Without(net.air, i), ds);
      AnswerLighter(net, d, now, jitter, fan);
    }
  }

  lemma LossLowersMeasure(net: Net, i: nat, fan: nat)
    requires i < |net.air|
    ensures Measure(fan, Lose(net, i).air) < Measure(fan, net.air)
  {
    MeasureWithout(fan, net.air, i);
    PowPositive(MAX_PEERS * fan + 1, HopsLeft(net.air[i].msg));
  }

  // ---- Deferred beacon relays ----

  /** The marks of `all` that a node has not relayed yet. */
  function Ahead(n: Node, all: set<Mark>): set<Mark> {
    set m | m in all && Newer(m, n.lastRelayed)
  }

  /** More than one deferred relay can put on the air. */
  function RelayCost(fan: nat): nat {
    fan * Pow(MAX_PEERS * fan + 1, MAX_HOPS) + 1
  }

  /** What a node may still relay: the waiting beacon and one for each mark ahead. */
  function Potential(n: Node, all: set<Mark>, fan: nat): nat {
    RelayCost(fan) * (|Ahead(n, all)| + if n.pending.Some? then 1 else 0)
  }

  function Potentials(net: Net, ms: seq<Mac>, all: set<Mark>, fan: nat): nat {
    if ms == [] then 0
    else (if ms[0] in net.nodes then Potential(net.nodes[ms[0]], all, fan) else 0) + Potentials(net, ms[1..], all, fan)
  }

  /** The frames in the air and the beacons still to relay, for an enumeration of the nodes. */
  function Total(net: Net, ms: seq<Mac>, all: set<Mark>, fan: nat): nat {
    Measure(fan, net.air) + Potentials(net, ms, all, fan)
  }

  ghost predicate Enumerates(ms: seq<Mac>, net: Net) {
    Downlink.Distinct(ms) && forall m :: m in net.nodes ==> m in ms
  }

  /** A beacon carries a mark of `all`. */
  predicate MarkIn(m: Msg, all: set<Mark>) {
    m.kind == TYPE_MASTER_BEACON ==> MsgMark(m) in all
  }

  /** Every beacon in the air or waiting does. */
  ghost predicate MarksIn(net: Net, all: set<Mark>) {
    && (forall d :: d in net.air ==> MarkIn(d.msg, all))
    && (forall m :: m in net.nodes && net.nodes[m].pending.Some? ==> MarkIn(net.nodes[m].pending.value, all))
  }

  function AllMarks(net: Net): set<Mark> {
    (set d | d in net.air :: MsgMark(d.msg))
    + (set m | m in net.nodes && net.nodes[m].pending.Some? :: MsgMark(net.nodes[m].pending.value))
  }

  /** Changing one node changes one summand. */
  lemma {:induction false} PotentialsAt(a: Net, b: Net, ms: seq<Mac>, all: set<Mark>, fan: nat, m: Mac)
    requires Downlink.Distinct(ms) && m in a.nodes && m in b.nodes && b.nodes == a.nodes[m := b.nodes[m]]
    ensures Potentials(b, ms, all, fan) + (if m in ms then Potential(a.nodes[m], all, fan) else 0)
         == Potentials(a, ms, all, fan) + (if m in ms then Potential(b.nodes[m], all, fan) else 0)
  {
    hide Potential;
    if ms != [] {
      assert ms[0] !in ms[1..];
      PotentialsAt(a, b, ms[1..], all, fan, m);
    }
  }

  lemma TimesMono(c: nat, a: nat, b: nat)
    requires a <= b
    ensures c * a <= c * b
  {
  }

  /** Hearing a frame never raises what a node may still relay: a relay scheduled is a mark
      used up. */
  lemma HearingSpends(cfg: Config, n: Node, src: Mac, msg: Msg, now: U64, jitter: Byte, all: set<Mark>, fan: nat)
    requires NodeInv(n) && (msg.kind == TYPE_MASTER_BEACON ==> MsgMark(msg) in all)
    ensures Potential(Received(cfg, n, src, msg, now, jitter).node, all, fan) <= Potential(n, all, fan)
  {
    hide Received, NodeInv;
    var r := Received(cfg, n, src, msg, now, jitter).node;
    HearingArms(cfg, n, src, msg, now, jitter);
    var before := |Ahead(n, all)| + (if n.pending.Some? then 1 else 0);
    var after := |Ahead(r, all)| + (if r.pending.Some? then 1 else 0);
    if RelayArmed(cfg, n, r, msg) {
      assert MsgMark(msg) in Ahead(n, all);
      Replay.SubsetSize(Ahead(r, all), Ahead(n, all) - {MsgMark(msg)});
    }
    TimesMono(RelayCost(fan), after, before);
  }

  lemma {:induction false} PowMonotone(b: nat, e: nat, f: nat)
    requires b > 0 && e <= f
    ensures Pow(b, e) <= Pow(b, f)
  {
    if e < f {
      PowMonotone(b, e, f - 1);
      MulMono(1, b, Pow(b, f - 1));
    }
  }

  lemma SpreadWeight(rs: seq<Mac>, src: Mac, msg: Msg, fan: nat)
    requires |rs| <= fan
    ensures Measure(fan, Spread(rs, src, [Send(BROADCAST_MAC, msg)])) < RelayCost(fan)
  {
    var sent := [Send(BROADCAST_MAC, msg)];
    var ds := Spread(rs, src, sent);
    forall i | 0 <= i < |ds|
      ensures Weight(fan, ds[i].msg) == Weight(fan, msg)
    {
      assert ds[i] in ds;
    }
    MeasureUniform(fan, ds, Weight(fan, msg));
    SpreadSize(rs, src, sent, fan);
    MulMono(|ds|, fan, Weight(fan, msg));
    PowMonotone(MAX_PEERS * fan + 1, HopsLeft(msg), MAX_HOPS);
    TimesMono(fan, Weight(fan, msg), Pow(MAX_PEERS * fan + 1, MAX_HOPS));
  }

  // ---- Quiet runs ----

  /** What still happens when nobody originates: a delivery, a loss, or a deferred relay whose time
      has come. */
  datatype QuietEvent =
    | Hears(i: nat, now: U64, jitter: Byte)
    | Misses(i: nat)
    | RelaysBeacon(m: Mac, at: U64)

  ghost predicate QuietStep(a: Net, e: QuietEvent, b: Net) {
    NetInv(a) &&
    match e
    case Hears(i, now, jitter) => i < |a.air| && b == Deliver(a, i, now, jitter)
    case Misses(i) => i < |a.air| && b == Lose(a, i)
    case RelaysBeacon(m, at) =>
      && m in a.nodes && PendingFlushed(a.nodes[m], at).sent != []
      && b == Act(a, m, PendingFlushed(a.nodes[m], at))
  }

  ghost predicate QuietRun(run: seq<Net>, es: seq<QuietEvent>) {
    |run| == |es| + 1 && forall k :: 0 <= k < |es| ==> QuietStep(run[k], es[k], run[k + 1])
  }

  lemma {:induction false} SamePotentials(a: Net, b: Net, ms: seq<Mac>, all: set<Mark>, fan: nat)
    requires b.nodes == a.nodes
    ensures Potentials(b, ms, all, fan) == Potentials(a, ms, all, fan)
  {
    if ms != [] {
      SamePotentials(a, b, ms[1..], all, fan);
    }
  }

  lemma HearingKeepsMarks(a: Net, i: nat, now: U64, jitter: Byte, all: set<Mark>)
    requires NetInv(a) && i < |a.air| && MarksIn(a, all)
    ensures MarksIn(Deliver(a, i, now, jitter), all)
  {
    hide Received, NodeInv;
    var d := a.air[i];
    if d.to in a.nodes {
      HearingArms(a.cfgs[d.to], a.nodes[d.to], d.src, d.msg, now, jitter);
    }
  }

  lemma HearingLowers(a: Net, i: nat, now: U64, jitter: Byte, ms: seq<Mac>, all: set<Mark>, fan: nat)
    requires NetInv(a) && i < |a.air| && FanOut(a, fan) && Enumerates(ms, a) && MarksIn(a, all)
    ensures Total(Deliver(a, i, now, jitter), ms, all, fan) < Total(a, ms, all, fan)
  {
    hide Received, Potential, NodeInv;
    var d, b := a.air[i], Deliver(a, i, now, jitter);
    DeliveryLowersMeasure(a, i, now, jitter, fan);
    if d.to in a.nodes {
      HearingSpends(a.cfgs[d.to], a.nodes[d.to], d.src, d.msg, now, jitter, all, fan);
      PotentialsAt(a, b, ms, all, fan, d.to);
    } else {
      SamePotentials(a, b, ms, all, fan);
    }
  }

  /** Sending the waiting relay spends one relay. */
  lemma RelayingSpends(n: Node, at: U64, all: set<Mark>, fan: nat)
    requires PendingFlushed(n, at).sent != []
    ensures Potential(PendingFlushed(n, at).node, all, fan) + RelayCost(fan) == Potential(n, all, fan)
    ensures n.pending.Some? && PendingFlushed(n, at).sent == [Send(BROADCAST_MAC, n.pending.value)]
    ensures PendingFlushed(n, at).node.pending.None?
  {
    var r := PendingFlushed(n, at).node;
    assert Ahead(r, all) == Ahead(n, all);
    OneMore(|Ahead(n, all)|, RelayCost(fan));
  }

  lemma RelayingKeepsMarks(a: Net, m: Mac, at: U64, all: set<Mark>)
    requires m in a.nodes && MarksIn(a, all) && PendingFlushed(a.nodes[m], at).sent != []
    ensures MarksIn(Act(a, m, PendingFlushed(a.nodes[m], at)), all)
  {
  }

  lemma RelayingLowers(a: Net, m: Mac, at: U64, ms: seq<Mac>, all: set<Mark>, fan: nat)
    requires NetInv(a) && m in a.nodes && FanOut(a, fan) && Enumerates(ms, a)
    requires PendingFlushed(a.nodes[m], at).sent != []
    ensures Total(Act(a, m, PendingFlushed(a.nodes[m], at)), ms, all, fan) < Total(a, ms, all, fan)
  {
    hide NodeInv, Potential, PendingFlushed, RelayCost;
    var o := PendingFlushed(a.nodes[m], at);
    var b := Act(a, m, o);
    RelayingSpends(a.nodes[m], at, all, fan);
    MeasureConcat(fan, a.air, Spread(Range(a, m), m, o.sent));
    SpreadWeight(Range(a, m), m, a.nodes[m].pending.value, fan);
    PotentialsAt(a, b, ms, all, fan, m);
  }

  lemma QuietStepLowers(a: Net, e: QuietEvent, b: Net, ms: seq<Mac>, all: set<Mark>, fan: nat)
    requires QuietStep(a, e, b) && FanOut(a, fan) && Enumerates(ms, a) && MarksIn(a, all)
    ensures Total(b, ms, all, fan) < Total(a, ms, all, fan)
    ensures FanOut(b, fan) && Enumerates(ms, b) && MarksIn(b, all)
  {
    hide NodeInv, Potential, PendingFlushed, Received;
    match e
    case Hears(i, now, jitter) =>
      HearingLowers(a, i, now, jitter, ms, all, fan);
      HearingKeepsMarks(a, i, now, jitter, all);
      SameRange(a, b, fan);
    case Misses(i) =>
      LossLowersMeasure(a, i, fan);
      SamePotentials(a, b, ms, all, fan);
      SameRange(a, b, fan);
    case RelaysBeacon(m, at) =>
      RelayingLowers(a, m, at, ms, all, fan);
      RelayingKeepsMarks(a, m, at, all);
      SameRange(a, b, fan);
  }

  lemma SameRange(a: Net, b: Net, fan: nat)
    requires b.hears == a.hears && FanOut(a, fan)
    ensures FanOut(b, fan)
  {
    assert forall m :: Range(b, m) == Range(a, m);
  }

  lemma {:induction false} QuietRunBounded(run: seq<Net>, es: seq<QuietEvent>, from: nat, ms: seq<Mac>,
                                           all: set<Mark>, fan: nat)
    requires QuietRun(run, es) && from < |run| && FanOut(run[from], fan)
    requires Enumerates(ms, run[from]) && MarksIn(run[from], all)
    ensures |es| - from <= Total(run[from], ms, all, fan)
    decreases |run| - from
  {
    if from < |es| {
      QuietStepLowers(run[from], es[from], run[from + 1], ms, all, fan);
      QuietRunBounded(run, es, from + 1, ms, all, fan);
    }
  }

  /** The air falls silent: from any state, no run without new originations is longer than the
      measure of that state, deferred beacon relays included. */
  lemma QuietRunsEnd(run: seq<Net>, es: seq<QuietEvent>, ms: seq<Mac>, fan: nat)
    requires QuietRun(run, es) && FanOut(run[0], fan) && Enumerates(ms, run[0])
    ensures |es| <= Total(run[0], ms, AllMarks(run[0]), fan)
  {
    QuietRunBounded(run, es, 0, ms, AllMarks(run[0]), fan);
  }
}
