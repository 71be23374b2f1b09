/** A network: nodes, who hears whom, and the frames in the air. */
module World {
  import opened Types
  import opened Message
  import opened EspNow
  import opened NodeSpec
  import opened NodeInvariant

  /** One frame on its way to one receiver; a broadcast is one delivery per receiver. */
  datatype Delivery = Delivery(to: Mac, src: Mac, msg: Msg)

  datatype Net = Net(cfgs: map<Mac, Config>, nodes: map<Mac, Node>, hears: map<Mac, seq<Mac>>,
                     air: seq<Delivery>)

  /** `hears[x]` lists the receivers in radio range of `x`. */
  function Range(net: Net, x: Mac): seq<Mac> {
    if x in net.hears then net.hears[x] else []
  }

  predicate NetInv(net: Net) {
    && net.cfgs.Keys == net.nodes.Keys
    && (forall m :: m in net.nodes ==> NodeInv(net.nodes[m]) && net.cfgs[m].self == m)
  }

  /** The deliveries of one send: everyone in range of a broadcast, or the addressee. */
  function Deliveries(rs: seq<Mac>, src: Mac, s: Send): (r: seq<Delivery>)
    ensures |r| <= |rs|
    ensures forall d :: d in r ==> d.to in rs && d.src == src && d.msg == s.msg
  {
    if rs == [] then []
    else
      var rest := Deliveries(rs[1..], src, s);
      if s.dest == BROADCAST_MAC || s.dest == rs[0] then [Delivery(rs[0], src, s.msg)] + rest else rest
  }

  function Spread(rs: seq<Mac>, src: Mac, sent: seq<Send>): (r: seq<Delivery>)
    ensures forall d :: d in r ==> d.to in rs && d.src == src && exists s :: s in sent && d.msg == s.msg
  {
    if sent == [] then []
    else
      assert forall s :: s in sent[1..] ==> s in sent;
      Deliveries(rs, src, sent[0]) + Spread(rs, src, sent[1..])
  }

  function Without(air: seq<Delivery>, i: nat): seq<Delivery>
    requires i < |air|
  {
    air[..i] + air[i + 1..]
  }

  /** A node's answer to the frame it hears, if it exists in the network at all. */
  function Answer(net: Net, d: Delivery, now: U64, jitter: Byte): Outcome
    requires NetInv(net) && d.to in net.nodes
  {
    Received(net.cfgs[d.to], net.nodes[d.to], d.src, d.msg, now, jitter)
  }

  /** Delivery `i` reaches its receiver. */
  function Deliver(net: Net, i: nat, now: U64, jitter: Byte): Net
    requires NetInv(net) && i < |net.air|
  {
    var d := net.air[i];
    if d.to !in net.nodes then net.(air := Without(net.air, i))
    else
      var o := Answer(net, d, now, jitter);
      net.(nodes := net.nodes[d.to := o.node],
           air := Without(net.air, i) + Spread(Range(net, d.to), d.to, o.sent))
  }

  /** Delivery `i` is lost. */
  function Lose(net: Net, i: nat): Net
    requires i < |net.air|
  {
    net.(air := Without(net.air, i))
  }

  /** One node acts on its own: its new state and what it sends. */
  function Act(net: Net, m: Mac, o: Outcome): Net {
    net.(nodes := net.nodes[m := o.node], air := net.air + Spread(Range(net, m), m, o.sent))
  }

  lemma DeliverInv(net: Net, i: nat, now: U64, jitter: Byte)
    requires NetInv(net) && i < |net.air|
    ensures NetInv(Deliver(net, i, now, jitter))
  {
    hide NodeInv, Received;
    var d := net.air[i];
    if d.to in net.nodes {
      ReceivedInv(net.cfgs[d.to], net.nodes[d.to], d.src, d.msg, now, jitter);
      ActInv(net, d.to, Answer(net, d, now, jitter));
    }
  }

  lemma ActInv(net: Net, m: Mac, o: Outcome)
    requires NetInv(net) && m in net.nodes && NodeInv(o.node)
    ensures NetInv(Act(net, m, o))
  {
    hide NodeInv;
    var r := Act(net, m, o);
    assert r.nodes.Keys == net.nodes.Keys;
    forall x | x in r.nodes
      ensures NodeInv(r.nodes[x]) && r.cfgs[x].self == x
    {
      assert x != m ==> r.nodes[x] == net.nodes[x];
    }
  }
}
