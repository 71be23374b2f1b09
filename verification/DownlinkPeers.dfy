/** Forwarding peers against enrollment: which enrolled peers the downlink router can unregister. */
module DownlinkPeers {
  import opened Types
  import opened Keys
  import opened Message
  import opened Peers
  import opened KeyStore
  import opened Downlink
  import opened OutboundSequence
  import opened NodeSpec

  /** A run of forwards, each toward some next hop. */
  function Forwards(n: Node, hops: seq<Mac>): Node {
    if hops == [] then n else WithDownlinkPeer(Forwards(n, hops[..|hops| - 1]), hops[|hops| - 1])
  }

  /** Forwarding changes the list and the ESP-NOW table only. */
  lemma {:induction false} ForwardsKeep(n: Node, hops: seq<Mac>)
    ensures Forwards(n, hops) == n.(lru := Forwards(n, hops).lru, table := Forwards(n, hops).table)
  {
    if hops != [] {
      ForwardsKeep(n, hops[..|hops| - 1]);
    }
  }

  /** Registering a next hop unregisters a peer, enrolled or not, exactly when that peer is the last
      of a full list and the next hop is neither listed, nor enrolled, nor the master. */
  lemma DroppedIff(n: Node, hop: Mac, p: Mac)
    requires |n.lru| <= DOWNLINK_PEER_MAX && p in n.table
    ensures p !in WithDownlinkPeer(n, hop).table
       <==> |n.lru| == DOWNLINK_PEER_MAX && p == n.lru[DOWNLINK_PEER_MAX - 1] && hop !in n.lru && !OwnedPeer(n, hop)
  {
  }

  /** An enrolled peer that is not on the list is safe: no run of forwards lists or unregisters it. */
  lemma {:induction false} UnlistedStaysRegistered(n: Node, hops: seq<Mac>, p: Mac)
    requires Distinct(n.lru) && |n.lru| <= DOWNLINK_PEER_MAX
    requires Known(n.peers, p) && p !in n.lru && p in n.table
    ensures var r := Forwards(n, hops);
            p in r.table && p !in r.lru && Distinct(r.lru) && |r.lru| <= DOWNLINK_PEER_MAX
  {
    if hops != [] {
      var h, c := hops[..|hops| - 1], hops[|hops| - 1];
      UnlistedStaysRegistered(n, h, p);
      ForwardsKeep(n, h);
      var m := Forwards(n, h);
      LruKeepsDistinct(m.lru, c, OwnedPeer(m, c));
      WithoutMembers(m.lru, c);
    }
  }

  /** One more unowned, unlisted hop goes in front. */
  lemma NewHop(n: Node, hop: Mac)
    requires !OwnedPeer(n, hop) && hop !in n.lru
    ensures WithDownlinkPeer(n, hop).lru == Capped([hop] + n.lru)
    ensures WithDownlinkPeer(n, hop) == n.(lru := WithDownlinkPeer(n, hop).lru, table := WithDownlinkPeer(n, hop).table)
  {
    WithoutMembers(n.lru, hop);
  }

  /** An enrolled peer still on the list is not safe: enrolling does not take it off, and four new
      next hops push it out of the ESP-NOW table. */
  lemma ListedIsPushedOut(n: Node, p: Mac, key: PubKey, now: U64, hops: seq<Mac>)
    requires n.lru == [] && |hops| == DOWNLINK_PEER_MAX && Distinct(hops) && p !in hops
    requires !OwnedPeer(n, p) && |n.peers| < MAX_PEERS && forall h :: h in hops ==> !OwnedPeer(n, h)
    ensures var enrolled := WithPeerKey(WithDownlinkPeer(n, p), p, key, false, now);
            && p in enrolled.table && Known(enrolled.peers, p)
            && var r := Forwards(enrolled, hops); Known(r.peers, p) && p !in r.table
  {
    NewHop(n, p);
    var e := WithPeerKey(WithDownlinkPeer(n, p), p, key, false, now);
    assert e.peers == n.peers + [Peer(p, key, now)];
    forall h | h in hops
      ensures !OwnedPeer(e, h)
    {
      StillUnknown(n.peers, p, key, now, h);
    }
    assert Known(e.peers, p) by {
      assert e.peers[|n.peers|].mac == p;
    }
    FourHops(e, p, hops);
  }

  lemma StillUnknown(ps: Registry, p: Mac, key: PubKey, now: U64, h: Mac)
    requires !Known(ps, h) && h != p
    ensures !Known(ps + [Peer(p, key, now)], h)
  {
    var qs := ps + [Peer(p, key, now)];
    assert forall j :: 0 <= j < |ps| ==> qs[j] == ps[j];
  }

  /** The list after the first `k` of four new hops. */
  lemma {:induction false} SomeHops(e: Node, p: Mac, hops: seq<Mac>, k: nat)
    requires e.lru == [p] && p in e.table && k < |hops| == DOWNLINK_PEER_MAX && Distinct(hops) && p !in hops
    requires forall h :: h in hops ==> !OwnedPeer(e, h)
    ensures var r := Forwards(e, hops[..k]);
            && |r.lru| == k + 1 && r.lru[k] == p && p in r.table
            && forall x :: x in r.lru ==> x == p || x in hops[..k]
  {
    hide WithDownlinkPeer, OwnedPeer;
    if k > 0 {
      SomeHops(e, p, hops, k - 1);
      var m, hop := Forwards(e, hops[..k - 1]), hops[k - 1];
      assert hops[..k][..k - 1] == hops[..k - 1] && hop in hops && hop !in hops[..k - 1];
      ForwardsKeep(e, hops[..k - 1]);
      SameOwners(e, m, hop);
      NewHop(m, hop);
      KeptInTable(m, hop, p);
      assert Capped([hop] + m.lru) == [hop] + m.lru;
      assert hops[..k] == hops[..k - 1] + [hop];
    }
  }

  lemma SameOwners(a: Node, b: Node, mac: Mac)
    requires b == a.(lru := b.lru, table := b.table)
    ensures OwnedPeer(b, mac) == OwnedPeer(a, mac)
  {
  }

  lemma KeptInTable(n: Node, hop: Mac, p: Mac)
    requires |n.lru| < DOWNLINK_PEER_MAX && p in n.table
    ensures p in WithDownlinkPeer(n, hop).table
  {
  }

  lemma FourHops(e: Node, p: Mac, hops: seq<Mac>)
    requires e.lru == [p] && p in e.table && |hops| == DOWNLINK_PEER_MAX && Distinct(hops) && p !in hops
    requires forall h :: h in hops ==> !OwnedPeer(e, h)
    ensures p !in Forwards(e, hops).table && Forwards(e, hops).peers == e.peers
  {
    hide WithDownlinkPeer, OwnedPeer;
    var last := DOWNLINK_PEER_MAX - 1;
    var m, hop := Forwards(e, hops[..last]), hops[last];
    SomeHops(e, p, hops, last);
    ForwardsKeep(e, hops);
    ForwardsKeep(e, hops[..last]);
    SameOwners(e, m, hop);
    assert hop in hops && hop !in hops[..last];
    DroppedIff(m, hop, p);
  }
}
