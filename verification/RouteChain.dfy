/** The chain MAC of route reports: what the master recomputes, when it accepts, and why an
    accepted path is the one the relays built. */
module RouteChain {
  import opened Types
  import opened Keys
  import opened Message
  import opened FrameCrypto
  import opened Peers
  import opened KeyStore
  import opened NodeSpec
  import Routes

  /** The hop before slot `i` of the path. */
  function HopBefore(m: Msg, i: nat): Mac
    requires i <= MAX_HOPS
  {
    if i == 0 then m.origin else m.routePath[i - 1]
  }

  /** The chain over the origin and the first `n` hops of the path, `keys[0]` being the origin's
      key and `keys[i]` that of hop `i`. */
  function ChainOf(m: Msg, keys: seq<Key>, n: nat): ChainMac
    requires n <= MAX_HOPS && n < |keys|
  {
    if n == 0 then Link(keys[0], BuildHopContext(m, ZERO_MAC, m.origin), NoMac)
    else Link(keys[n], BuildHopContext(m, HopBefore(m, n - 1), m.routePath[n - 1]), ChainOf(m, keys, n - 1))
  }

  /** The chain sees the header, the path so far and the keys so far, and nothing else. */
  lemma {:induction false} ChainDependsOn(a: Msg, b: Msg, ka: seq<Key>, kb: seq<Key>, n: nat)
    requires n <= MAX_HOPS && n < |ka| && n < |kb|
    requires SameHeader(a, b)
    requires forall i :: 0 <= i < n ==> a.routePath[i] == b.routePath[i]
    requires forall i :: 0 <= i <= n ==> ka[i] == kb[i]
    ensures ChainOf(a, ka, n) == ChainOf(b, kb, n)
  {
    if n > 0 {
      ChainDependsOn(a, b, ka, kb, n - 1);
    }
  }

  /** Equal chains come from equal headers, equally many hops, and the same hops in the same
      order under the same keys. */
  lemma {:induction false} ChainInjective(a: Msg, ka: seq<Key>, n: nat, b: Msg, kb: seq<Key>, k: nat)
    requires n <= MAX_HOPS && n < |ka| && k <= MAX_HOPS && k < |kb|
    requires ChainOf(a, ka, n) == ChainOf(b, kb, k)
    ensures n == k && SameHeader(a, b)
    ensures forall i :: 0 <= i < n ==> a.routePath[i] == b.routePath[i]
    ensures forall i :: 0 <= i <= n ==> ka[i] == kb[i]
  {
    var pa := if n == 0 then ZERO_MAC else HopBefore(a, n - 1);
    var ha := if n == 0 then a.origin else a.routePath[n - 1];
    var pb := if k == 0 then ZERO_MAC else HopBefore(b, k - 1);
    var hb := if k == 0 then b.origin else b.routePath[k - 1];
    HopContextInjective(a, pa, ha, b, pb, hb);
    if n > 0 && k > 0 {
      ChainInjective(a, ka, n - 1, b, kb, k - 1);
    }
  }

  // ---- The master's recomputation ----

  /** A recomputation that succeeds yields a chain over exactly the frame's path, whatever keys
      the cache answered with. */
  lemma {:induction false} RecomputedIsAChain(keys: Cache, ps: Registry, own: nat, msg: Msg, i: nat,
                                              used: seq<Key>)
      returns (all: seq<Key>)
    requires CacheInv(keys) && i <= msg.routeLen <= MAX_HOPS && |used| == i + 1
    ensures |all| == msg.routeLen + 1 && all[0] == used[0]
    ensures var r := Recomputed(keys, ps, own, msg, i, HopBefore(msg, i), ChainOf(msg, used, i));
            r.mac.Some? ==> r.mac.value == ChainOf(msg, all, msg.routeLen)
    decreases msg.routeLen - i
  {
    all := used + seq(msg.routeLen - i, j => used[0]);
    if i == msg.routeLen {
      assert all == used;
    } else {
      var hop := msg.routePath[i];
      var k := PeerKeys(keys, ps, hop, own);
      PeerKeysInv(keys, ps, hop, own);
      if k.Some? {
        var more := used + [k.value.up];
        ChainDependsOn(msg, msg, used, more, i);
        all := RecomputedIsAChain(AfterPeerKeys(keys, ps, hop, own), ps, own, msg, i + 1, more);
      }
    }
  }

  predicate AllKnown(ps: Registry, msg: Msg)
    requires msg.routeLen <= MAX_HOPS
  {
    forall i :: 0 <= i < msg.routeLen ==> KeyOf(ps, msg.routePath[i]).Pub?
  }

  /** The uplink key this device shares with a peer on record. */
  function UpKey(ps: Registry, own: nat, mac: Mac): Key {
    var k := KeyOf(ps, mac);
    if k.Pub? then DeriveKeys(own, k).up else KUp({})
  }

  /** The keys the registry has for the origin and each hop. */
  function KeysOnRecord(ps: Registry, own: nat, msg: Msg): (r: seq<Key>)
    requires msg.routeLen <= MAX_HOPS
    ensures |r| == msg.routeLen + 1
  {
    seq(msg.routeLen + 1, i requires 0 <= i <= msg.routeLen => UpKey(ps, own, HopBefore(msg, i)))
  }

  /** On a coherent cache the recomputation uses the keys on record, and fails exactly when some
      hop has none. */
  lemma {:induction false} RecomputedIsTheChain(keys: Cache, ps: Registry, own: nat, msg: Msg, i: nat)
    requires CacheInv(keys) && Coherent(keys, ps, own) && keys.entries != []
    requires i <= msg.routeLen <= MAX_HOPS
    requires forall j :: 0 <= j < i ==> KeyOf(ps, msg.routePath[j]).Pub?
    ensures var ks := KeysOnRecord(ps, own, msg);
            var r := Recomputed(keys, ps, own, msg, i, HopBefore(msg, i), ChainOf(msg, ks, i));
            && r.mac == (if AllKnown(ps, msg) then Some(ChainOf(msg, ks, msg.routeLen)) else None)
            && CacheInv(r.keys) && Coherent(r.keys, ps, own) && r.keys.entries != []
    decreases msg.routeLen - i
  {
    if i < msg.routeLen {
      PeerKeysAreFresh(keys, ps, msg.routePath[i], own);
      if KeyOf(ps, msg.routePath[i]).Pub? {
        RecomputedIsTheChain(AfterPeerKeys(keys, ps, msg.routePath[i], own), ps, own, msg, i + 1);
      }
    }
  }

  // ---- Acceptance ----

  /** A master with a sound cache and room for keys and routes. */
  predicate Ready(cfg: Config, n: Node) {
    CacheInv(n.keys) && Coherent(n.keys, n.peers, cfg.priv) && n.keys.entries != [] && n.routes != []
  }

  /** The report opens under the origin's key, reads as a report, and carries the chain over its
      whole path under the keys on record. */
  predicate Genuine(cfg: Config, n: Node, msg: Msg) {
    && KeyOf(n.peers, msg.origin).Pub?
    && OpenPayload(UpKey(n.peers, cfg.priv, msg.origin), msg).Some?
    && Opcode(msg.data.plain) == Some(OP_ROUTE_REPORT)
    && msg.routeLen <= MAX_HOPS && AllKnown(n.peers, msg)
    && msg.authPath == ChainOf(msg, KeysOnRecord(n.peers, cfg.priv, msg), msg.routeLen)
  }

  /** On a sound cache the master's check compares the chain on the frame with the chain over its
      path under the keys on record. */
  lemma ChainChecked(cfg: Config, n: Node, msg: Msg)
    requires Ready(cfg, n) && KeyOf(n.peers, msg.origin).Pub? && msg.routeLen <= MAX_HOPS
    ensures var c := AfterPeerKeys(n.keys, n.peers, msg.origin, cfg.priv);
            var up := UpKey(n.peers, cfg.priv, msg.origin);
            && CacheInv(c)
            && var r := Recomputed(c, n.peers, cfg.priv, msg, 0, msg.origin,
                                   ChainStep(up, BuildHopContext(msg, ZERO_MAC, msg.origin), NoMac));
               && r.mac == (if AllKnown(n.peers, msg)
                            then Some(ChainOf(msg, KeysOnRecord(n.peers, cfg.priv, msg), msg.routeLen)) else None)
               && CacheInv(r.keys) && Coherent(r.keys, n.peers, cfg.priv) && r.keys.entries != []
  {
    hide BuildHopContext, Coherent, CacheInv, AllKnown;
    PeerKeysAreFresh(n.keys, n.peers, msg.origin, cfg.priv);
    RecomputedIsTheChain(AfterPeerKeys(n.keys, n.peers, msg.origin, cfg.priv), n.peers, cfg.priv, msg, 0);
  }

  /** The master delivers a report and records its path exactly when it is genuine; a report it
      refuses leaves the route table alone. */
  lemma AcceptedIffGenuine(cfg: Config, n: Node, msg: Msg, now: U64)
    requires Ready(cfg, n)
    ensures var o := ReportAccepted(cfg, n, msg, now);
            && (o.local != [] <==> Genuine(cfg, n, msg))
            && o.local == (if Genuine(cfg, n, msg) then [msg.(data := msg.data.plain)] else [])
            && o.node.routes == (if Genuine(cfg, n, msg)
                 then Routes.Recorded(n.routes, msg.origin, msg.routePath, msg.routeLen, now) else n.routes)
            && o.sent == [] && Ready(cfg, o.node) && o.node == n.(keys := o.node.keys, routes := o.node.routes)
  {
    hide Recomputed, ChainOf, KeysOnRecord, BuildHopContext, Coherent, CacheInv, Routes.Recorded;
    PeerKeysAreFresh(n.keys, n.peers, msg.origin, cfg.priv);
    if KeyOf(n.peers, msg.origin).Pub? && msg.routeLen <= MAX_HOPS {
      ChainChecked(cfg, n, msg);
    }
  }

  /** Chain soundness, for any cache contents: two reports accepted with the same chain value
      carry the same header, the same number of relays and the same relays in the same order. */
  lemma AcceptedPathsAgree(cfg: Config, n: Node, a: Msg, now: U64, cfg': Config, n': Node, b: Msg, now': U64)
    requires CacheInv(n.keys) && n.routes != [] && CacheInv(n'.keys) && n'.routes != []
    requires ReportAccepted(cfg, n, a, now).local != [] && ReportAccepted(cfg', n', b, now').local != []
    requires a.authPath == b.authPath
    ensures SameHeader(a, b) && a.routeLen == b.routeLen <= MAX_HOPS && PathOf(a) == PathOf(b)
  {
    var ka := AcceptedChain(cfg, n, a, now);
    var kb := AcceptedChain(cfg', n', b, now');
    ChainInjective(a, ka, a.routeLen, b, kb, b.routeLen);
  }

  lemma AcceptedChain(cfg: Config, n: Node, a: Msg, now: U64) returns (keys: seq<Key>)
    requires CacheInv(n.keys) && n.routes != [] && ReportAccepted(cfg, n, a, now).local != []
    ensures a.routeLen <= MAX_HOPS && |keys| == a.routeLen + 1
    ensures a.authPath == ChainOf(a, keys, a.routeLen)
  {
    var k := PeerKeys(n.keys, n.peers, a.origin, cfg.priv).value.up;
    PeerKeysInv(n.keys, n.peers, a.origin, cfg.priv);
    keys := RecomputedIsAChain(AfterPeerKeys(n.keys, n.peers, a.origin, cfg.priv), n.peers, cfg.priv, a, 0, [k]);
  }
}
