/** `DownlinkRouter`: the routing decision for a downlink frame and the bounded set of
    forwarding peers a relay registers. */
module Downlink {
  import opened Types
  import opened MacTable
  import opened Message
  import opened EspNow
  import opened Peers

  datatype Decision =
    | NotRouted
    | RelayTowardMaster
    | ForwardOnRoute(next: Mac)
    | Flood
    | DropHopLimitExceeded

  /** Position of a node on a source route, or its length. */
  function PositionOn(path: seq<Mac>, mac: Mac): (r: nat)
    ensures r <= |path|
    ensures r < |path| ==> path[r] == mac
    ensures forall j :: 0 <= j < r ==> path[j] != mac
  {
    FirstIndex(path, (m: Mac) => m == mac)
  }

  /** Where a node on the route sends the frame: the entry after its own first one, or the
      target after the last entry. */
  function NextOnRoute(path: seq<Mac>, at: nat, target: Mac): Mac
    requires at < |path|
  {
    if at + 1 < |path| then path[at + 1] else target
  }

  function Classified(msg: Msg, self: Mac, isMaster: bool, toSelf: bool, toAll: bool,
                      toMaster: bool): (d: Decision)
    ensures d.RelayTowardMaster? || d.ForwardOnRoute? ==> msg.hopCount < MAX_HOPS
  {
    if isMaster || toSelf || toAll then NotRouted
    else if toMaster then
      if msg.hopCount >= MAX_HOPS then DropHopLimitExceeded else RelayTowardMaster
    else if 0 < msg.routeLen <= MAX_HOPS && PositionOn(PathOf(msg), self) < msg.routeLen then
      if msg.hopCount >= MAX_HOPS then DropHopLimitExceeded
      else ForwardOnRoute(NextOnRoute(PathOf(msg), PositionOn(PathOf(msg), self), msg.target))
    else Flood
  }

  /** The copy a relay sends on: one more hop, this node as last hop. */
  function Relayed(msg: Msg, self: Mac): Msg
    requires msg.hopCount < MAX_HOPS
  {
    msg.(hopCount := msg.hopCount + 1, lastHop := self)
  }

  /** The copy a node on the source route sends on: one more hop and nothing else. */
  function Hopped(msg: Msg): Msg
    requires msg.hopCount < MAX_HOPS
  {
    msg.(hopCount := msg.hopCount + 1)
  }

  /** `relayDownlink`: one copy to every enrolled peer but this node. */
  function FloodSends(msg: Msg, ps: Registry, self: Mac): seq<Send> {
    if msg.hopCount >= MAX_HOPS then [] else CopiesTo(Relayed(msg, self), ps, self)
  }

  function CopiesTo(msg: Msg, ps: Registry, self: Mac): (r: seq<Send>)
    ensures |r| <= |ps|
  {
    if ps == [] then []
    else CopiesTo(msg, ps[..|ps| - 1], self) + Unicast(ps[|ps| - 1].mac, msg, self)
  }

  /** A flood sends that copy to every peer other than this node, and nothing else. */
  lemma {:induction false} CopiesReachPeers(msg: Msg, ps: Registry, self: Mac)
    ensures forall s :: s in CopiesTo(msg, ps, self)
                        <==> s.msg == msg && s.dest != self && exists p :: p in ps && p.mac == s.dest
  {
    if ps != [] {
      var n := |ps| - 1;
      CopiesReachPeers(msg, ps[..n], self);
      assert forall p :: p in ps <==> p == ps[n] || p in ps[..n];
    }
  }

  // ---- The forwarding-peer LRU ----

  function Without(l: seq<Mac>, m: Mac): (r: seq<Mac>)
    ensures |r| <= |l|
  {
    if l == [] then [] else if l[0] == m then Without(l[1..], m) else [l[0]] + Without(l[1..], m)
  }

  lemma {:induction false} WithoutMembers(l: seq<Mac>, m: Mac)
    ensures forall x :: x in Without(l, m) <==> x in l && x != m
    ensures m !in l ==> Without(l, m) == l
    ensures m in l ==> |Without(l, m)| < |l|
  {
    if l != [] {
      WithoutMembers(l[1..], m);
      assert forall x :: x in l <==> x == l[0] || x in l[1..];
    }
  }

  function Capped(l: seq<Mac>): (r: seq<Mac>)
    ensures |r| <= DOWNLINK_PEER_MAX
  {
    if |l| <= DOWNLINK_PEER_MAX then l else l[..DOWNLINK_PEER_MAX]
  }

  /** A textbook LRU: the newest first, capped; peers owned elsewhere leave the list. */
  function LruAfter(l: seq<Mac>, m: Mac, owned: bool): seq<Mac> {
    if owned then Without(l, m) else Capped([m] + Without(l, m))
  }

  /** The ESP-NOW table: a newcomer pushes out the last entry of a full list first. */
  function TableAfter(table: set<Mac>, l: seq<Mac>, m: Mac, owned: bool): set<Mac> {
    if !owned && m !in l && |l| >= DOWNLINK_PEER_MAX then table - {l[|l| - 1]} + {m}
    else table + {m}
  }

  predicate Distinct(l: seq<Mac>) {
    forall i, j :: 0 <= i < j < |l| ==> l[i] != l[j]
  }

  lemma {:induction false} WithoutAppend(a: seq<Mac>, b: seq<Mac>, m: Mac)
    ensures Without(a + b, m) == Without(a, m) + Without(b, m)
  {
    if a == [] {
      assert a + b == b;
    } else {
      var rest := a[1..];
      assert (a + b)[1..] == rest + b;
      WithoutAppend(rest, b, m);
      assert [a[0]] + (Without(rest, m) + Without(b, m)) == ([a[0]] + Without(rest, m)) + Without(b, m);
    }
  }

  /** Filtering a duplicate-free list closes one gap. */
  lemma WithoutAt(l: seq<Mac>, m: Mac, i: nat)
    requires Distinct(l) && i <= |l|
    requires i < |l| ==> l[i] == m
    requires forall j :: 0 <= j < i ==> l[j] != m
    ensures i < |l| ==> Without(l, m) == l[..i] + l[i + 1..]
    ensures i == |l| ==> m !in l && Without(l, m) == l
  {
    if i < |l| {
      assert l == l[..i] + ([m] + l[i + 1..]);
      WithoutAppend(l[..i], [m] + l[i + 1..], m);
      WithoutAppend([m], l[i + 1..], m);
      WithoutMembers(l[..i], m);
      WithoutMembers(l[i + 1..], m);
      assert m !in l[..i] && m !in l[i + 1..];
    } else {
      WithoutMembers(l, m);
    }
  }

  /** Moving entry `i` to the front is a use of it. */
  lemma FrontMoved(l: seq<Mac>, r: seq<Mac>, i: nat)
    requires Distinct(l) && i < |l| == |r| && |l| <= DOWNLINK_PEER_MAX && r[0] == l[i]
    requires forall j :: 0 < j <= i ==> r[j] == l[j - 1]
    requires forall j :: i < j < |l| ==> r[j] == l[j]
    ensures r == LruAfter(l, l[i], false)
  {
    WithoutAt(l, l[i], i);
    assert r == [l[i]] + (l[..i] + l[i + 1..]);
  }

  lemma WithoutDistinct(l: seq<Mac>, m: Mac)
    requires Distinct(l)
    ensures Distinct(Without(l, m))
  {
    WithoutAt(l, m, PositionOn(l, m));
  }

  lemma LruKeepsDistinct(l: seq<Mac>, m: Mac, owned: bool)
    requires Distinct(l) && |l| <= DOWNLINK_PEER_MAX
    ensures Distinct(LruAfter(l, m, owned)) && |LruAfter(l, m, owned)| <= DOWNLINK_PEER_MAX
  {
    WithoutDistinct(l, m);
    WithoutMembers(l, m);
    var w := Without(l, m);
    assert forall i :: 0 <= i < |w| ==> w[i] in w;
  }

  /** One registration of a run: the MAC and whether it is enrolled or the master by then. */
  datatype Call = Call(mac: Mac, owned: bool)

  datatype Book = Book(lru: seq<Mac>, table: set<Mac>)

  function BookAfter(b: Book, c: Call): Book {
    Book(LruAfter(b.lru, c.mac, c.owned), TableAfter(b.table, b.lru, c.mac, c.owned))
  }

  function RunBook(calls: seq<Call>): Book {
    if calls == [] then Book([], {})
    else BookAfter(RunBook(calls[..|calls| - 1]), calls[|calls| - 1])
  }

  /** Ownership never goes back: the enrolled set only grows and the master is fixed. */
  predicate OwnersGrow(calls: seq<Call>) {
    forall i, j :: 0 <= i < j < |calls| && calls[i].mac == calls[j].mac && calls[i].owned
      ==> calls[j].owned
  }

  predicate OwnedBy(calls: seq<Call>, m: Mac) {
    exists i :: 0 <= i < |calls| && calls[i].mac == m && calls[i].owned
  }

  /** Index of the last call for a MAC, or -1. */
  function LastUse(calls: seq<Call>, m: Mac): (r: int)
    ensures -1 <= r < |calls|
    ensures r >= 0 ==> calls[r].mac == m
  {
    if calls == [] then -1
    else if calls[|calls| - 1].mac == m then |calls| - 1
    else LastUse(calls[..|calls| - 1], m)
  }

  predicate RecencyOrdered(l: seq<Mac>, calls: seq<Call>) {
    && (forall i :: 0 <= i < |l| ==> LastUse(calls, l[i]) >= 0)
    && (forall i, j :: 0 <= i < j < |l| ==> LastUse(calls, l[i]) > LastUse(calls, l[j]))
  }

  lemma OrderedTail(l: seq<Mac>, calls: seq<Call>)
    requires RecencyOrdered(l, calls) && l != []
    ensures RecencyOrdered(l[1..], calls) && LastUse(calls, l[0]) >= 0
    ensures forall x :: x in l[1..] ==> LastUse(calls, l[0]) > LastUse(calls, x)
  {
    hide LastUse;
    assert forall i :: 0 <= i < |l[1..]| ==> l[1..][i] == l[i + 1];
  }

  lemma OrderedCons(x: Mac, w: seq<Mac>, calls: seq<Call>)
    requires RecencyOrdered(w, calls) && LastUse(calls, x) >= 0
    requires forall y :: y in w ==> LastUse(calls, x) > LastUse(calls, y)
    ensures RecencyOrdered([x] + w, calls)
  {
    hide LastUse;
    var l := [x] + w;
    assert forall i :: 0 < i < |l| ==> l[i] == w[i - 1] && w[i - 1] in w;
  }

  lemma {:induction false} WithoutOrdered(l: seq<Mac>, m: Mac, calls: seq<Call>)
    requires RecencyOrdered(l, calls)
    ensures RecencyOrdered(Without(l, m), calls)
  {
    hide LastUse, RecencyOrdered;
    if l == [] {
      assert Without(l, m) == l;
    } else {
      OrderedTail(l, calls);
      WithoutOrdered(l[1..], m, calls);
      WithoutMembers(l[1..], m);
      OrderedCons(l[0], Without(l[1..], m), calls);
    }
  }

  lemma OrderSurvivesCall(l: seq<Mac>, calls: seq<Call>, c: Call)
    requires RecencyOrdered(l, calls) && c.mac !in l
    ensures RecencyOrdered(l, calls + [c])
  {
    var all := calls + [c];
    assert all[..|all| - 1] == calls;
    assert forall i :: 0 <= i < |l| ==> l[i] in l && LastUse(all, l[i]) == LastUse(calls, l[i]);
  }

  lemma OrderAfterUse(w: seq<Mac>, calls: seq<Call>, c: Call)
    requires RecencyOrdered(w, calls + [c])
    requires c.mac !in w
    ensures RecencyOrdered(Capped([c.mac] + w), calls + [c])
  {
    var all := calls + [c];
    var full := [c.mac] + w;
    assert LastUse(all, c.mac) == |calls|;
    forall j | 0 < j < |full|
      ensures 0 <= LastUse(all, full[j]) < |calls|
    {
      assert full[j] == w[j - 1] && w[j - 1] in w;
      assert all[|calls|].mac == c.mac;
    }
  }

  /** After any calls the list is duplicate-free, at most four long and in most-recent-use
      order. */
  lemma {:induction false} LruShape(calls: seq<Call>)
    ensures var l := RunBook(calls).lru;
            Distinct(l) && |l| <= DOWNLINK_PEER_MAX && RecencyOrdered(l, calls)
  {
    if calls != [] {
      var n := |calls| - 1;
      var h, c := calls[..n], calls[n];
      LruShape(h);
      LruStep(RunBook(h).lru, h, c);
      assert calls == h + [c];
    }
  }

  lemma LruStep(l: seq<Mac>, h: seq<Call>, c: Call)
    requires Distinct(l) && |l| <= DOWNLINK_PEER_MAX && RecencyOrdered(l, h)
    ensures var r := LruAfter(l, c.mac, c.owned);
            Distinct(r) && |r| <= DOWNLINK_PEER_MAX && RecencyOrdered(r, h + [c])
  {
    LruKeepsDistinct(l, c.mac, c.owned);
    WithoutOrdered(l, c.mac, h);
    WithoutMembers(l, c.mac);
    OrderSurvivesCall(Without(l, c.mac), h, c);
    OrderAfterUse(Without(l, c.mac), h, c);
  }

  /** While owners only grow, every peer the router registered and did not delete is on the
      list, enrolled, or the master. */
  lemma {:induction false} RegisteredIsAccountedFor(calls: seq<Call>, m: Mac)
    requires OwnersGrow(calls) && m in RunBook(calls).table
    ensures m in RunBook(calls).lru || OwnedBy(calls, m)
  {
    var n := |calls| - 1;
    var h, c := calls[..n], calls[n];
    LruShape(h);
    TableCovered(RunBook(h), c, m);
    if m == c.mac && c.owned {
      assert calls[n].mac == m;
    } else if m in RunBook(h).table && m !in RunBook(h).lru {
      RegisteredIsAccountedFor(h, m);
      var i :| 0 <= i < |h| && h[i].mac == m && h[i].owned;
      assert calls[i] == h[i];
    }
  }

  /** On a full list only the last entry is pushed out. */
  lemma KeptOnFull(l: seq<Mac>, m: Mac, mac: Mac)
    requires |l| == DOWNLINK_PEER_MAX && m in l && m != l[|l| - 1]
    ensures m in Capped([mac] + l)
  {
    var i :| 0 <= i < |l| && l[i] == m;
    assert Capped([mac] + l)[i + 1] == m;
  }

  lemma StaysListed(l: seq<Mac>, m: Mac, mac: Mac)
    requires Distinct(l) && |l| <= DOWNLINK_PEER_MAX && m in l && m != mac
    requires mac !in l && |l| == DOWNLINK_PEER_MAX ==> m != l[|l| - 1]
    ensures m in Capped([mac] + Without(l, mac))
  {
    var full := [mac] + Without(l, mac);
    WithoutMembers(l, mac);
    assert m in Without(l, mac) && m in full;
    if |full| > DOWNLINK_PEER_MAX {
      KeptOnFull(l, m, mac);
    }
  }

  /** A registered peer after a call was registered before and not pushed out, or is the one
      just registered. */
  lemma TableCovered(b: Book, c: Call, m: Mac)
    requires Distinct(b.lru) && |b.lru| <= DOWNLINK_PEER_MAX
    requires m in BookAfter(b, c).table
    ensures m in BookAfter(b, c).lru || (m == c.mac && c.owned) || (m in b.table && m !in b.lru)
  {
    if m == c.mac && !c.owned {
      assert BookAfter(b, c).lru[0] == m;
    } else if m != c.mac && m in b.lru && !c.owned {
      WithoutMembers(b.lru, c.mac);
      StaysListed(b.lru, m, c.mac);
    } else if m in b.lru && c.owned {
      WithoutMembers(b.lru, c.mac);
    }
  }

  // ---- Refinement of the unbounded recency list, for a fixed set of owners ----

  /** Every unowned MAC ever called for, the most recent first. */
  function Recents(calls: seq<Call>): seq<Mac> {
    if calls == [] then []
    else
      var c := calls[|calls| - 1];
      var r := Recents(calls[..|calls| - 1]);
      if c.owned then r else [c.mac] + Without(r, c.mac)
  }

  predicate OwnersFixed(calls: seq<Call>, owners: set<Mac>) {
    forall i :: 0 <= i < |calls| ==> (calls[i].owned <==> calls[i].mac in owners)
  }

  lemma {:induction false} RecentsUnowned(calls: seq<Call>, owners: set<Mac>)
    requires OwnersFixed(calls, owners)
    ensures forall m :: m in Recents(calls) ==> m !in owners
    ensures Distinct(Recents(calls))
  {
    if calls != [] {
      var h, c := calls[..|calls| - 1], calls[|calls| - 1];
      RecentsUnowned(h, owners);
      WithoutDistinct(Recents(h), c.mac);
      WithoutMembers(Recents(h), c.mac);
      var w := Without(Recents(h), c.mac);
      assert forall i :: 0 <= i < |w| ==> w[i] in w;
    }
  }

  /** Taking a prefix first never changes what the list keeps after one more use. */
  lemma CapThenUse(l: seq<Mac>, m: Mac)
    requires Distinct(l)
    ensures Capped([m] + Without(Capped(l), m)) == Capped([m] + Without(l, m))
  {
    if |l| > DOWNLINK_PEER_MAX {
      WithoutAppend(l[..DOWNLINK_PEER_MAX], l[DOWNLINK_PEER_MAX..], m);
      assert l == l[..DOWNLINK_PEER_MAX] + l[DOWNLINK_PEER_MAX..];
      var a, b := Without(l[..DOWNLINK_PEER_MAX], m), Without(l[DOWNLINK_PEER_MAX..], m);
      WithoutOnce(l[..DOWNLINK_PEER_MAX], m);
      assert [m] + (a + b) == [m] + a + b;
    }
  }

  lemma {:induction false} WithoutOnce(l: seq<Mac>, m: Mac)
    requires Distinct(l)
    ensures |Without(l, m)| >= |l| - 1
  {
    if l != [] {
      WithoutOnce(l[1..], m);
      if l[0] == m {
        WithoutMembers(l[1..], m);
        assert m !in l[1..];
      }
    }
  }

  /** For a fixed set of owners the bounded list is the first four of the unbounded one. */
  lemma {:induction false} LruIsTruncatedRecency(calls: seq<Call>, owners: set<Mac>)
    requires OwnersFixed(calls, owners)
    ensures RunBook(calls).lru == Capped(Recents(calls))
  {
    if calls != [] {
      var h, c := calls[..|calls| - 1], calls[|calls| - 1];
      LruIsTruncatedRecency(h, owners);
      RecentsUnowned(h, owners);
      if c.owned {
        WithoutMembers(Capped(Recents(h)), c.mac);
        assert forall m :: m in Capped(Recents(h)) ==> m in Recents(h);
      } else {
        CapThenUse(Recents(h), c.mac);
      }
    }
  }

  // ---- The class ----

  class DownlinkRouter {
    const lru: array<Mac>
    var count: nat

    ghost predicate Valid()
      reads this, lru
    {
      lru.Length == DOWNLINK_PEER_MAX && count <= DOWNLINK_PEER_MAX && Distinct(lru[..count])
    }

    ghost function View(): seq<Mac>
      requires count <= lru.Length
      reads this, lru
    {
      lru[..count]
    }

    constructor ()
      ensures Valid() && fresh(lru) && View() == []
    {
      lru := new Mac[DOWNLINK_PEER_MAX](i => ZERO_MAC);
      count := 0;
    }

    method Classify(msg: Msg, self: Mac, isMaster: bool, toSelf: bool, toAll: bool, toMaster: bool)
        returns (d: Decision)
      ensures d == Classified(msg, self, isMaster, toSelf, toAll, toMaster)
    {
      if isMaster || toSelf || toAll {
        return NotRouted;
      }
      if toMaster {
        return if msg.hopCount >= MAX_HOPS then DropHopLimitExceeded else RelayTowardMaster;
      }
      if 0 < msg.routeLen <= MAX_HOPS {
        for i := 0 to msg.routeLen
          invariant forall j :: 0 <= j < i ==> msg.routePath[j] != self
        {
          if msg.routePath[i] == self {
            assert PositionOn(PathOf(msg), self) == i;
            if msg.hopCount >= MAX_HOPS {
              return DropHopLimitExceeded;
            }
            var next := if i + 1 < msg.routeLen then msg.routePath[i + 1] else msg.target;
            return ForwardOnRoute(next);
          }
        }
      }
      return Flood;
    }

    method RelayDownlink(msg: Msg, peers: PeerRegistry, self: Mac, radio: Radio)
      requires peers.Valid()
      modifies radio`sent
      ensures radio.sent == old(radio.sent) + FloodSends(msg, peers.View(), self)
    {
      if msg.hopCount >= MAX_HOPS {
        return;
      }
      var relay := Relayed(msg, self);
      ghost var ps, before := peers.View(), radio.sent;
      for i := 0 to peers.count
        invariant radio.sent == before + CopiesTo(relay, ps[..i], self)
      {
        assert ps[..i + 1][..i] == ps[..i];
        if peers.slots[i].mac == self {
          continue;
        }
        radio.SendMessage(peers.slots[i].mac, relay, self);
      }
      assert ps[..peers.count] == ps;
    }

    method IndexOf(mac: Mac) returns (r: nat)
      requires Valid()
      ensures r <= count && (r < count ==> lru[r] == mac)
      ensures forall j :: 0 <= j < r ==> lru[j] != mac
    {
      r := 0;
      while r < count && lru[r] != mac
        invariant r <= count
        invariant forall j :: 0 <= j < r ==> lru[j] != mac
      {
        r := r + 1;
      }
    }

    /** Moves entries `0 .. upto` one place back and puts `mac` in front. */
    method PushFront(mac: Mac, upto: nat)
      requires upto < lru.Length
      modifies lru
      ensures lru[0] == mac
      ensures forall j :: 0 < j <= upto ==> lru[j] == old(lru[j - 1])
      ensures forall j :: upto < j < lru.Length ==> lru[j] == old(lru[j])
    {
      var j := upto;
      while j > 0
        invariant 0 <= j <= upto
        invariant forall k :: j < k <= upto ==> lru[k] == old(lru[k - 1])
        invariant forall k :: 0 <= k <= j || upto < k < lru.Length ==> lru[k] == old(lru[k])
      {
        lru[j] := lru[j - 1];
        j := j - 1;
      }
      lru[0] := mac;
    }

    /** The shift of the tail is the removal of entry `at`. */
    lemma GapClosed(l: seq<Mac>, r: seq<Mac>, at: nat)
      requires at < |l| && |r| == |l| - 1
      requires forall k :: 0 <= k < at ==> r[k] == l[k]
      requires forall k :: at <= k < |r| ==> r[k] == l[k + 1]
      ensures r == l[..at] + l[at + 1..]
    {
    }

    /** Closes the gap at `at`. */
    method CloseGap(at: nat)
      requires Valid() && at < count
      modifies this`count, lru
      ensures count == old(count) - 1
      ensures View() == old(View())[..at] + old(View())[at + 1..]
    {
      ghost var before := View();
      var j := at;
      while j + 1 < count
        invariant at <= j < count == old(count)
        invariant forall k :: at <= k < j ==> lru[k] == old(lru[k + 1])
        invariant forall k :: 0 <= k < at || j <= k < lru.Length ==> lru[k] == old(lru[k])
      {
        lru[j] := lru[j + 1];
        j := j + 1;
      }
      count := count - 1;
      GapClosed(before, View(), at);
    }

    /** A peer that its own path manages leaves the list. */
    method Disown(mac: Mac)
      requires Valid()
      modifies this`count, lru
      ensures Valid() && View() == Without(old(View()), mac)
    {
      WithoutDistinct(View(), mac);
      var i := IndexOf(mac);
      WithoutAt(View(), mac, i);
      if i < count {
        CloseGap(i);
      }
    }

    /** A listed peer comes to the front. */
    method MoveToFront(i: nat)
      requires Valid() && i < count
      modifies lru
      ensures Valid() && View() == LruAfter(old(View()), old(lru[i]), false)
    {
      ghost var l := View();
      LruKeepsDistinct(l, lru[i], false);
      PushFront(lru[i], i);
      FrontMoved(l, View(), i);
    }

    /** A newcomer goes in front of the list. */
    lemma NewcomerFirst(l: seq<Mac>, mac: Mac)
      requires Distinct(l) && |l| <= DOWNLINK_PEER_MAX && forall j :: 0 <= j < |l| ==> l[j] != mac
      ensures mac !in l && LruAfter(l, mac, false) == Capped([mac] + l)
      ensures Distinct(LruAfter(l, mac, false)) && |LruAfter(l, mac, false)| <= DOWNLINK_PEER_MAX
    {
      LruKeepsDistinct(l, mac, false);
      WithoutMembers(l, mac);
    }

    /** A peer the router manages. */
    method Touch(mac: Mac, radio: Radio)
      requires Valid()
      modifies this`count, lru, radio`registered
      ensures Valid() && View() == LruAfter(old(View()), mac, false)
      ensures radio.registered == TableAfter(old(radio.registered), old(View()), mac, false)
    {
      hide LruAfter, Capped, Distinct;
      var i := IndexOf(mac);
      if i < count {
        assert View()[i] == mac;
        MoveToFront(i);
      } else {
        NewcomerFirst(View(), mac);
        Insert(mac, radio);
      }
      radio.Register(mac);
    }

    /** `owned`: the peer is enrolled or the current master, whose own paths manage it. */
    method RegisterDownlinkPeer(mac: Mac, owned: bool, radio: Radio)
      requires Valid()
      modifies this`count, lru, radio`registered
      ensures Valid()
      ensures View() == LruAfter(old(View()), mac, owned)
      ensures radio.registered == TableAfter(old(radio.registered), old(View()), mac, owned)
    {
      if owned {
        Disown(mac);
        radio.Register(mac);
      } else {
        Touch(mac, radio);
      }
    }

    /** A MAC not on the list: on a full list the oldest leaves, and ESP-NOW forgets it. */
    method Insert(mac: Mac, radio: Radio)
      requires Valid() && mac !in View()
      modifies this`count, lru, radio`registered
      ensures count <= lru.Length && View() == Capped([mac] + old(View()))
      ensures radio.registered == if |old(View())| >= DOWNLINK_PEER_MAX
                                  then old(radio.registered) - {old(View())[|old(View())| - 1]}
                                  else old(radio.registered)
    {
      if count >= DOWNLINK_PEER_MAX {
        radio.Unregister(lru[count - 1]);
      } else {
        count := count + 1;
      }
      PushFront(mac, count - 1);
    }
  }
}
