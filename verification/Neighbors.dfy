/** `NeighborTable.h`: forwarding candidates toward the master, learned from beacons. */
module Neighbors {
  import opened Types
  import opened MacTable

  datatype Neighbor = Neighbor(mac: Mac, dist: Byte, valid: bool, lastSeen: U64)

  type Table = seq<Neighbor>

  const EMPTY_NEIGHBOR := Neighbor(ZERO_MAC, 0, false, 0)

  function NoNeighbors(): Table {
    seq(NEIGHBOR_MAX, i => EMPTY_NEIGHBOR)
  }

  predicate Fresh(e: Neighbor, now: U64) {
    e.valid && Age(now, e.lastSeen) < STALE_PEER_MS
  }

  /** Valid entries form a prefix and no two of them share a MAC. */
  predicate Inv(t: Table) {
    && (forall i, j :: 0 <= i < j < |t| && t[j].valid ==> t[i].valid)
    && (forall i, j :: 0 <= i < j < |t| && t[j].valid ==> t[i].mac != t[j].mac)
  }

  function NeighborMac(e: Neighbor): Mac { e.mac }

  /** `findSlot`: the flag-blind first match, kept only when it is valid. */
  function FindSlot(t: Table, mac: Mac): (r: nat)
    ensures r <= |t|
    ensures r < |t| ==> t[r].mac == mac && t[r].valid
  {
    var i := FirstIndex(t, (e: Neighbor) => e.mac == mac);
    if i < |t| && t[i].valid then i else |t|
  }

  /** First index of largest distance. */
  predicate IsFarthest(t: Table, k: nat) {
    && k < |t|
    && (forall j :: 0 <= j < |t| ==> t[j].dist <= t[k].dist)
    && (forall j :: 0 <= j < k ==> t[j].dist < t[k].dist)
  }

  function FarthestIndex(t: Table): (r: nat)
    requires t != []
    ensures IsFarthest(t, r)
  {
    var last := |t| - 1;
    if last == 0 then 0
    else
      var k := FarthestIndex(t[..last]);
      assert forall j :: 0 <= j < last ==> t[..last][j] == t[j];
      if t[last].dist > t[k].dist then last else k
  }

  /** `allocateSlot`: first invalid entry, else first stale one, else the farthest. */
  function AllocateSlot(t: Table, now: U64): (r: nat)
    requires t != []
    ensures r < |t|
  {
    var free := FirstIndex(t, (e: Neighbor) => !e.valid);
    if free < |t| then free
    else
      var stale := FirstIndex(t, (e: Neighbor) => Age(now, e.lastSeen) >= STALE_PEER_MS);
      if stale < |t| then stale else FarthestIndex(t)
  }

  /** Where `observe` writes. */
  function SlotFor(t: Table, mac: Mac, now: U64): (r: nat)
    requires t != []
    ensures r < |t|
  {
    var i := FindSlot(t, mac);
    if i < |t| then i else AllocateSlot(t, now)
  }

  function Observed(t: Table, mac: Mac, dist: Byte, now: U64): (r: Table)
    requires t != []
    ensures |r| == |t|
  {
    t[SlotFor(t, mac, now) := Neighbor(mac, dist, true, now)]
  }

  /** `m` is the least distance among the fresh entries of `t`, capped by 0xFF. */
  predicate IsMinFresh(t: Table, now: U64, m: Byte) {
    && (forall e :: e in t && Fresh(e, now) ==> m <= e.dist)
    && (m == NO_DISTANCE || exists e :: e in t && Fresh(e, now) && e.dist == m)
  }

  function MinFresh(t: Table, now: U64): (r: Byte)
    ensures IsMinFresh(t, now, r)
  {
    if t == [] then NO_DISTANCE
    else
      var rest := MinFresh(t[1..], now);
      assert forall e :: e in t <==> e == t[0] || e in t[1..];
      if Fresh(t[0], now) && t[0].dist < rest then
        assert t[0] in t;
        t[0].dist
      else rest
  }

  /** What `observeAndMinDistance` returns: its running minimum spans every other fresh
      entry, the one about to be evicted included. */
  function OnePassMin(t: Table, mac: Mac, dist: Byte, now: U64): Byte {
    var other := MinFresh(Others(t, mac), now);
    if dist < other then dist else other
  }

  function Others(t: Table, mac: Mac): (r: Table)
    ensures forall e :: e in r <==> e in t && e.mac != mac
  {
    if t == [] then []
    else
      var rest := Others(t[1..], mac);
      assert forall e :: e in t <==> e == t[0] || e in t[1..];
      if t[0].mac == mac then rest else [t[0]] + rest
  }

  predicate Eligible(e: Neighbor, own: Byte, now: U64) {
    Fresh(e, now) && e.dist < own
  }

  /** First index of the freshest neighbour strictly closer than `own`. */
  predicate IsBestHop(t: Table, own: Byte, now: U64, k: nat) {
    && k < |t| && Eligible(t[k], own, now)
    && (forall j :: 0 <= j < |t| && Eligible(t[j], own, now) ==> t[j].lastSeen <= t[k].lastSeen)
    && (forall j :: 0 <= j < k && Eligible(t[j], own, now) ==> t[j].lastSeen < t[k].lastSeen)
  }

  function BestHop(t: Table, own: Byte, now: U64): (r: Option<nat>)
    ensures r.Some? ==> IsBestHop(t, own, now, r.value)
    ensures r.None? ==> forall j :: 0 <= j < |t| ==> !Eligible(t[j], own, now)
  {
    if t == [] then None
    else
      var last := |t| - 1;
      var best := BestHop(t[..last], own, now);
      assert forall j :: 0 <= j < last ==> t[..last][j] == t[j];
      if Eligible(t[last], own, now) && (best.None? || t[last].lastSeen > t[best.value].lastSeen)
      then Some(last) else best
  }

  /** `selectNextHop`. */
  function NextHopOf(t: Table, own: Byte, now: U64): Option<Mac> {
    var best := BestHop(t, own, now);
    if best.Some? then Some(t[best.value].mac) else None
  }

  // ---- Properties of the specification ----

  /** On a table whose valid entries form a prefix, the flag-blind scan answers exactly as a
      scan that looks at valid entries only, for every MAC, the all-zero one included. */
  lemma FindSlotIsValidGated(t: Table, mac: Mac)
    requires Inv(t)
    ensures FindSlot(t, mac) == FirstIndex(t, (e: Neighbor) => e.valid && e.mac == mac)
  {
    var i := FirstIndex(t, (e: Neighbor) => e.mac == mac);
    var k := FirstIndex(t, (e: Neighbor) => e.valid && e.mac == mac);
    if k < |t| {
      assert i <= k;
    }
  }

  lemma ObserveKeepsInv(t: Table, mac: Mac, dist: Byte, now: U64)
    requires t != [] && Inv(t)
    ensures Inv(Observed(t, mac, dist, now))
  {
    FindSlotIsValidGated(t, mac);
    var s := SlotFor(t, mac, now);
    var r := Observed(t, mac, dist, now);
    forall i, j | 0 <= i < j < |r| && r[j].valid
      ensures r[i].valid && r[i].mac != r[j].mac
    {
      if j == s {
        assert t[j].valid ==> t[i].valid;
      }
    }
  }

  /** The one-pass minimum equals `observe` followed by `minFreshDistance`, except on a
      one-entry table whose only entry is another fresh, closer neighbour. */
  lemma OnePassExact(t: Table, mac: Mac, dist: Byte, now: U64)
    requires t != [] && Inv(t)
    ensures OnePassMin(t, mac, dist, now) == MinFresh(Observed(t, mac, dist, now), now)
       <==> !(|t| == 1 && Fresh(t[0], now) && t[0].mac != mac && t[0].dist < dist)
  {
    var s := SlotFor(t, mac, now);
    var r := Observed(t, mac, dist, now);
    var one := OnePassMin(t, mac, dist, now);
    assert r[s] == Neighbor(mac, dist, true, now) && r[s] in r;
    FindSlotIsValidGated(t, mac);
    if |t| == 1 {
      assert forall e :: e in r <==> e == r[0];
      assert forall e :: e in t <==> e == t[0];
    } else {
      MinFreshAfterObserve(t, mac, dist, now);
    }
  }

  lemma MinFreshAfterObserve(t: Table, mac: Mac, dist: Byte, now: U64)
    requires |t| >= 2 && Inv(t)
    ensures IsMinFresh(Observed(t, mac, dist, now), now, OnePassMin(t, mac, dist, now))
  {
    var s := SlotFor(t, mac, now);
    var r := Observed(t, mac, dist, now);
    var one := OnePassMin(t, mac, dist, now);
    assert r[s] == Neighbor(mac, dist, true, now) && r[s] in r;
    forall e | e in r && Fresh(e, now)
      ensures one <= e.dist
    {
      var i :| 0 <= i < |r| && r[i] == e;
      if i != s {
        FindSlotIsValidGated(t, mac);
        assert t[i] in Others(t, mac);
      }
    }
    if one < dist {
      MinSurvivesEviction(t, mac, dist, now);
    }
  }

  /** `observe` overwrites a fresh neighbour of another MAC only when every entry is one, and
      then it picks the farthest. */
  lemma EvictedIsFarthest(t: Table, mac: Mac, now: U64)
    requires t != [] && Inv(t)
    requires var s := SlotFor(t, mac, now); Fresh(t[s], now) && t[s].mac != mac
    ensures IsFarthest(t, SlotFor(t, mac, now))
    ensures forall j :: 0 <= j < |t| ==> Fresh(t[j], now) && t[j].mac != mac
  {
    FindSlotIsValidGated(t, mac);
  }

  /** Some fresh entry as close as the closest other neighbour is still there afterwards. */
  lemma MinSurvivesEviction(t: Table, mac: Mac, dist: Byte, now: U64)
    requires |t| >= 2 && Inv(t)
    requires MinFresh(Others(t, mac), now) < dist
    ensures exists e :: e in Observed(t, mac, dist, now) && Fresh(e, now)
                        && e.dist == MinFresh(Others(t, mac), now)
  {
    var s := SlotFor(t, mac, now);
    var r := Observed(t, mac, dist, now);
    var e :| e in Others(t, mac) && Fresh(e, now) && e.dist == MinFresh(Others(t, mac), now);
    var i :| 0 <= i < |t| && t[i] == e;
    if i != s {
      assert r[i] in r;
    } else {
      // Evicted as the farthest: some other entry is just as close, and it stays.
      EvictedIsFarthest(t, mac, now);
      var k := if s == 0 then 1 else 0;
      assert r[k] == t[k] && r[k] in r;
      assert t[k] in Others(t, mac);
    }
  }

  /** An entry the one-pass scan weighs for eviction: valid and not the sender's own. */
  predicate Candidate(e: Neighbor, mac: Mac) {
    e.valid && e.mac != mac
  }

  /** The running indices of the one-pass scan; `n` entries seen, `none` means not found. */
  datatype Scan = Scan(matchIdx: nat, firstInvalid: nat, firstStale: nat, farthest: nat,
                       farthestDist: Byte, bestOther: Byte)

  predicate IndicesSeen(t: Table, mac: Mac, now: U64, n: nat, s: Scan)
    requires n <= |t|
  {
    && (if s.matchIdx == |t| then forall j :: 0 <= j < n && t[j].valid ==> t[j].mac != mac
        else s.matchIdx < n && t[s.matchIdx].valid && t[s.matchIdx].mac == mac)
    && (s.firstInvalid == |t| || (s.firstInvalid < n && !t[s.firstInvalid].valid))
    && (forall j :: 0 <= j < n && j < s.firstInvalid ==> t[j].valid)
    && (s.firstStale == |t|
        || (s.firstStale < n && t[s.firstStale].valid && !Fresh(t[s.firstStale], now)))
    && (forall j :: 0 <= j < n && j < s.firstStale && Candidate(t[j], mac) ==> Fresh(t[j], now))
  }

  predicate DistancesSeen(t: Table, mac: Mac, now: U64, n: nat, s: Scan)
    requires n <= |t|
  {
    && (if s.farthest == |t| then forall j :: 0 <= j < n ==> !Candidate(t[j], mac)
        else s.farthest < n && t[s.farthest].dist == s.farthestDist)
    && (forall j :: 0 <= j < n && Candidate(t[j], mac) ==> t[j].dist <= s.farthestDist)
    && (forall j :: 0 <= j < n && j < s.farthest && Candidate(t[j], mac) ==> t[j].dist < s.farthestDist)
    && (forall j :: 0 <= j < n && Candidate(t[j], mac) && Fresh(t[j], now) ==> s.bestOther <= t[j].dist)
    && (s.bestOther == NO_DISTANCE
        || exists j :: 0 <= j < n && Candidate(t[j], mac) && Fresh(t[j], now) && t[j].dist == s.bestOther)
  }

  /** The loop body on entry `i`. */
  function ScanStep(t: Table, mac: Mac, now: U64, i: nat, s: Scan): Scan
    requires i < |t|
  {
    var e := t[i];
    if !e.valid then
      if s.firstInvalid == |t| then s.(firstInvalid := i) else s
    else if e.mac == mac then s.(matchIdx := i)
    else
      var s1 := if Age(now, e.lastSeen) >= STALE_PEER_MS then
                  if s.firstStale == |t| then s.(firstStale := i) else s
                else if e.dist < s.bestOther then s.(bestOther := e.dist) else s;
      if s.farthest == |t| || e.dist > s.farthestDist
      then s1.(farthestDist := e.dist, farthest := i) else s1
  }

  lemma ScanStepIndices(t: Table, mac: Mac, now: U64, i: nat, s: Scan)
    requires i < |t| && IndicesSeen(t, mac, now, i, s)
    ensures IndicesSeen(t, mac, now, i + 1, ScanStep(t, mac, now, i, s))
  {
  }

  lemma ScanStepDistances(t: Table, mac: Mac, now: U64, i: nat, s: Scan)
    requires i < |t| && DistancesSeen(t, mac, now, i, s)
    ensures DistancesSeen(t, mac, now, i + 1, ScanStep(t, mac, now, i, s))
  {
    var r := ScanStep(t, mac, now, i, s);
    if r.bestOther != NO_DISTANCE && r.bestOther != s.bestOther {
      assert Candidate(t[i], mac) && Fresh(t[i], now) && t[i].dist == r.bestOther;
    }
  }

  function Picked(t: Table, s: Scan): nat {
    if s.matchIdx != |t| then s.matchIdx
    else if s.firstInvalid != |t| then s.firstInvalid
    else if s.firstStale != |t| then s.firstStale
    else s.farthest
  }

  /** After the whole table, the indices of the one-pass scan choose the slot that the three
      separate scans of `observe` choose. */
  lemma ScanPicksSlot(t: Table, mac: Mac, now: U64, s: Scan)
    requires t != [] && Inv(t)
    requires IndicesSeen(t, mac, now, |t|, s) && DistancesSeen(t, mac, now, |t|, s)
    ensures Picked(t, s) == SlotFor(t, mac, now)
  {
    FindSlotIsValidGated(t, mac);
    if s.matchIdx == |t| {
      var free := FirstIndex(t, (e: Neighbor) => !e.valid);
      assert free == s.firstInvalid;
      if free == |t| {
        assert forall j :: 0 <= j < |t| ==> Candidate(t[j], mac);
        var stale := FirstIndex(t, (e: Neighbor) => Age(now, e.lastSeen) >= STALE_PEER_MS);
        assert stale == s.firstStale;
      }
    }
  }

  lemma ScanFoldsMin(t: Table, mac: Mac, now: U64, s: Scan)
    requires DistancesSeen(t, mac, now, |t|, s)
    ensures s.bestOther == MinFresh(Others(t, mac), now)
  {
    var others := Others(t, mac);
    forall e | e in others && Fresh(e, now)
      ensures s.bestOther <= e.dist
    {
      var j :| 0 <= j < |t| && t[j] == e;
      assert Candidate(t[j], mac);
    }
    if s.bestOther != NO_DISTANCE {
      var j :| 0 <= j < |t| && Candidate(t[j], mac) && Fresh(t[j], now) && t[j].dist == s.bestOther;
      assert t[j] in others;
    }
  }

  // ---- The class ----

  class NeighborTable {
    const entries: array<Neighbor>

    ghost function View(): Table
      reads entries
    {
      entries[..]
    }

    ghost predicate Valid()
      reads entries
    {
      entries.Length == NEIGHBOR_MAX && Inv(View())
    }

    constructor ()
      ensures Valid() && fresh(entries)
      ensures View() == NoNeighbors()
    {
      entries := new Neighbor[NEIGHBOR_MAX](i => EMPTY_NEIGHBOR);
      new;
      assert View() == NoNeighbors();
    }

    method FindMacSlot(mac: Mac) returns (r: Option<nat>)
      requires Valid()
      ensures r == if FindSlot(View(), mac) < |View()| then Some(FindSlot(View(), mac)) else None
    {
      var idx := Find(entries, entries.Length, NeighborMac, mac);
      if idx.None? || !entries[idx.value].valid {
        return None;
      }
      return idx;
    }

    method Allocate(now: U64) returns (r: nat)
      requires Valid()
      ensures r == AllocateSlot(View(), now)
    {
      for i := 0 to entries.Length
        invariant forall j :: 0 <= j < i ==> entries[j].valid
      {
        if !entries[i].valid {
          return i;
        }
      }
      for i := 0 to entries.Length
        invariant forall j :: 0 <= j < i ==> Age(now, entries[j].lastSeen) < STALE_PEER_MS
      {
        if Age(now, entries[i].lastSeen) >= STALE_PEER_MS {
          return i;
        }
      }
      r := 0;
      for i := 1 to entries.Length
        invariant r < i
        invariant forall j :: 0 <= j < i ==> entries[j].dist <= entries[r].dist
        invariant forall j :: 0 <= j < r ==> entries[j].dist < entries[r].dist
      {
        if entries[i].dist > entries[r].dist {
          r := i;
        }
      }
      assert IsFarthest(View(), r);
    }

    method Observe(mac: Mac, dist: Byte, now: U64)
      requires Valid()
      modifies entries
      ensures Valid()
      ensures View() == Observed(old(View()), mac, dist, now)
    {
      ObserveKeepsInv(View(), mac, dist, now);
      var found := FindMacSlot(mac);
      var slot: nat;
      if found.Some? {
        slot := found.value;
      } else {
        slot := Allocate(now);
      }
      entries[slot] := Neighbor(mac, dist, true, now);
    }

    method MinFreshDistance(now: U64) returns (best: Byte)
      requires Valid()
      ensures best == MinFresh(View(), now)
    {
      best := NO_DISTANCE;
      for i := 0 to entries.Length
        invariant IsMinFresh(entries[..i], now, best)
      {
        assert forall e :: e in entries[..i + 1] <==> e == entries[i] || e in entries[..i];
        if !entries[i].valid || Age(now, entries[i].lastSeen) >= STALE_PEER_MS {
          continue;
        }
        if entries[i].dist < best {
          best := entries[i].dist;
        }
      }
      assert entries[..entries.Length] == View();
    }

    method SelectNextHop(own: Byte, now: U64) returns (hop: Option<Mac>)
      requires Valid()
      ensures hop == NextHopOf(View(), own, now)
    {
      var best: Option<nat> := None;
      for i := 0 to entries.Length
        invariant best.None? ==> forall j :: 0 <= j < i ==> !Eligible(entries[j], own, now)
        invariant best.Some? ==> IsBestHop(entries[..i], own, now, best.value)
      {
        if Eligible(entries[i], own, now)
           && (best.None? || entries[i].lastSeen > entries[best.value].lastSeen)
        {
          best := Some(i);
        }
      }
      assert entries[..entries.Length] == View();
      if best.None? {
        return None;
      }
      return Some(entries[best.value].mac);
    }

    /** The single loop of `observeAndMinDistance`. */
    method ScanAll(mac: Mac, now: U64) returns (s: Scan)
      requires Valid()
      ensures IndicesSeen(View(), mac, now, |View()|, s) && DistancesSeen(View(), mac, now, |View()|, s)
    {
      ghost var t := View();
      var none := entries.Length;
      s := Scan(none, none, none, none, 0, NO_DISTANCE);
      for i := 0 to entries.Length
        invariant IndicesSeen(t, mac, now, i, s)
        invariant DistancesSeen(t, mac, now, i, s)
      {
        ScanStepIndices(t, mac, now, i, s);
        ScanStepDistances(t, mac, now, i, s);
        var e := entries[i];
        var s1 := s;
        if !e.valid {
          if s.firstInvalid == none {
            s1 := s.(firstInvalid := i);
          }
        } else if e.mac == mac {
          s1 := s.(matchIdx := i);
        } else {
          if Age(now, e.lastSeen) >= STALE_PEER_MS {
            if s.firstStale == none {
              s1 := s.(firstStale := i);
            }
          } else if e.dist < s.bestOther {
            s1 := s.(bestOther := e.dist);
          }
          if s.farthest == none || e.dist > s.farthestDist {
            s1 := s1.(farthestDist := e.dist, farthest := i);
          }
        }
        assert s1 == ScanStep(t, mac, now, i, s);
        s := s1;
      }
    }

    /** One pass over the table leaves what `Observe` leaves and returns what
        `MinFreshDistance` would then return. */
    method ObserveAndMinDistance(mac: Mac, dist: Byte, now: U64) returns (r: Byte)
      requires Valid()
      modifies entries
      ensures Valid()
      ensures View() == Observed(old(View()), mac, dist, now)
      ensures r == MinFresh(View(), now)
    {
      ghost var t := View();
      var s := ScanAll(mac, now);
      ScanPicksSlot(t, mac, now, s);
      ScanFoldsMin(t, mac, now, s);
      OnePassExact(t, mac, dist, now);
      ObserveKeepsInv(t, mac, dist, now);
      var slot := if s.matchIdx != entries.Length then s.matchIdx
                  else if s.firstInvalid != entries.Length then s.firstInvalid
                  else if s.firstStale != entries.Length then s.firstStale
                  else s.farthest;
      entries[slot] := Neighbor(mac, dist, true, now);
      r := if dist < s.bestOther then dist else s.bestOther;
    }
  }
}
