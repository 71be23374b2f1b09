/** `RouteTable.h`: the master's record of each node's relay path. */
module Routes {
  import opened Types
  import opened MacTable
  import opened Message

  datatype Route = Route(mac: Mac, pathLen: Byte, valid: bool, lastSeen: U64, path: RoutePath)

  type Table = seq<Route>

  const NO_ROUTE := Route(ZERO_MAC, 0, false, 0, EMPTY_PATH)

  function RouteMac(e: Route): Mac { e.mac }
  function RouteTime(e: Route): U64 { e.lastSeen }

  /** Valid routes form a prefix, carry distinct nodes and never exceed the hop limit. */
  predicate Inv(t: Table) {
    && (forall i, j :: 0 <= i < j < |t| && t[j].valid ==> t[i].valid)
    && (forall i, j :: 0 <= i < j < |t| && t[j].valid ==> t[i].mac != t[j].mac)
    && (forall i :: 0 <= i < |t| ==> t[i].pathLen <= MAX_HOPS)
  }

  function FindSlot(t: Table, mac: Mac): (r: nat)
    ensures r <= |t|
    ensures r < |t| ==> t[r].valid && t[r].mac == mac
    ensures Inv(t) && r == |t| ==> forall j :: 0 <= j < |t| && t[j].valid ==> t[j].mac != mac
  {
    var i := FirstIndex(t, (e: Route) => e.mac == mac);
    if i < |t| && t[i].valid then i else |t|
  }

  function AllocateSlot(t: Table): (r: nat)
    requires t != []
    ensures r < |t|
    ensures forall j :: 0 <= j < r && !t[r].valid ==> t[j].valid
    ensures t[r].valid ==> forall j :: 0 <= j < |t| ==> t[j].valid
    ensures t[r].valid ==> IsOldest(t, RouteTime, r)
  {
    var free := FirstIndex(t, (e: Route) => !e.valid);
    if free < |t| then free else OldestIndex(t, RouteTime)
  }

  function TargetSlot(t: Table, mac: Mac): (r: nat)
    requires t != []
    ensures r < |t|
  {
    var i := FindSlot(t, mac);
    if i < |t| then i else AllocateSlot(t)
  }

  /** `record`: an overlong path is ignored; a shorter one overwrites only its own slots. */
  function Recorded(t: Table, mac: Mac, path: RoutePath, pathLen: Byte, now: U64): (r: Table)
    requires t != []
    ensures |r| == |t|
  {
    if pathLen > MAX_HOPS then t
    else
      var s := TargetSlot(t, mac);
      t[s := Route(mac, pathLen, true, now, path[..pathLen] + t[s].path[pathLen..])]
  }

  /** `lookup`: the stored path, in origin-to-master order. */
  function PathTo(t: Table, mac: Mac): Option<seq<Mac>> {
    var i := FindSlot(t, mac);
    if i < |t| && t[i].pathLen <= MAX_HOPS then Some(t[i].path[..t[i].pathLen]) else None
  }

  function NoRoutes(): Table {
    seq(ROUTE_TABLE_MAX, i => NO_ROUTE)
  }

  lemma RecordedKeepsInv(t: Table, mac: Mac, path: RoutePath, pathLen: Byte, now: U64)
    requires t != [] && Inv(t)
    ensures Inv(Recorded(t, mac, path, pathLen, now))
  {
    if pathLen <= MAX_HOPS {
      var s := TargetSlot(t, mac);
      var r := Recorded(t, mac, path, pathLen, now);
      forall i, j | 0 <= i < j < |r| && r[j].valid
        ensures r[i].valid && r[i].mac != r[j].mac
      {
        if j == s {
          assert t[j].valid ==> t[i].valid;
        }
      }
    }
  }

  lemma SlotOfValid(t: Table, i: nat)
    requires Inv(t) && i < |t| && t[i].valid
    ensures FindSlot(t, t[i].mac) == i
  {
  }

  /** A path just recorded is the one found. */
  lemma PathAfterRecord(t: Table, mac: Mac, path: RoutePath, pathLen: Byte, now: U64)
    requires t != [] && Inv(t) && pathLen <= MAX_HOPS
    ensures PathTo(Recorded(t, mac, path, pathLen, now), mac) == Some(path[..pathLen])
  {
    var s := TargetSlot(t, mac);
    var r := Recorded(t, mac, path, pathLen, now);
    RecordedKeepsInv(t, mac, path, pathLen, now);
    SlotOfValid(r, s);
    assert r[s].path[..pathLen] == path[..pathLen];
  }

  /** Recording one node's path leaves every other node's path in place, except that of the
      oldest entry of a full table when the node is new. */
  lemma OtherPathsStay(t: Table, mac: Mac, path: RoutePath, pathLen: Byte, now: U64, other: Mac)
    requires t != [] && Inv(t) && other != mac
    ensures var r := Recorded(t, mac, path, pathLen, now);
            PathTo(r, other) == PathTo(t, other)
            || (PathTo(r, other) == None && FindSlot(t, mac) == |t|
                && IsOldest(t, RouteTime, FindSlot(t, other)))
  {
    if pathLen <= MAX_HOPS {
      var s := TargetSlot(t, mac);
      var r := Recorded(t, mac, path, pathLen, now);
      RecordedKeepsInv(t, mac, path, pathLen, now);
      var i := FindSlot(t, other);
      if i < |t| && i != s {
        assert r[i] == t[i];
        SlotOfValid(r, i);
      }
    }
  }

  class RouteTable {
    const entries: array<Route>

    ghost function View(): Table
      reads entries
    {
      entries[..]
    }

    ghost predicate Valid()
      reads entries
    {
      entries.Length == ROUTE_TABLE_MAX && Inv(View())
    }

    constructor ()
      ensures Valid() && fresh(entries)
      ensures View() == NoRoutes()
    {
      entries := new Route[ROUTE_TABLE_MAX](i => NO_ROUTE);
      new;
      assert View() == NoRoutes();
    }

    method FreeOrOldest() returns (slot: nat)
      requires Valid()
      ensures slot == AllocateSlot(View())
    {
      for i := 0 to entries.Length
        invariant forall j :: 0 <= j < i ==> entries[j].valid
      {
        if !entries[i].valid {
          return i;
        }
      }
      slot := EvictOldest(entries, entries.Length, RouteTime);
      assert entries[..entries.Length] == View();
    }

    /** `findSlot`, else `allocateSlot`. */
    method SlotFor(mac: Mac) returns (slot: nat)
      requires Valid()
      ensures slot == TargetSlot(View(), mac)
    {
      var found := Find(entries, entries.Length, RouteMac, mac);
      if found.Some? && entries[found.value].valid {
        return found.value;
      }
      slot := FreeOrOldest();
    }

    method Record(mac: Mac, path: RoutePath, pathLen: Byte, now: U64)
      requires Valid()
      modifies entries
      ensures Valid()
      ensures View() == Recorded(old(View()), mac, path, pathLen, now)
    {
      RecordedKeepsInv(View(), mac, path, pathLen, now);
      if pathLen > MAX_HOPS {
        return;
      }
      var slot := SlotFor(mac);
      entries[slot] := Route(mac, pathLen, true, now, path[..pathLen] + entries[slot].path[pathLen..]);
    }

    /** A fresh table, as a device gets that stops being a master. */
    method Clear()
      requires Valid()
      modifies entries
      ensures Valid() && View() == NoRoutes()
    {
      forall i | 0 <= i < entries.Length {
        entries[i] := NO_ROUTE;
      }
      assert View() == NoRoutes();
    }

    method Lookup(mac: Mac) returns (path: Option<seq<Mac>>)
      requires Valid()
      ensures path == PathTo(View(), mac)
    {
      var idx := Find(entries, entries.Length, RouteMac, mac);
      if idx.None? || !entries[idx.value].valid {
        return None;
      }
      var e := entries[idx.value];
      return Some(e.path[..e.pathLen]);
    }
  }
}
