/** `PeerRegistry`: the enrolled peers, in RAM and in flash. */
module Peers {
  import opened Types
  import opened MacTable
  import opened Keys

  datatype Peer = Peer(mac: Mac, key: PubKey, lastSeen: U64)

  /** The live prefix `peerMacs[0 .. peerCount)`. */
  type Registry = seq<Peer>

  type StoredPeers = ps: Registry | |ps| <= MAX_PEERS witness []

  const BLANK_PEER := Peer(ZERO_MAC, NoKey, 0)

  const DEFAULT_PEERS: seq<Mac> :=
    [Mac(0xAA, 0xBB, 0xCC, 0xDD, 0xEE, 0x01), Mac(0xAA, 0xBB, 0xCC, 0xDD, 0xEE, 0x02)]

  predicate Unique(ps: Registry) {
    forall i, j :: 0 <= i < j < |ps| ==> ps[i].mac != ps[j].mac
  }

  predicate RegistryInv(ps: Registry) {
    |ps| <= MAX_PEERS && Unique(ps)
  }

  function PeerMac(p: Peer): Mac { p.mac }

  /** `find`: index of the peer, or `|ps|`. */
  function FindPeer(ps: Registry, mac: Mac): (r: nat)
    ensures r <= |ps|
    ensures r < |ps| ==> ps[r].mac == mac
    ensures forall j :: 0 <= j < r ==> ps[j].mac != mac
  {
    FirstIndex(ps, (p: Peer) => p.mac == mac)
  }

  predicate Known(ps: Registry, mac: Mac) {
    FindPeer(ps, mac) < |ps|
  }

  /** The key on record for a peer; `NoKey` for a stranger. */
  function KeyOf(ps: Registry, mac: Mac): PubKey {
    var i := FindPeer(ps, mac);
    if i < |ps| then ps[i].key else NoKey
  }

  predicate InRange(ps: Registry, mac: Mac, now: U64) {
    var i := FindPeer(ps, mac);
    i < |ps| && Age(now, ps[i].lastSeen) < STALE_PEER_MS
  }

  /** `updateLastSeen`: known peers only, never this device. */
  function Touched(ps: Registry, mac: Mac, self: Mac, now: U64): (r: Registry)
    ensures |r| == |ps|
  {
    var i := FindPeer(ps, mac);
    if mac == self || i == |ps| then ps else ps[i := ps[i].(lastSeen := now)]
  }

  /** `addAndPersist`: a newcomer other than this device goes to the end, if there is room. */
  predicate CanAdd(ps: Registry, mac: Mac, self: Mac) {
    Known(ps, mac) || mac == self || |ps| < MAX_PEERS
  }

  function Added(ps: Registry, mac: Mac, self: Mac, now: U64): (r: Registry)
    ensures r == ps || (|ps| < MAX_PEERS && r == ps + [Peer(mac, NoKey, now)])
    ensures !CanAdd(ps, mac, self) ==> r == ps
  {
    if Known(ps, mac) || mac == self || |ps| >= MAX_PEERS then ps else ps + [Peer(mac, NoKey, now)]
  }

  /** `remove`: the last peer moves into the gap. */
  function Removed(ps: Registry, mac: Mac): Registry {
    var i := FindPeer(ps, mac);
    if i == |ps| then ps else ps[i := ps[|ps| - 1]][..|ps| - 1]
  }

  lemma FindAt(ps: Registry, i: nat)
    requires Unique(ps) && i < |ps|
    ensures FindPeer(ps, ps[i].mac) == i
  {
  }

  /** Swap-with-last removal forgets exactly that peer. */
  lemma RemovedForgetsOne(ps: Registry, mac: Mac)
    requires RegistryInv(ps)
    ensures RegistryInv(Removed(ps, mac)) && !Known(Removed(ps, mac), mac)
    ensures forall p :: p in Removed(ps, mac) <==> p in ps && p.mac != mac
  {
    var i, r := FindPeer(ps, mac), Removed(ps, mac);
    if i < |ps| {
      forall p | p in ps && p.mac != mac
        ensures p in r
      {
        var k :| 0 <= k < |ps| && ps[k] == p;
        assert if k == |ps| - 1 then r[i] == p else r[k] == p;
      }
      assert forall k :: 0 <= k < |r| ==> r[k] == if k == i then ps[|ps| - 1] else ps[k];
    }
  }

  lemma TouchedKeys(ps: Registry, mac: Mac, self: Mac, now: U64)
    ensures RegistryInv(ps) ==> RegistryInv(Touched(ps, mac, self, now))
    ensures forall m :: FindPeer(Touched(ps, mac, self, now), m) == FindPeer(ps, m)
    ensures forall m :: KeyOf(Touched(ps, mac, self, now), m) == KeyOf(ps, m)
  {
    var r := Touched(ps, mac, self, now);
    assert forall k :: 0 <= k < |r| ==> r[k].mac == ps[k].mac && r[k].key == ps[k].key;
    forall m
      ensures FindPeer(r, m) == FindPeer(ps, m)
    {
      var a, b := FindPeer(r, m), FindPeer(ps, m);
      assert a < |r| ==> ps[a].mac == m;
      assert b < |ps| ==> r[b].mac == m;
    }
  }

  // ---- Persistence ----

  /** The "peer0" .. "peer9" keys. */
  datatype Record = Record(mac: Mac, key: PubKey)
  type Flash = map<nat, Record>

  function Stored(p: Peer): Record { Record(p.mac, p.key) }

  /** Flash after `saveToEEPROM`: slots below the count written, the others erased. */
  ghost predicate SavedAs(f: Flash, ps: Registry) {
    && (forall i :: 0 <= i < |ps| ==> i in f && f[i] == Stored(ps[i]))
    && (forall i :: |ps| <= i < MAX_PEERS ==> i !in f)
  }

  /** Flash after the first `k` slots of `saveToEEPROM`. The erasures of the slots in `stuck` fail,
      which the code ignores. */
  function SavedUpTo(f: Flash, ps: Registry, stuck: set<nat>, k: nat): Flash {
    if k == 0 then f
    else
      var g := SavedUpTo(f, ps, stuck, k - 1);
      if k - 1 < |ps| then g[k - 1 := Stored(ps[k - 1])] else if k - 1 in stuck then g else g - {k - 1}
  }

  /** The slots below `k` hold the registry, the others what they held. */
  lemma {:induction false} SlotsUpTo(f: Flash, ps: Registry, stuck: set<nat>, k: nat)
    ensures var g := SavedUpTo(f, ps, stuck, k);
            && (forall i :: 0 <= i < k && i < |ps| ==> i in g && g[i] == Stored(ps[i]))
            && (forall i :: |ps| <= i < k ==> (i in g <==> i in f && i in stuck))
            && (forall i :: k <= i ==> (i in g <==> i in f))
            && (forall i :: |ps| <= i && i in g ==> g[i] == f[i])
            && (forall i :: k <= i && i in f ==> g[i] == f[i])
  {
    if k > 0 {
      SlotsUpTo(f, ps, stuck, k - 1);
    }
  }

  /** Saving a registry that differs from the saved one in one slot is atomic: interrupted
      anywhere, and whatever erasures fail, flash holds the old registry or the new one.
      Registration makes such a change. */
  lemma OneSlotSaveIsAtomic(f: Flash, ps: Registry, qs: Registry, at: nat, stuck: set<nat>, k: nat)
    requires SavedAs(f, ps) && |ps| <= |qs| <= MAX_PEERS && |qs| <= |ps| + 1
    requires at < |qs| && (|qs| > |ps| ==> at == |ps|)
    requires forall i :: 0 <= i < |qs| && i != at ==> Stored(qs[i]) == Stored(ps[i])
    ensures SavedAs(SavedUpTo(f, qs, stuck, k), if k <= at then ps else qs)
  {
    SlotsUpTo(f, qs, stuck, k);
  }

  /** Flash holds one registry or the other. */
  ghost predicate IsOneOf(f: Flash, ps: Registry, qs: Registry) {
    SavedAs(f, ps) || SavedAs(f, qs)
  }

  /** Saving after a removal is not: between the rewrite of the gap and the erasure of the last
      slot, and for good when that erasure fails, flash holds the last peer twice. */
  lemma RemovalSaveIsAtomicIff(f: Flash, ps: Registry, mac: Mac, stuck: set<nat>, k: nat)
    requires SavedAs(f, ps) && RegistryInv(ps) && Known(ps, mac) && k <= MAX_PEERS
    ensures IsOneOf(SavedUpTo(f, Removed(ps, mac), stuck, k), ps, Removed(ps, mac))
       <==> k <= FindPeer(ps, mac) || FindPeer(ps, mac) == |ps| - 1 || (k >= |ps| && |ps| - 1 !in stuck)
  {
    hide SavedUpTo;
    var i, qs := FindPeer(ps, mac), Removed(ps, mac);
    var g := SavedUpTo(f, qs, stuck, k);
    SlotsUpTo(f, qs, stuck, k);
    assert forall j :: 0 <= j < |qs| ==> qs[j] == if j == i then ps[|ps| - 1] else ps[j];
    if i < k && i < |ps| - 1 {
      assert g[i] == Stored(ps[|ps| - 1]) != Stored(ps[i]);
      assert !SavedAs(g, ps);
      if k < |ps| || |ps| - 1 in stuck {
        assert |ps| - 1 in g;
      }
    }
  }

  /** The records `loadFromEEPROM` keeps of the first `n` slots; an all-0xFF MAC marks an empty slot. */
  function LoadedUpTo(f: Flash, n: nat): (r: Registry)
    requires n <= MAX_PEERS
    ensures |r| <= n
    ensures forall p :: p in r ==> p.mac != BROADCAST_MAC
  {
    if n == 0 then []
    else
      var r := LoadedUpTo(f, n - 1);
      var i := n - 1;
      if i in f && f[i].mac != BROADCAST_MAC then r + [Peer(f[i].mac, f[i].key, 0)] else r
  }

  function Defaults(): Registry {
    seq(|DEFAULT_PEERS|, i requires 0 <= i < |DEFAULT_PEERS| => Peer(DEFAULT_PEERS[i], NoKey, 0))
  }

  function Loaded(f: Flash): Registry {
    var r := LoadedUpTo(f, MAX_PEERS);
    if r == [] then Defaults() else r
  }

  /** The registry as a reboot would keep it. */
  function Rested(ps: Registry): Registry {
    seq(|ps|, i requires 0 <= i < |ps| => ps[i].(lastSeen := 0))
  }

  predicate Storable(ps: Registry) {
    ps != [] && forall i :: 0 <= i < |ps| ==> ps[i].mac != BROADCAST_MAC
  }

  lemma {:induction false} LoadedPrefix(f: Flash, ps: Registry, n: nat)
    requires |ps| <= MAX_PEERS && SavedAs(f, ps) && n <= MAX_PEERS
    requires forall k :: 0 <= k < |ps| ==> ps[k].mac != BROADCAST_MAC
    ensures LoadedUpTo(f, n) == Rested(ps)[..if n <= |ps| then n else |ps|]
  {
    if n > 0 {
      LoadedPrefix(f, ps, n - 1);
    }
  }

  /** A reboot restores the saved registry exactly when it is non-empty and holds no all-0xFF
      MAC: an empty one comes back as the configured defaults, and such a peer is dropped. */
  lemma ReloadRestores(f: Flash, ps: Registry)
    requires |ps| <= MAX_PEERS && SavedAs(f, ps)
    ensures Loaded(f) == Rested(ps) <==> Storable(ps)
  {
    if Storable(ps) || ps == [] {
      LoadedPrefix(f, ps, MAX_PEERS);
    } else {
      var k :| 0 <= k < |ps| && ps[k].mac == BROADCAST_MAC;
      var r := Loaded(f);
      assert forall j :: 0 <= j < |r| ==> r[j] in r;
      assert k < |r| ==> r[k].mac != Rested(ps)[k].mac;
    }
  }

  /** What reload finds in a slot. */
  function InSlot(f: Flash, i: nat): Registry {
    if i in f && f[i].mac != BROADCAST_MAC then [Peer(f[i].mac, f[i].key, 0)] else []
  }

  /** The records in slots `from ..`. */
  function FoundFrom(f: Flash, from: nat): Registry
    requires from <= MAX_PEERS
    decreases MAX_PEERS - from
  {
    if from == MAX_PEERS then [] else InSlot(f, from) + FoundFrom(f, from + 1)
  }

  lemma LoadedNext(f: Flash, n: nat)
    requires n < MAX_PEERS
    ensures LoadedUpTo(f, n + 1) == LoadedUpTo(f, n) + InSlot(f, n)
    ensures FoundFrom(f, n) == InSlot(f, n) + FoundFrom(f, n + 1)
  {
  }

  lemma Regroup(a: Registry, b: Registry, c: Registry)
    ensures (a + b) + c == a + (b + c)
  {
  }

  lemma {:induction false} LoadedParts(f: Flash, n: nat)
    requires n <= MAX_PEERS
    ensures LoadedUpTo(f, MAX_PEERS) == LoadedUpTo(f, n) + FoundFrom(f, n)
    decreases MAX_PEERS - n
  {
    if n == MAX_PEERS {
      assert LoadedUpTo(f, n) + [] == LoadedUpTo(f, n);
    } else {
      hide LoadedUpTo, FoundFrom, InSlot;
      LoadedParts(f, n + 1);
      LoadedNext(f, n);
      Regroup(LoadedUpTo(f, n), InSlot(f, n), FoundFrom(f, n + 1));
    }
  }

  /** After a save a reload restores the registry and, behind it, every old record whose erasure
      failed. */
  lemma ReloadAfterSave(f: Flash, ps: Registry, stuck: set<nat>)
    requires |ps| <= MAX_PEERS && Storable(ps)
    ensures var g := SavedUpTo(f, ps, stuck, MAX_PEERS); Loaded(g) == Rested(ps) + FoundFrom(g, |ps|)
  {
    hide LoadedUpTo, FoundFrom;
    var g := SavedUpTo(f, ps, stuck, MAX_PEERS);
    SlotsUpTo(f, ps, stuck, MAX_PEERS);
    LoadedParts(g, |ps|);
    forall i | 0 <= i < |ps|
      ensures i in g && g[i] == Stored(ps[i])
    {
    }
    LoadedHead(g, ps, |ps|);
    assert Rested(ps)[..|ps|] == Rested(ps);
  }

  /** So it restores exactly the registry if and only if no such record is left. */
  lemma ReloadIsExactIff(f: Flash, ps: Registry, stuck: set<nat>)
    requires |ps| <= MAX_PEERS && Storable(ps)
    ensures Loaded(SavedUpTo(f, ps, stuck, MAX_PEERS)) == Rested(ps)
       <==> forall i :: |ps| <= i < MAX_PEERS && i in stuck && i in f ==> f[i].mac == BROADCAST_MAC
  {
    hide SavedUpTo, Loaded, FoundFrom;
    var g := SavedUpTo(f, ps, stuck, MAX_PEERS);
    SlotsUpTo(f, ps, stuck, MAX_PEERS);
    ReloadAfterSave(f, ps, stuck);
    NothingFoundIff(g, |ps|);
    assert FoundFrom(g, |ps|) == [] ==> Rested(ps) + FoundFrom(g, |ps|) == Rested(ps);
    forall i | |ps| <= i < MAX_PEERS
      ensures InSlot(g, i) == [] <==> (i in stuck && i in f ==> f[i].mac == BROADCAST_MAC)
    {
      assert i in g <==> i in f && i in stuck;
    }
  }

  lemma {:induction false} LoadedHead(g: Flash, ps: Registry, n: nat)
    requires n <= |ps| <= MAX_PEERS && Storable(ps)
    requires forall i :: 0 <= i < |ps| ==> i in g && g[i] == Stored(ps[i])
    ensures LoadedUpTo(g, n) == Rested(ps)[..n]
  {
    if n > 0 {
      LoadedHead(g, ps, n - 1);
    }
  }

  lemma {:induction false} NothingFoundIff(f: Flash, from: nat)
    requires from <= MAX_PEERS
    ensures FoundFrom(f, from) == [] <==> forall i :: from <= i < MAX_PEERS ==> InSlot(f, i) == []
    decreases MAX_PEERS - from
  {
    if from < MAX_PEERS {
      NothingFoundIff(f, from + 1);
    }
  }

  /** A removal whose last erasure fails: the last peer comes back behind the others, and with it the
      removed one if it was the last. */
  lemma LastPeerComesBack(f: Flash, ps: Registry, mac: Mac, stuck: set<nat>)
    requires SavedAs(f, ps) && RegistryInv(ps) && Storable(ps) && Known(ps, mac) && |ps| > 1 && |ps| - 1 in stuck
    ensures Loaded(SavedUpTo(f, Removed(ps, mac), stuck, MAX_PEERS))
         == Rested(Removed(ps, mac)) + [ps[|ps| - 1].(lastSeen := 0)]
  {
    hide SavedUpTo, LoadedUpTo, FoundFrom, Loaded;
    var qs, last := Removed(ps, mac), |ps| - 1;
    var g := SavedUpTo(f, qs, stuck, MAX_PEERS);
    RemovedStorable(ps, mac);
    SlotsUpTo(f, qs, stuck, MAX_PEERS);
    ReloadAfterSave(f, qs, stuck);
    OnlyLastFound(g, last);
    assert InSlot(g, last) == [ps[last].(lastSeen := 0)];
  }

  lemma RemovedStorable(ps: Registry, mac: Mac)
    requires Known(ps, mac) && Storable(ps) && |ps| > 1
    ensures Storable(Removed(ps, mac)) && |Removed(ps, mac)| == |ps| - 1
  {
    var qs := Removed(ps, mac);
    assert forall j :: 0 <= j < |qs| ==> qs[j] == if j == FindPeer(ps, mac) then ps[|ps| - 1] else ps[j];
  }

  lemma OnlyLastFound(g: Flash, last: nat)
    requires last < MAX_PEERS && forall i :: last < i < MAX_PEERS ==> i !in g
    ensures FoundFrom(g, last) == InSlot(g, last)
  {
    hide FoundFrom;
    forall i | last + 1 <= i < MAX_PEERS
      ensures InSlot(g, i) == []
    {
    }
    NothingFoundIff(g, last + 1);
    LoadedNext(g, last);
    assert InSlot(g, last) + [] == InSlot(g, last);
  }

  // ---- The class ----

  class PeerRegistry {
    const slots: array<Peer>
    var count: nat
    var flash: Flash
    // Slots that flash will not erase.
    var stuck: set<nat>

    ghost function View(): Registry
      requires count <= slots.Length
      reads this, slots
    {
      slots[..count]
    }

    ghost predicate Valid()
      reads this, slots
    {
      slots.Length == MAX_PEERS && count <= MAX_PEERS
    }

    constructor (saved: Flash, refused: set<nat>)
      ensures Valid() && fresh(slots) && View() == [] && flash == saved && stuck == refused
    {
      slots := new Peer[MAX_PEERS](i => BLANK_PEER);
      count, flash, stuck := 0, saved, refused;
    }

    method FindIndex(mac: Mac) returns (r: Option<nat>)
      requires Valid()
      ensures r == if Known(View(), mac) then Some(FindPeer(View(), mac)) else None
    {
      r := Find(slots, count, PeerMac, mac);
    }

    method Append(peer: Peer) returns (ok: bool)
      requires Valid()
      modifies this`count, slots
      ensures Valid()
      ensures ok == (|old(View())| < MAX_PEERS)
      ensures View() == if ok then old(View()) + [peer] else old(View())
    {
      if count >= MAX_PEERS {
        return false;
      }
      slots[count] := peer;
      count := count + 1;
      return true;
    }

    method Remove(mac: Mac)
      requires Valid()
      modifies this`count, slots
      ensures Valid()
      ensures View() == Removed(old(View()), mac)
    {
      var i := 0;
      while i < count
        invariant i <= count
        invariant forall j :: 0 <= j < i ==> slots[j].mac != mac
      {
        if slots[i].mac == mac {
          break;
        }
        i := i + 1;
      }
      assert FindPeer(View(), mac) == i;
      if i < count {
        count := count - 1;
        slots[i] := slots[count];
      }
    }

    method SetKey(i: nat, key: PubKey, now: U64)
      requires Valid() && i < |View()|
      modifies slots
      ensures Valid()
      ensures View() == old(View())[i := Peer(old(View())[i].mac, key, now)]
    {
      slots[i] := Peer(slots[i].mac, key, now);
    }

    method UpdateLastSeen(mac: Mac, self: Mac, now: U64)
      requires Valid()
      modifies slots
      ensures Valid()
      ensures View() == Touched(old(View()), mac, self, now)
    {
      if mac == self {
        return;
      }
      var p := FindIndex(mac);
      if p.Some? {
        slots[p.value] := slots[p.value].(lastSeen := now);
      }
    }

    method IsPeerInRange(mac: Mac, now: U64) returns (r: bool)
      requires Valid()
      ensures r == InRange(View(), mac, now)
    {
      var p := FindIndex(mac);
      return p.Some? && Age(now, slots[p.value].lastSeen) < STALE_PEER_MS;
    }

    /** One key per slot, in order. The write of slot `fault`, if it is made at all, is reported
        failed and restarts the device; it may or may not have reached flash. The erasures of
        `stuck` slots fail unnoticed. */
    method SaveToEeprom(fault: nat, reached: bool) returns (ok: bool)
      requires Valid()
      modifies this`flash
      ensures Valid() && ok == (fault >= |View()|)
      ensures flash == SavedUpTo(old(flash), View(), stuck,
                                 if ok then MAX_PEERS else if reached then fault + 1 else fault)
    {
      for i := 0 to MAX_PEERS
        invariant i <= fault || count <= fault
        invariant flash == SavedUpTo(old(flash), View(), stuck, i)
      {
        if i < count {
          if i == fault && !reached {
            return false;
          }
          flash := flash[i := Record(slots[i].mac, slots[i].key)];
          if i == fault {
            return false;
          }
        } else if i !in stuck {
          flash := flash - {i};
        }
      }
      return true;
    }

    /** `addAndPersist`: false when the registry is full, a fault that restarts the device. */
    method AddAndPersist(mac: Mac, self: Mac, now: U64) returns (ok: bool)
      requires Valid()
      modifies this`count, this`flash, slots
      ensures Valid() && ok == CanAdd(old(View()), mac, self) && View() == Added(old(View()), mac, self, now)
      ensures flash == if View() == old(View()) then old(flash)
                       else SavedUpTo(old(flash), View(), stuck, MAX_PEERS)
    {
      var p := FindIndex(mac);
      if p.Some? || mac == self {
        return true;
      }
      if count >= MAX_PEERS {
        return false;
      }
      ok := Append(Peer(mac, NoKey, now));
      var saved := SaveToEeprom(MAX_PEERS, true);
    }

    /** `removeAndPersist`, but for the radio. */
    method RemoveAndPersist(mac: Mac)
      requires Valid()
      modifies this`count, this`flash, slots
      ensures Valid() && View() == Removed(old(View()), mac)
      ensures flash == SavedUpTo(old(flash), View(), stuck, MAX_PEERS)
    {
      Remove(mac);
      var saved := SaveToEeprom(MAX_PEERS, true);
    }

    method AppendDefaults()
      requires Valid() && count == 0
      modifies this`count, slots
      ensures Valid() && View() == Defaults()
    {
      for i := 0 to |DEFAULT_PEERS|
        invariant count == i && slots[..i] == Defaults()[..i]
      {
        slots[count] := Peer(DEFAULT_PEERS[i], NoKey, 0);
        count := count + 1;
      }
    }

    method AppendRecords()
      requires Valid() && count == 0
      modifies this`count, slots
      ensures Valid() && View() == LoadedUpTo(flash, MAX_PEERS)
    {
      for i := 0 to MAX_PEERS
        invariant count <= i && View() == LoadedUpTo(flash, i)
      {
        if i in flash && flash[i].mac != BROADCAST_MAC {
          slots[count] := Peer(flash[i].mac, flash[i].key, 0);
          count := count + 1;
        }
      }
    }

    /** Whatever the flash holds, RAM becomes the records in slot order, or the defaults. */
    method LoadFromEeprom()
      requires Valid()
      modifies this`count, slots
      ensures Valid() && View() == Loaded(flash)
    {
      count := 0;
      AppendRecords();
      if count == 0 {
        AppendDefaults();
      }
    }
  }
}
