/** `ReplayCache`: per-origin high-water marks over a bounded table. */
module Replay {
  import opened Types
  import opened MacTable

  datatype Slot = Slot(epoch: U32, lastSeen: U64, seqNum: U16, mac: Mac, used: bool)

  type Cache = seq<Slot>

  const FREE := Slot(0, 0, 0, ZERO_MAC, false)

  function EmptyCache(): Cache {
    seq(REPLAY_MAX_ORIGINS, i => FREE)
  }

  /** What the replay gate reads of a frame, and when it reads it. */
  datatype Frame = Frame(origin: Mac, epoch: U32, seqNum: U16, now: U64)

  function MarkOf(f: Frame): Mark { Mark(f.epoch, f.seqNum) }

  function SlotMac(s: Slot): Mac { s.mac }
  function SlotTime(s: Slot): U64 { s.lastSeen }

  /** Used slots form a prefix and carry distinct origins. */
  predicate Inv(t: Cache) {
    && (forall i, j :: 0 <= i < j < |t| && t[j].used ==> t[i].used)
    && (forall i, j :: 0 <= i < j < |t| && t[j].used ==> t[i].mac != t[j].mac)
  }

  /** The used slot of an origin through the flag-blind scan, or `|t|`. */
  function FindSlot(t: Cache, mac: Mac): (r: nat)
    ensures r <= |t|
    ensures r < |t| ==> t[r].used && t[r].mac == mac
    ensures Inv(t) && r == |t| ==> forall j :: 0 <= j < |t| && t[j].used ==> t[j].mac != mac
  {
    var i := FirstIndex(t, (s: Slot) => s.mac == mac);
    if i < |t| && t[i].used then i else |t|
  }

  /** First unused slot, else the least recently seen one. */
  function AllocateSlot(t: Cache): (r: nat)
    requires t != []
    ensures r < |t|
    ensures forall j :: 0 <= j < r && !t[r].used ==> t[j].used
    ensures t[r].used ==> forall j :: 0 <= j < |t| ==> t[j].used
    ensures t[r].used ==> IsOldest(t, SlotTime, r)
  {
    var free := FirstIndex(t, (s: Slot) => !s.used);
    if free < |t| then free else OldestIndex(t, SlotTime)
  }

  function TargetSlot(t: Cache, mac: Mac): (r: nat)
    requires t != []
    ensures r < |t|
  {
    var i := FindSlot(t, mac);
    if i < |t| then i else AllocateSlot(t)
  }

  predicate IsReplayOf(t: Cache, f: Frame) {
    var i := FindSlot(t, f.origin);
    i < |t| && !Newer(MarkOf(f), Mark(t[i].epoch, t[i].seqNum))
  }

  function Admit(t: Cache, f: Frame): (r: Cache)
    requires t != []
    ensures |r| == |t|
  {
    if IsReplayOf(t, f) then t
    else t[TargetSlot(t, f.origin) := Slot(f.epoch, f.now, f.seqNum, f.origin, true)]
  }

  lemma AdmitKeepsInv(t: Cache, f: Frame)
    requires t != [] && Inv(t)
    ensures Inv(Admit(t, f))
  {
    var s := TargetSlot(t, f.origin);
    var r := Admit(t, f);
    if !IsReplayOf(t, f) {
      forall i, j | 0 <= i < j < |r| && r[j].used
        ensures r[i].used && r[i].mac != r[j].mac
      {
        if j == s {
          assert t[j].used ==> t[i].used;
        }
      }
    }
  }

  // ---- Refinement of the unbounded high-water map ----

  /** The marks a cache holds. */
  ghost function HighWater(t: Cache): map<Mac, Mark> {
    map m | m in UsedMacs(t) :: var i := FindSlot(t, m);
      if i < |t| then Mark(t[i].epoch, t[i].seqNum) else Mark(0, 0)
  }

  ghost function UsedMacs(t: Cache): set<Mac> {
    set s | s in t && s.used :: s.mac
  }

  predicate IdealReplay(m: map<Mac, Mark>, f: Frame) {
    f.origin in m && !Newer(MarkOf(f), m[f.origin])
  }

  function IdealAdmit(m: map<Mac, Mark>, f: Frame): map<Mac, Mark> {
    if IdealReplay(m, f) then m else m[f.origin := MarkOf(f)]
  }

  /** The drop decisions along a run. */
  function Answers(t: Cache, fs: seq<Frame>): seq<bool>
    requires t != []
    decreases fs
  {
    if fs == [] then [] else [IsReplayOf(t, fs[0])] + Answers(Admit(t, fs[0]), fs[1..])
  }

  function IdealAnswers(m: map<Mac, Mark>, fs: seq<Frame>): seq<bool>
    decreases fs
  {
    if fs == [] then [] else [IdealReplay(m, fs[0])] + IdealAnswers(IdealAdmit(m, fs[0]), fs[1..])
  }

  function Origins(fs: seq<Frame>): set<Mac> {
    set f | f in fs :: f.origin
  }

  lemma SlotOfUsed(t: Cache, i: nat)
    requires Inv(t) && i < |t| && t[i].used
    ensures FindSlot(t, t[i].mac) == i
  {
  }

  lemma HighWaterAt(t: Cache, mac: Mac)
    requires Inv(t)
    ensures mac in HighWater(t) <==> FindSlot(t, mac) < |t|
    ensures var i := FindSlot(t, mac);
            i < |t| ==> HighWater(t)[mac] == Mark(t[i].epoch, t[i].seqNum)
  {
    var i := FindSlot(t, mac);
    if i < |t| {
      assert t[i] in t;
    }
  }

  /** A cache whose used slots are all taken holds as many origins as it has slots. */
  lemma {:induction false} FullCacheSize(t: Cache)
    requires Inv(t) && forall j :: 0 <= j < |t| ==> t[j].used
    ensures |UsedMacs(t)| == |t|
  {
    if t != [] {
      var last := |t| - 1;
      var rest := t[..last];
      assert forall j :: 0 <= j < last ==> rest[j] == t[j];
      FullCacheSize(rest);
      assert UsedMacs(t) == UsedMacs(rest) + {t[last].mac} by {
        assert forall s :: s in t <==> s in rest || s == t[last];
      }
      assert t[last].mac !in UsedMacs(rest);
    }
  }

  /** With room for every origin, a new origin never evicts another. */
  lemma NoEviction(t: Cache, mac: Mac, all: set<Mac>)
    requires t != [] && Inv(t)
    requires UsedMacs(t) <= all && mac in all && |all| <= |t|
    requires FindSlot(t, mac) == |t|
    ensures !t[AllocateSlot(t)].used
  {
    if t[AllocateSlot(t)].used {
      // A full cache would already hold |t| origins other than this one.
      FullCacheSize(t);
      SubsetSize(UsedMacs(t), all - {mac});
      assert false;
    }
  }

  /** Writing an origin's own or an unused slot leaves every other origin's slot alone. */
  lemma OtherSlotsStay(t: Cache, s: nat, e: Slot, m: Mac)
    requires Inv(t) && s < |t| && Inv(t[s := e]) && e.used && e.mac != m
    requires t[s].used ==> t[s].mac == e.mac
    ensures var i := FindSlot(t, m); FindSlot(t[s := e], m) == i && (i < |t| ==> t[s := e][i] == t[i])
  {
    var i := FindSlot(t, m);
    if i < |t| {
      SlotOfUsed(t[s := e], i);
    }
  }

  /** With room for every origin, one step of the cache is one step of the map. */
  lemma AdmitRefines(t: Cache, f: Frame, all: set<Mac>)
    requires t != [] && Inv(t)
    requires UsedMacs(t) <= all && f.origin in all && |all| <= |t|
    ensures IsReplayOf(t, f) == IdealReplay(HighWater(t), f)
    ensures HighWater(Admit(t, f)) == IdealAdmit(HighWater(t), f)
    ensures UsedMacs(Admit(t, f)) <= all
  {
    HighWaterAt(t, f.origin);
    if !IsReplayOf(t, f) {
      var s := TargetSlot(t, f.origin);
      var r := Admit(t, f);
      AdmitKeepsInv(t, f);
      if FindSlot(t, f.origin) == |t| {
        NoEviction(t, f.origin, all);
      }
      SlotOfUsed(r, s);
      forall m
        ensures m in HighWater(r) <==> m in IdealAdmit(HighWater(t), f)
        ensures m in HighWater(r) ==> HighWater(r)[m] == IdealAdmit(HighWater(t), f)[m]
      {
        HighWaterAt(t, m);
        HighWaterAt(r, m);
        if m != f.origin {
          OtherSlotsStay(t, s, r[s], m);
        }
      }
    }
  }

  lemma SubsetSize<T>(a: set<T>, b: set<T>)
    requires a <= b
    ensures |a| <= |b|
  {
    assert b == a + (b - a);
  }

  /** On any run that meets at most as many origins as the cache has slots, the cache drops
      exactly the frames the unbounded high-water map would drop. */
  lemma {:induction false} CacheRefinesHighWaterMap(t: Cache, fs: seq<Frame>, all: set<Mac>)
    requires t != [] && Inv(t)
    requires UsedMacs(t) <= all && Origins(fs) <= all && |all| <= |t|
    ensures Answers(t, fs) == IdealAnswers(HighWater(t), fs)
    decreases fs
  {
    if fs != [] {
      assert fs[0].origin in Origins(fs);
      assert Origins(fs[1..]) <= Origins(fs);
      AdmitRefines(t, fs[0], all);
      AdmitKeepsInv(t, fs[0]);
      CacheRefinesHighWaterMap(Admit(t, fs[0]), fs[1..], all);
    }
  }

  /** From boot: twelve origins or fewer, and the cache is the unbounded map. */
  lemma FreshCacheRefinesMap(fs: seq<Frame>)
    requires |Origins(fs)| <= REPLAY_MAX_ORIGINS
    ensures Answers(EmptyCache(), fs) == IdealAnswers(map[], fs)
  {
    var t := EmptyCache();
    assert HighWater(t) == map[];
    CacheRefinesHighWaterMap(t, fs, Origins(fs));
  }

  // ---- No frame is accepted twice while its origin keeps its slot ----

  /** The cache before frame `k` of a run. */
  function StateAt(t: Cache, fs: seq<Frame>, k: nat): (r: Cache)
    requires t != [] && k <= |fs|
    ensures |r| == |t|
  {
    if k == 0 then t else Admit(StateAt(t, fs, k - 1), fs[k - 1])
  }

  predicate Accepted(t: Cache, fs: seq<Frame>, k: nat)
    requires t != [] && k < |fs|
  {
    !IsReplayOf(StateAt(t, fs, k), fs[k])
  }

  /** The origin holds a slot before every frame in `from..upto`. */
  predicate Held(t: Cache, fs: seq<Frame>, mac: Mac, from: nat, upto: nat)
    requires t != [] && upto <= |fs|
  {
    forall k :: from <= k < upto ==> FindSlot(StateAt(t, fs, k), mac) < |t|
  }

  lemma {:induction false} StateInv(t: Cache, fs: seq<Frame>, k: nat)
    requires t != [] && Inv(t) && k <= |fs|
    ensures Inv(StateAt(t, fs, k))
  {
    if k > 0 {
      StateInv(t, fs, k - 1);
      AdmitKeepsInv(StateAt(t, fs, k - 1), fs[k - 1]);
    }
  }

  /** After accepting a frame, and for as long as its origin is not evicted, the stored mark
      never falls below the frame's. */
  lemma {:induction false} MarkNeverFalls(t: Cache, fs: seq<Frame>, i: nat, k: nat)
    requires t != [] && Inv(t) && i < k <= |fs|
    requires Accepted(t, fs, i)
    requires Held(t, fs, fs[i].origin, i + 1, k)
    ensures var s := StateAt(t, fs, k); var x := FindSlot(s, fs[i].origin);
            x < |s| ==> !Newer(MarkOf(fs[i]), Mark(s[x].epoch, s[x].seqNum))
  {
    var origin := fs[i].origin;
    var before := StateAt(t, fs, k - 1);
    var s := StateAt(t, fs, k);
    StateInv(t, fs, k - 1);
    StateInv(t, fs, k);
    if k == i + 1 {
      var slot := TargetSlot(before, origin);
      SlotOfUsed(s, slot);
    } else {
      MarkNeverFalls(t, fs, i, k - 1);
      var x := FindSlot(before, origin);
      if s[x] == before[x] {
        SlotOfUsed(s, x);
      } else if fs[k - 1].origin == origin {
        SlotOfUsed(s, x);
      } else {
        // Frame k - 1 took the slot: the origin is evicted here.
        forall j | 0 <= j < |s| && s[j].used
          ensures s[j].mac != origin
        {
          if j != x { SlotOfUsed(before, x); }
        }
      }
    }
  }

  /** Two accepted frames of one origin, with no eviction of it in between, strictly rise. */
  lemma AcceptedMarksRise(t: Cache, fs: seq<Frame>, i: nat, j: nat)
    requires t != [] && Inv(t) && i < j < |fs|
    requires fs[i].origin == fs[j].origin
    requires Accepted(t, fs, i) && Accepted(t, fs, j)
    requires Held(t, fs, fs[i].origin, i + 1, j + 1)
    ensures Newer(MarkOf(fs[j]), MarkOf(fs[i]))
  {
    MarkNeverFalls(t, fs, i, j);
  }

  // ---- The class ----

  class ReplayCache {
    const cache: array<Slot>

    ghost function View(): Cache
      reads cache
    {
      cache[..]
    }

    ghost predicate Valid()
      reads cache
    {
      cache.Length == REPLAY_MAX_ORIGINS && Inv(View())
    }

    constructor ()
      ensures Valid() && fresh(cache)
      ensures View() == EmptyCache()
    {
      cache := new Slot[REPLAY_MAX_ORIGINS](i => FREE);
      new;
      assert View() == EmptyCache();
    }

    /** `init`: forgets every origin. */
    method Init()
      requires Valid()
      modifies cache
      ensures Valid() && View() == EmptyCache()
    {
      forall i | 0 <= i < cache.Length {
        cache[i] := FREE;
      }
      assert View() == EmptyCache();
    }

    method FreeOrOldest() returns (slot: nat)
      requires Valid()
      ensures slot == AllocateSlot(View())
    {
      for i := 0 to cache.Length
        invariant forall j :: 0 <= j < i ==> cache[j].used
      {
        if !cache[i].used {
          return i;
        }
      }
      slot := EvictOldest(cache, cache.Length, SlotTime);
      assert cache[..cache.Length] == View();
    }

    /** True when the frame must be dropped; otherwise the origin's mark is raised to it. */
    method IsReplay(f: Frame) returns (replay: bool)
      requires Valid()
      modifies cache
      ensures Valid()
      ensures replay == IsReplayOf(old(View()), f)
      ensures View() == Admit(old(View()), f)
    {
      AdmitKeepsInv(View(), f);
      var found := Find(cache, cache.Length, SlotMac, f.origin);
      if found.Some? && cache[found.value].used {
        var i := found.value;
        var newer := f.epoch > cache[i].epoch
                     || (f.epoch == cache[i].epoch && f.seqNum > cache[i].seqNum);
        if !newer {
          return true;
        }
        cache[i] := cache[i].(epoch := f.epoch, seqNum := f.seqNum, lastSeen := f.now);
        return false;
      }
      var slot := FreeOrOldest();
      cache[slot] := Slot(f.epoch, f.now, f.seqNum, f.origin, true);
      return false;
    }
  }
}
