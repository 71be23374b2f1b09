/** `mac_table.h`: the scans every MAC-keyed table shares. The byte stride and field offset
    of the C helpers become a selector function. */
module MacTable {
  import opened Types

  /** First index whose element satisfies `p`, or `|t|`. */
  function FirstIndex<E>(t: seq<E>, p: E -> bool): (r: nat)
    ensures r <= |t|
    ensures r < |t| ==> p(t[r])
    ensures forall j :: 0 <= j < r ==> !p(t[j])
  {
    if t == [] then 0
    else if p(t[0]) then 0
    else
      var k := FirstIndex(t[1..], p);
      assert forall j :: 1 <= j < k + 1 ==> t[j] == t[1..][j - 1];
      k + 1
  }

  /** First index carrying the smallest timestamp. */
  predicate IsOldest<E>(t: seq<E>, ts: E -> U64, k: nat) {
    && k < |t|
    && (forall j :: 0 <= j < |t| ==> ts(t[k]) <= ts(t[j]))
    && (forall j :: 0 <= j < k ==> ts(t[k]) < ts(t[j]))
  }

  function OldestIndex<E>(t: seq<E>, ts: E -> U64): (r: nat)
    requires t != []
    ensures IsOldest(t, ts, r)
  {
    var last := |t| - 1;
    if last == 0 then 0
    else
      var k := OldestIndex(t[..last], ts);
      assert forall j :: 0 <= j < last ==> t[..last][j] == t[j];
      if ts(t[last]) < ts(t[k]) then last else k
  }

  /** `mac_table::find`: blind to any validity flag. */
  method Find<E>(entries: array<E>, n: nat, macOf: E -> Mac, mac: Mac) returns (idx: Option<nat>)
    requires n <= entries.Length
    ensures idx.Some? ==> idx.value < n && macOf(entries[idx.value]) == mac
                          && forall j :: 0 <= j < idx.value ==> macOf(entries[j]) != mac
    ensures idx.None? ==> forall j :: 0 <= j < n ==> macOf(entries[j]) != mac
  {
    for i := 0 to n
      invariant forall j :: 0 <= j < i ==> macOf(entries[j]) != mac
    {
      if macOf(entries[i]) == mac {
        return Some(i);
      }
    }
    return None;
  }

  /** `mac_table::evict_oldest_by_ts`. */
  method EvictOldest<E>(entries: array<E>, n: nat, ts: E -> U64) returns (oldest: nat)
    requires 0 < n <= entries.Length
    ensures IsOldest(entries[..n], ts, oldest)
  {
    oldest := 0;
    for i := 1 to n
      invariant oldest < i
      invariant forall j :: 0 <= j < i ==> ts(entries[oldest]) <= ts(entries[j])
      invariant forall j :: 0 <= j < oldest ==> ts(entries[oldest]) < ts(entries[j])
    {
      if ts(entries[i]) < ts(entries[oldest]) {
        oldest := i;
      }
    }
  }
}
