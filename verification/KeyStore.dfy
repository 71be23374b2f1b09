/** `E2EKeyStore`: a round-robin cache of derived end-to-end keys, and the lookups over it. */
module KeyStore {
  import opened Types
  import opened MacTable
  import opened Keys
  import opened Peers

  datatype KeyEntry = KeyEntry(mac: Mac, valid: bool, keys: KeyPair)

  /** The slots and the next one to overwrite. */
  datatype Cache = Cache(entries: seq<KeyEntry>, next: nat)

  const NO_KEYS := KeyPair(KUp({}), KDown({}))
  const EMPTY_ENTRY := KeyEntry(ZERO_MAC, false, NO_KEYS)

  function EntryMac(e: KeyEntry): Mac { e.mac }

  /** Slots fill in order: until every slot is valid, exactly those before the next are. */
  predicate CacheInv(c: Cache) {
    && (if c.entries == [] then c.next == 0 else c.next < |c.entries|)
    && (AllValid(c) || forall i :: 0 <= i < |c.entries| ==> (c.entries[i].valid <==> i < c.next))
    && (forall i, j :: 0 <= i < j < |c.entries| && c.entries[j].valid ==> c.entries[i].mac != c.entries[j].mac)
  }

  predicate AllValid(c: Cache) {
    forall i :: 0 <= i < |c.entries| ==> c.entries[i].valid
  }

  function EmptyCache(capacity: nat): Cache {
    Cache(seq(capacity, i => EMPTY_ENTRY), 0)
  }

  /** `setCapacity`: keeps the cache when the capacity already matches. */
  function Resized(c: Cache, capacity: nat): Cache {
    if capacity == |c.entries| then c else EmptyCache(capacity)
  }

  function FindEntry(c: Cache, mac: Mac): (r: nat)
    ensures r <= |c.entries|
    ensures r < |c.entries| ==> c.entries[r].valid && c.entries[r].mac == mac
    ensures CacheInv(c) && r == |c.entries| ==>
      forall j :: 0 <= j < |c.entries| && c.entries[j].valid ==> c.entries[j].mac != mac
  {
    var i := FirstIndex(c.entries, (e: KeyEntry) => e.mac == mac);
    if i < |c.entries| && c.entries[i].valid then i else |c.entries|
  }

  /** `getKeys`: a cached pair, or a fresh derivation that takes the next slot. */
  function KeysGot(c: Cache, mac: Mac, own: nat, peer: PubKey): Option<KeyPair>
    requires CacheInv(c)
  {
    var i := FindEntry(c, mac);
    if c.entries == [] then None
    else if i < |c.entries| then Some(c.entries[i].keys)
    else if peer.NoKey? then None
    else Some(DeriveKeys(own, peer))
  }

  function AfterGet(c: Cache, mac: Mac, own: nat, peer: PubKey): (r: Cache)
    requires CacheInv(c)
    ensures |r.entries| == |c.entries|
  {
    if c.entries == [] || FindEntry(c, mac) < |c.entries| || peer.NoKey? then c
    else Cache(c.entries[c.next := KeyEntry(mac, true, DeriveKeys(own, peer))],
               if c.next + 1 == |c.entries| then 0 else c.next + 1)
  }

  lemma AfterGetKeepsInv(c: Cache, mac: Mac, own: nat, peer: PubKey)
    requires CacheInv(c)
    ensures CacheInv(AfterGet(c, mac, own, peer))
  {
    var r := AfterGet(c, mac, own, peer);
    if r.next == 0 && r != c {
      assert AllValid(r);
    }
  }

  /** `peerE2EKeys` and `masterE2EKeys` look the peer up first. */
  function PeerKeys(c: Cache, ps: Registry, mac: Mac, own: nat): Option<KeyPair>
    requires CacheInv(c)
  {
    if Known(ps, mac) then KeysGot(c, mac, own, KeyOf(ps, mac)) else None
  }

  function AfterPeerKeys(c: Cache, ps: Registry, mac: Mac, own: nat): Cache
    requires CacheInv(c)
  {
    if Known(ps, mac) then AfterGet(c, mac, own, KeyOf(ps, mac)) else c
  }

  /** Every valid entry equals a fresh derivation from the key on record. */
  predicate Coherent(c: Cache, ps: Registry, own: nat) {
    forall i :: 0 <= i < |c.entries| && c.entries[i].valid ==>
      var e := c.entries[i];
      KeyOf(ps, e.mac).Pub? && e.keys == DeriveKeys(own, KeyOf(ps, e.mac))
  }

  /** What an uncached derivation would answer. */
  function FreshKeys(ps: Registry, mac: Mac, own: nat): Option<KeyPair> {
    var key := KeyOf(ps, mac);
    if key.Pub? then Some(DeriveKeys(own, key)) else None
  }

  /** On a coherent cache with room, a lookup answers as an uncached derivation and leaves the
      cache coherent. */
  lemma PeerKeysAreFresh(c: Cache, ps: Registry, mac: Mac, own: nat)
    requires CacheInv(c) && Coherent(c, ps, own) && c.entries != []
    ensures PeerKeys(c, ps, mac, own) == FreshKeys(ps, mac, own)
    ensures CacheInv(AfterPeerKeys(c, ps, mac, own))
    ensures Coherent(AfterPeerKeys(c, ps, mac, own), ps, own)
    ensures AfterPeerKeys(c, ps, mac, own).entries != []
  {
    AfterGetKeepsInv(c, mac, own, KeyOf(ps, mac));
  }

  lemma WrapNext(next: nat, n: nat)
    requires next < n
    ensures (next + 1) % n == if next + 1 == n then 0 else next + 1
  {
  }

  class E2EKeyStore {
    var entries: array<KeyEntry>
    var nextSlot: nat

    ghost function View(): Cache
      reads this, entries
    {
      Cache(entries[..], nextSlot)
    }

    ghost predicate Valid()
      reads this, entries
    {
      CacheInv(View())
    }

    constructor ()
      ensures Valid() && fresh(entries) && View() == EmptyCache(KEYCACHE_MAX)
    {
      entries := new KeyEntry[KEYCACHE_MAX](i => EMPTY_ENTRY);
      nextSlot := 0;
      new;
      assert View().entries == EmptyCache(KEYCACHE_MAX).entries;
    }

    method SetCapacity(maxEntries: nat)
      requires Valid()
      modifies this
      ensures Valid() && View() == Resized(old(View()), maxEntries)
      ensures entries == old(entries) || fresh(entries)
    {
      if maxEntries == entries.Length {
        return;
      }
      entries := new KeyEntry[maxEntries](i => EMPTY_ENTRY);
      nextSlot := 0;
      assert View().entries == EmptyCache(maxEntries).entries;
    }

    method FindValid(mac: Mac) returns (r: Option<nat>)
      requires Valid()
      ensures var i := FindEntry(View(), mac);
              r == if i < |View().entries| then Some(i) else None
    {
      var idx := Find(entries, entries.Length, EntryMac, mac);
      if idx.Some? && entries[idx.value].valid {
        return idx;
      }
      return None;
    }

    method GetKeys(mac: Mac, own: nat, peer: PubKey) returns (keys: Option<KeyPair>)
      requires Valid()
      modifies this`nextSlot, entries
      ensures Valid() && View() == AfterGet(old(View()), mac, own, peer)
      ensures keys == KeysGot(old(View()), mac, own, peer)
    {
      AfterGetKeepsInv(View(), mac, own, peer);
      if entries.Length == 0 {
        return None;
      }
      var idx := FindValid(mac);
      if idx.Some? {
        return Some(entries[idx.value].keys);
      }
      if peer.NoKey? {
        return None;
      }
      var derived := DeriveKeys(own, peer);
      entries[nextSlot] := KeyEntry(mac, true, derived);
      WrapNext(nextSlot, entries.Length);
      nextSlot := (nextSlot + 1) % entries.Length;
      return Some(derived);
    }

    method Clear()
      requires Valid()
      modifies this`nextSlot, entries
      ensures Valid() && View() == EmptyCache(entries.Length)
    {
      forall i | 0 <= i < entries.Length {
        entries[i] := EMPTY_ENTRY;
      }
      nextSlot := 0;
      assert View().entries == EmptyCache(entries.Length).entries;
    }
  }

  /** `peerE2EKeys`; `masterE2EKeys` is the same lookup under the current master's MAC, once a
      master is known. */
  method PeerE2EKeys(mac: Mac, peers: PeerRegistry, own: nat, store: E2EKeyStore)
      returns (keys: Option<KeyPair>)
    requires peers.Valid() && store.Valid()
    modifies store`nextSlot, store.entries
    ensures store.Valid() && store.View() == AfterPeerKeys(old(store.View()), peers.View(), mac, own)
    ensures keys == PeerKeys(old(store.View()), peers.View(), mac, own)
  {
    var p := peers.FindIndex(mac);
    if p.None? {
      return None;
    }
    keys := store.GetKeys(peers.slots[p.value].mac, own, peers.slots[p.value].key);
  }
}
