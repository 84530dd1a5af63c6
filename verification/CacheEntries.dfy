/** The TTL map of api/internal/middleware/user_active_cache.go: what a lookup finds in it, and what
    storing an entry may make of it when the map is full. */
module CacheEntries {
  import opened Options
  import opened CacheKeys

  datatype Entry = Entry(isActive: bool, expiresAt: int)
  type Entries = map<Key, Entry>

  /** The flag under a key, if it has not expired at `now`. */
  function CachedAt(m: Entries, key: Key, now: int): Option<bool> {
    if key in m && now < m[key].expiresAt then Some(m[key].isActive) else None
  }

  /** `victim` is an entry of smallest expiry, as the eviction scan may find it. */
  ghost predicate Oldest(m: Entries, victim: Key) {
    victim in m && forall k :: k in m ==> m[victim].expiresAt <= m[k].expiresAt
  }

  /** What storeEntry may make of the map: insert, and past the cap drop one oldest entry. On
      equal expiry that may be the new entry itself. */
  ghost predicate StoredWith(m: Entries, key: Key, e: Entry, maxEntries: int, victim: Option<Key>, m': Entries) {
    var inserted := m[key := e];
    if |inserted| <= maxEntries then victim.None? && m' == inserted
    else victim.Some? && Oldest(inserted, victim.value) && m' == inserted - {victim.value}
  }

  lemma StoredKeepsCap(m: Entries, key: Key, e: Entry, maxEntries: int, victim: Option<Key>, m': Entries)
    requires StoredWith(m, key, e, maxEntries, victim, m') && |m| <= maxEntries
    ensures |m'| <= maxEntries
  {
    var inserted := m[key := e];
    assert inserted.Keys == m.Keys + {key};
    assert |inserted.Keys| <= |m.Keys| + 1;
    if victim.Some? {
      assert m'.Keys == inserted.Keys - {victim.value};
      assert |m'.Keys| == |m'| && |inserted.Keys| == |inserted|;
    }
  }

  /** Storing keeps every other entry but at most one, and gives that up only past the cap; nothing
      that stays expires before it. */
  lemma StoringKeeps(m: Entries, key: Key, e: Entry, maxEntries: int, victim: Option<Key>, m': Entries, k: Key)
    requires StoredWith(m, key, e, maxEntries, victim, m')
    ensures k in m' ==> m'[k] == if k == key then e else if k in m then m[k] else e
    ensures k in m' ==> k == key || k in m
    ensures (k == key || k in m) && k !in m' ==>
              && |m[key := e]| > maxEntries
              && (forall q :: q in m' ==> m[key := e][k].expiresAt <= m'[q].expiresAt)
              && (forall q :: (q == key || q in m) && q != k ==> q in m')
  {
  }

  /** The oldest entry of a non-empty map exists, so storeEntry can always finish. */
  lemma OldestExists(m: Entries) returns (victim: Key)
    requires m != map[]
    ensures Oldest(m, victim)
    decreases |m|
  {
    var k :| k in m;
    victim := k;
    var rest := m - {k};
    if rest != map[] {
      assert |rest.Keys| < |m.Keys| by { assert rest.Keys == m.Keys - {k}; }
      var v := OldestExists(rest);
      if m[v].expiresAt < m[k].expiresAt { victim := v; }
      assert forall q :: q in m ==> q == k || q in rest;
    } else {
      assert forall q :: q in m ==> q == k by {
        forall q | q in m && q != k ensures q in rest { }
      }
    }
  }
}
