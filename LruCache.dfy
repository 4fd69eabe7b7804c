/** dist/utils/cache.js: a bounded key -> entry store with lazy TTL expiry and
    eviction of the least recently accessed entry. The JavaScript `Map` is a
    `map` plus the sequence of its keys in iteration (insertion) order, which
    decides ties when evicting. The clock is the explicit `now` parameter.

    The state changes are first defined as functions on a `Snapshot` of the
    store, whose properties are proved as lemmas; the class `Cache` then
    implements each method in place and is proved to follow them. */
module LruCache {
  import opened Wrappers

  datatype Entry<T> = Entry(data: T, expiresAt: int, lastAccessed: int)

  datatype CacheConfig = CacheConfig(ttl: int, maxSize: int, enabled: bool)

  datatype CacheOverrides = CacheOverrides(ttl: Option<int>, maxSize: Option<int>, enabled: Option<bool>)

  /** `defaultCacheConfig`: five minutes, 1000 entries, enabled. */
  const DefaultCacheConfig := CacheConfig(5 * 60 * 1000, 1000, true)

  const NoCacheOverrides := CacheOverrides(None, None, None)

  /** `{ ...defaultCacheConfig, ...config }`. */
  function MergeCacheConfig(o: CacheOverrides): (c: CacheConfig)
    ensures o.ttl.Some? ==> c.ttl == o.ttl.value
    ensures o.ttl.None? ==> c.ttl == DefaultCacheConfig.ttl
    ensures o.maxSize.Some? ==> c.maxSize == o.maxSize.value
    ensures o.maxSize.None? ==> c.maxSize == DefaultCacheConfig.maxSize
    ensures o.enabled.Some? ==> c.enabled == o.enabled.value
    ensures o.enabled.None? ==> c.enabled == DefaultCacheConfig.enabled
  {
    CacheConfig(
      if o.ttl.Some? then o.ttl.value else DefaultCacheConfig.ttl,
      if o.maxSize.Some? then o.maxSize.value else DefaultCacheConfig.maxSize,
      if o.enabled.Some? then o.enabled.value else DefaultCacheConfig.enabled)
  }

  /** The store and its keys in iteration order. */
  datatype Snapshot<T> = Snapshot(store: map<string, Entry<T>>, order: seq<string>)

  predicate Distinct(s: seq<string>) {
    forall i, j :: 0 <= i < j < |s| ==> s[i] != s[j]
  }

  /** The order lists each stored key exactly once. */
  ghost predicate WellFormed<T>(s: Snapshot<T>) {
    Distinct(s.order) && forall k :: k in s.store <==> k in s.order
  }

  predicate Expired<T>(e: Entry<T>, now: int) {
    now > e.expiresAt
  }

  /** The iteration order after `Map.delete(key)`. */
  function Without(order: seq<string>, key: string): (r: seq<string>)
    ensures forall k :: k in r <==> k in order && k != key
    ensures Distinct(order) ==> Distinct(r)
    ensures key !in order ==> r == order
    ensures forall i :: 0 <= i < |order| && order[i] == key && Distinct(order) ==> r == order[..i] + order[i + 1..]
  {
    if order == [] then []
    else if order[0] == key then
      assert Distinct(order) ==> key !in order[1..];
      Without(order[1..], key)
    else
      assert Distinct(order) ==> order[0] !in order[1..];
      var rest := Without(order[1..], key);
      WithoutHead(order, key, rest);
      [order[0]] + rest
  }

  /** Dropping `key` from the tail and putting the head back in front is
      dropping it at its index in the whole order. */
  lemma WithoutHead(order: seq<string>, key: string, rest: seq<string>)
    requires |order| > 0 && order[0] != key
    requires forall i :: 0 <= i < |order[1..]| && order[1..][i] == key && Distinct(order[1..])
                         ==> rest == order[1..][..i] + order[1..][i + 1..]
    ensures forall i :: 0 <= i < |order| && order[i] == key && Distinct(order)
                        ==> [order[0]] + rest == order[..i] + order[i + 1..]
  {
    forall i | 0 <= i < |order| && order[i] == key && Distinct(order)
      ensures [order[0]] + rest == order[..i] + order[i + 1..]
    {
      assert order[1..][i - 1] == key;
      assert rest == order[1..][..i - 1] + order[1..][i..];
      assert order[1..][..i - 1] == order[1..i] && order[1..][i..] == order[i + 1..];
      assert [order[0]] + order[1..i] == order[..i];
    }
  }

  /** `a` precedes `b` in the iteration order. */
  predicate Before(order: seq<string>, a: string, b: string) {
    exists i, j :: 0 <= i < j < |order| && order[i] == a && order[j] == b
  }

  /** Deleting a third key keeps two keys in the same order. */
  lemma WithoutKeepsBefore(order: seq<string>, x: string, a: string, b: string)
    requires Distinct(order) && Before(order, a, b) && a != x && b != x
    ensures Before(Without(order, x), a, b)
  {
    var i, j :| 0 <= i < j < |order| && order[i] == a && order[j] == b;
    if k :| 0 <= k < |order| && order[k] == x {
      WithoutAt(order, x, k);
      DeleteKeepsIndices(order, k, Without(order, x), i, j);
    } else {
      assert x !in order;
      assert Without(order, x) == order;
    }
  }

  lemma WithoutAt(order: seq<string>, x: string, k: int)
    requires Distinct(order) && 0 <= k < |order| && order[k] == x
    ensures Without(order, x) == order[..k] + order[k + 1..]
  {
  }

  lemma DeleteKeepsIndices(order: seq<string>, k: int, r: seq<string>, i: int, j: int)
    requires 0 <= i < j < |order| && 0 <= k < |order| && i != k && j != k
    requires r == order[..k] + order[k + 1..]
    ensures Before(r, order[i], order[j])
  {
    IndexAfterDelete(order, k, r, i);
    IndexAfterDelete(order, k, r, j);
    var i' := if i < k then i else i - 1;
    var j' := if j < k then j else j - 1;
    assert 0 <= i' < j' < |r| && r[i'] == order[i] && r[j'] == order[j];
  }

  /** Where index `i` of `order` sits once index `k` is deleted. */
  lemma IndexAfterDelete(order: seq<string>, k: int, r: seq<string>, i: int)
    requires 0 <= k < |order| && 0 <= i < |order| && i != k
    requires r == order[..k] + order[k + 1..]
    ensures i < k ==> r[i] == order[i]
    ensures i > k ==> r[i - 1] == order[i]
  {
  }

  /** Appending a key keeps the order of the keys already there and puts the
      new key after all of them. */
  lemma AppendKeepsBefore(order: seq<string>, k: string, a: string, b: string)
    ensures Before(order, a, b) ==> Before(order + [k], a, b)
    ensures a in order ==> Before(order + [k], a, k)
  {
    var o := order + [k];
    if Before(order, a, b) {
      var i, j :| 0 <= i < j < |order| && order[i] == a && order[j] == b;
      assert o[i] == a && o[j] == b;
    }
    if a in order {
      var i :| 0 <= i < |order| && order[i] == a;
      assert o[i] == a && o[|order|] == k;
    }
  }

  function Remove<T>(s: Snapshot<T>, key: string): (r: Snapshot<T>)
    ensures WellFormed(s) ==> WellFormed(r)
  {
    Snapshot(s.store - {key}, Without(s.order, key))
  }

  lemma {:induction false} DistinctCard(order: seq<string>)
    requires Distinct(order)
    ensures |set k | k in order| == |order|
  {
    if order != [] {
      DistinctCard(order[1..]);
      assert (set k | k in order) == {order[0]} + (set k | k in order[1..]);
    }
  }

  /** `Map.size` is the length of the iteration order. */
  lemma OrderMatchesSize<T>(s: Snapshot<T>)
    requires WellFormed(s)
    ensures |s.store| == |s.order|
  {
    DistinctCard(s.order);
    assert s.store.Keys == set k | k in s.order;
  }

  /** The index `evictLRU`'s scan settles on among the first `n` keys: it
      replaces its candidate only on a strictly smaller `lastAccessed`. */
  function OldestIndex<T>(order: seq<string>, store: map<string, Entry<T>>, n: nat): (i: nat)
    requires 0 < n <= |order|
    requires forall j :: 0 <= j < |order| ==> order[j] in store
    ensures i < n
  {
    if n == 1 then 0
    else
      var i := OldestIndex(order, store, n - 1);
      if store[order[n - 1]].lastAccessed < store[order[i]].lastAccessed then n - 1 else i
  }

  /** Index `i` holds the smallest `lastAccessed` among the first `n` keys
      and is the first key with that value. */
  ghost predicate IsFirstMinimum<T>(order: seq<string>, store: map<string, Entry<T>>, n: nat, i: nat)
    requires n <= |order|
    requires forall j :: 0 <= j < |order| ==> order[j] in store
  {
    && i < n
    && (forall j :: 0 <= j < n ==> store[order[i]].lastAccessed <= store[order[j]].lastAccessed)
    && (forall j :: 0 <= j < i ==> store[order[j]].lastAccessed > store[order[i]].lastAccessed)
  }

  lemma {:induction false} OldestIndexIsFirstMinimum<T>(order: seq<string>, store: map<string, Entry<T>>, n: nat)
    requires 0 < n <= |order|
    requires forall j :: 0 <= j < |order| ==> order[j] in store
    ensures IsFirstMinimum(order, store, n, OldestIndex(order, store, n))
  {
    if n > 1 {
      OldestIndexIsFirstMinimum(order, store, n - 1);
    }
  }

  /** Exactly one index is the first minimum: the scan's choice. */
  lemma FirstMinimumUnique<T>(order: seq<string>, store: map<string, Entry<T>>, n: nat, i: nat)
    requires 0 < n <= |order|
    requires forall j :: 0 <= j < |order| ==> order[j] in store
    requires IsFirstMinimum(order, store, n, i)
    ensures i == OldestIndex(order, store, n)
  {
    OldestIndexIsFirstMinimum(order, store, n);
  }

  /** The key `evictLRU` removes from a non-empty store. */
  function Victim<T>(s: Snapshot<T>): (v: string)
    requires WellFormed(s) && |s.order| > 0
    ensures v in s.store && v in s.order
  {
    s.order[OldestIndex(s.order, s.store, |s.order|)]
  }

  /** `evictLRU()`: drop the victim, if the store has any key. */
  function Evict<T>(s: Snapshot<T>): (r: Snapshot<T>)
    requires WellFormed(s)
    ensures WellFormed(r)
  {
    if |s.order| == 0 then s else Remove(s, Victim(s))
  }

  /** Eviction from a non-empty store removes exactly one key, the one with
      the smallest `lastAccessed`, the first in iteration order on ties. */
  lemma EvictRemovesLeastRecentlyAccessed<T>(s: Snapshot<T>)
    requires WellFormed(s) && |s.store| > 0
    ensures |s.order| > 0
    ensures var v := Victim(s);
            && v in s.store
            && Evict(s).store == s.store - {v}
            && |Evict(s).store| == |s.store| - 1
            && (forall k :: k in s.store ==> s.store[v].lastAccessed <= s.store[k].lastAccessed)
            && IsFirstMinimum(s.order, s.store, |s.order|, OldestIndex(s.order, s.store, |s.order|))
  {
    OrderMatchesSize(s);
    var v := Victim(s);
    assert Evict(s) == Remove(s, v);
    assert (s.store - {v}).Keys == s.store.Keys - {v};
    OldestIndexIsFirstMinimum(s.order, s.store, |s.order|);
    VictimIsMinimal(s);
  }

  /** No stored entry was accessed before the victim. */
  lemma VictimIsMinimal<T>(s: Snapshot<T>)
    requires WellFormed(s) && |s.order| > 0
    ensures forall k :: k in s.store ==> s.store[Victim(s)].lastAccessed <= s.store[k].lastAccessed
  {
    var i := OldestIndex(s.order, s.store, |s.order|);
    OldestIndexIsFirstMinimum(s.order, s.store, |s.order|);
    forall k | k in s.store ensures s.store[s.order[i]].lastAccessed <= s.store[k].lastAccessed {
      var j :| 0 <= j < |s.order| && s.order[j] == k;
    }
  }

  /** `get(key)` as seen by the caller. */
  function LookupResult<T>(s: Snapshot<T>, cfg: CacheConfig, key: string, now: int): (r: Option<T>)
    ensures r.Some? <==> cfg.enabled && key in s.store && now <= s.store[key].expiresAt
    ensures r.Some? ==> r.value == s.store[key].data
  {
    if !cfg.enabled || key !in s.store || Expired(s.store[key], now) then None
    else Some(s.store[key].data)
  }

  /** The store after `get(key)`: an expired entry is deleted, a live one is touched. */
  function AfterGet<T>(s: Snapshot<T>, cfg: CacheConfig, key: string, now: int): (r: Snapshot<T>)
    ensures WellFormed(s) ==> WellFormed(r)
  {
    if !cfg.enabled || key !in s.store then s
    else if Expired(s.store[key], now) then Remove(s, key)
    else Snapshot(s.store[key := s.store[key].(lastAccessed := now)], s.order)
  }

  /** `has(key)` as seen by the caller. */
  function HasResult<T>(s: Snapshot<T>, cfg: CacheConfig, key: string, now: int): (b: bool)
    ensures b <==> LookupResult(s, cfg, key, now).Some?
  {
    cfg.enabled && key in s.store && !Expired(s.store[key], now)
  }

  /** The store after `has(key)`: an expired entry is deleted, nothing is touched. */
  function AfterHas<T>(s: Snapshot<T>, cfg: CacheConfig, key: string, now: int): (r: Snapshot<T>)
    ensures WellFormed(s) ==> WellFormed(r)
  {
    if cfg.enabled && key in s.store && Expired(s.store[key], now) then Remove(s, key) else s
  }

  /** The store after `set(key, value)`: evict when full (even if `key` is
      already stored), then write the entry; a key already present keeps its
      place in the iteration order. */
  function AfterSet<T>(s: Snapshot<T>, cfg: CacheConfig, key: string, value: T, now: int): (r: Snapshot<T>)
    requires WellFormed(s)
    ensures WellFormed(r)
  {
    if !cfg.enabled then s
    else Store(if |s.store| >= cfg.maxSize then Evict(s) else s, cfg, key, value, now)
  }

  /** The write at the end of `set`: a fresh entry under `key`, appended to
      the iteration order only when `key` is new. */
  function Store<T>(t: Snapshot<T>, cfg: CacheConfig, key: string, value: T, now: int): (r: Snapshot<T>)
    requires WellFormed(t)
    ensures WellFormed(r)
    ensures r.store == t.store[key := Entry(value, now + cfg.ttl, now)]
    ensures key in t.store ==> r.order == t.order
    ensures key !in t.store ==> r.order == t.order + [key]
  {
    Snapshot(t.store[key := Entry(value, now + cfg.ttl, now)],
             if key in t.store then t.order else t.order + [key])
  }

  /** `set` keeps the iteration order of the keys that survive it, the set
      key included when it was already stored and not evicted; a key that is
      new, or was itself the victim, is written at the end of the order. */
  lemma SetKeepsOrder<T>(s: Snapshot<T>, cfg: CacheConfig, key: string, value: T, now: int)
    requires WellFormed(s) && cfg.enabled
    ensures var r := AfterSet(s, cfg, key, value, now);
            var stays := key in s.store && !(|s.store| >= cfg.maxSize && |s.order| > 0 && Victim(s) == key);
            && (forall a, b :: Before(s.order, a, b) && a in r.store && b in r.store && (a != key || stays)
                               ==> Before(r.order, a, b))
            && (!stays ==> |r.order| > 0 && r.order[|r.order| - 1] == key)
  {
    var r := AfterSet(s, cfg, key, value, now);
    var evicted := |s.store| >= cfg.maxSize && |s.order| > 0;
    var t := if |s.store| >= cfg.maxSize then Evict(s) else s;
    assert r == Store(t, cfg, key, value, now);
    var stays := key in s.store && !(evicted && Victim(s) == key);
    assert stays <==> key in t.store;
    forall a, b | Before(s.order, a, b) && a in r.store && b in r.store && (a != key || stays)
      ensures Before(r.order, a, b)
    {
      if evicted && (a == Victim(s) || b == Victim(s)) {
        // only the set key can come back, and then it is last
        assert a != Victim(s) && b == key && a != key;
        assert a in t.order;
        AppendKeepsBefore(t.order, key, a, b);
      } else {
        if evicted {
          WithoutKeepsBefore(s.order, Victim(s), a, b);
        }
        assert Before(t.order, a, b);
        AppendKeepsBefore(t.order, key, a, b);
      }
    }
  }

  /** A disabled cache stores nothing and finds nothing. */
  lemma DisabledCacheIsInert<T>(s: Snapshot<T>, cfg: CacheConfig, key: string, value: T, now: int)
    requires WellFormed(s) && !cfg.enabled
    ensures AfterSet(s, cfg, key, value, now) == s
    ensures LookupResult(s, cfg, key, now) == None && AfterGet(s, cfg, key, now) == s
    ensures !HasResult(s, cfg, key, now) && AfterHas(s, cfg, key, now) == s
  {
  }

  /** With a positive bound, `set` never takes the store past `maxSize`. */
  lemma SetKeepsSizeBound<T>(s: Snapshot<T>, cfg: CacheConfig, key: string, value: T, now: int)
    requires WellFormed(s) && 0 < cfg.maxSize && |s.store| <= cfg.maxSize
    ensures |AfterSet(s, cfg, key, value, now).store| <= cfg.maxSize
  {
    if cfg.enabled && |s.store| >= cfg.maxSize {
      EvictRemovesLeastRecentlyAccessed(s);
    }
  }

  /** `set` writes the fresh entry; every other key keeps its entry unless it
      was the one evicted, and a full store loses its victim (unless the
      victim is `key` itself, which is then written again). */
  lemma SetStoresFreshEntry<T>(s: Snapshot<T>, cfg: CacheConfig, key: string, value: T, now: int)
    requires WellFormed(s) && cfg.enabled
    ensures var r := AfterSet(s, cfg, key, value, now);
            && key in r.store && r.store[key] == Entry(value, now + cfg.ttl, now)
            && (forall k :: k in r.store && k != key ==> k in s.store && r.store[k] == s.store[k])
            && (|s.store| < cfg.maxSize ==> forall k :: k in s.store ==> k in r.store)
            && (|s.store| >= cfg.maxSize && |s.store| > 0 ==>
                  |s.order| > 0 && (Victim(s) in r.store <==> Victim(s) == key))
  {
    if |s.store| >= cfg.maxSize && |s.store| > 0 {
      EvictRemovesLeastRecentlyAccessed(s);
    }
  }

  /** A value just set is returned by any `get` until its TTL has passed. */
  lemma SetThenGet<T>(s: Snapshot<T>, cfg: CacheConfig, key: string, value: T, now: int, later: int)
    requires WellFormed(s) && cfg.enabled && later <= now + cfg.ttl
    ensures LookupResult(AfterSet(s, cfg, key, value, now), cfg, key, later) == Some(value)
  {
  }

  /** A stale entry found by `get` is deleted and not returned; nothing else changes. */
  lemma StaleGetDeletes<T>(s: Snapshot<T>, cfg: CacheConfig, key: string, now: int)
    requires WellFormed(s) && cfg.enabled && key in s.store && Expired(s.store[key], now)
    ensures LookupResult(s, cfg, key, now) == None
    ensures AfterGet(s, cfg, key, now).store == s.store - {key}
    ensures |AfterGet(s, cfg, key, now).store| == |s.store| - 1
  {
    assert (s.store - {key}).Keys == s.store.Keys - {key};
  }

  /** A live entry found by `get` is returned and only its `lastAccessed` moves to `now`. */
  lemma LiveGetTouches<T>(s: Snapshot<T>, cfg: CacheConfig, key: string, now: int)
    requires WellFormed(s) && cfg.enabled && key in s.store && !Expired(s.store[key], now)
    ensures LookupResult(s, cfg, key, now) == Some(s.store[key].data)
    ensures var r := AfterGet(s, cfg, key, now);
            && r.order == s.order && r.store.Keys == s.store.Keys
            && r.store[key] == Entry(s.store[key].data, s.store[key].expiresAt, now)
            && forall k :: k in s.store && k != key ==> r.store[k] == s.store[k]
  {
  }

  /** `has` answers like `get` and deletes what `get` would delete, but never
      touches `lastAccessed`. */
  lemma HasMatchesGet<T>(s: Snapshot<T>, cfg: CacheConfig, key: string, now: int)
    requires WellFormed(s)
    ensures HasResult(s, cfg, key, now) <==> LookupResult(s, cfg, key, now).Some?
    ensures AfterHas(s, cfg, key, now).store.Keys == AfterGet(s, cfg, key, now).store.Keys
    ensures HasResult(s, cfg, key, now) ==> AfterHas(s, cfg, key, now) == s
  {
  }

  /** `get` never adds an entry. */
  lemma GetNeverGrows<T>(s: Snapshot<T>, cfg: CacheConfig, key: string, now: int)
    ensures |AfterGet(s, cfg, key, now).store| <= |s.store|
  {
    if cfg.enabled && key in s.store && Expired(s.store[key], now) {
      assert (s.store - {key}).Keys == s.store.Keys - {key};
    }
  }

  /** `delete(key)` removes `key` and nothing else, shrinking the store by
      one exactly when the key was present. */
  lemma RemoveOnlyKey<T>(s: Snapshot<T>, key: string)
    requires WellFormed(s)
    ensures key !in Remove(s, key).store
    ensures forall k :: k != key ==> (k in Remove(s, key).store <==> k in s.store)
    ensures forall k :: k in Remove(s, key).store ==> Remove(s, key).store[k] == s.store[k]
    ensures |Remove(s, key).store| == if key in s.store then |s.store| - 1 else |s.store|
    ensures |Remove(s, key).order| == |Remove(s, key).store|
  {
    assert (s.store - {key}).Keys == s.store.Keys - {key};
    OrderMatchesSize(Remove(s, key));
  }

  /** A value returned by `get` was stored and had not expired. */
  lemma NoStaleRead<T>(s: Snapshot<T>, cfg: CacheConfig, key: string, now: int)
    requires LookupResult(s, cfg, key, now).Some?
    ensures key in s.store && now <= s.store[key].expiresAt
    ensures LookupResult(s, cfg, key, now).value == s.store[key].data
  {
  }

  /** The scan of `evictLRU()`: one pass over the keys in iteration order,
      keeping the first key with the smallest `lastAccessed`; `None` for the
      time stands for the initial `Infinity`. */
  method OldestKey<T>(keys: seq<string>, entries: map<string, Entry<T>>) returns (oldestKey: Option<string>)
    requires forall j :: 0 <= j < |keys| ==> keys[j] in entries
    ensures |keys| == 0 ==> oldestKey.None?
    ensures |keys| > 0 ==> oldestKey == Some(keys[OldestIndex(keys, entries, |keys|)])
  {
    oldestKey := None;
    var oldestTime: Option<int> := None;
    var i := 0;
    while i < |keys|
      invariant 0 <= i <= |keys|
      invariant i == 0 ==> oldestKey.None? && oldestTime.None?
      invariant i > 0 ==> oldestKey == Some(keys[OldestIndex(keys, entries, i)])
      invariant i > 0 ==> oldestTime == Some(entries[keys[OldestIndex(keys, entries, i)]].lastAccessed)
    {
      var entry := entries[keys[i]];
      if oldestTime.None? || entry.lastAccessed < oldestTime.value {
        oldestTime := Some(entry.lastAccessed);
        oldestKey := Some(keys[i]);
      }
      i := i + 1;
    }
  }

  /** `Cache`: the store is updated in place by its methods. */
  class Cache<T> {
    var config: CacheConfig
    var store: map<string, Entry<T>>
    var order: seq<string>

    ghost predicate Valid()
      reads this
    {
      WellFormed(Snapshot(store, order))
    }

    function State(): Snapshot<T>
      reads this
    {
      Snapshot(store, order)
    }

    constructor (overrides: CacheOverrides)
      ensures Valid() && config == MergeCacheConfig(overrides)
      ensures State() == Snapshot(map[], [])
    {
      config := MergeCacheConfig(overrides);
      store := map[];
      order := [];
    }

    method Set(key: string, value: T, now: int)
      requires Valid()
      modifies this
      ensures Valid() && config == old(config)
      ensures State() == AfterSet(old(State()), config, key, value, now)
    {
      if !config.enabled {
        return;
      }
      ghost var s0 := State();
      if |store| >= config.maxSize {
        EvictLRU();
        assert State() == Evict(s0);
      }
      var r := Store(State(), config, key, value, now);
      store, order := r.store, r.order;
    }

    method Get(key: string, now: int) returns (r: Option<T>)
      requires Valid()
      modifies this
      ensures Valid() && config == old(config)
      ensures r == LookupResult(old(State()), config, key, now)
      ensures r.Some? ==> key in old(store) && now <= old(store)[key].expiresAt
      ensures State() == AfterGet(old(State()), config, key, now)
    {
      if !config.enabled {
        return None;
      }
      if key !in store {
        return None;
      }
      var entry := store[key];
      if now > entry.expiresAt {
        store := store - {key};
        order := Without(order, key);
        return None;
      }
      store := store[key := entry.(lastAccessed := now)];
      return Some(entry.data);
    }

    method Has(key: string, now: int) returns (b: bool)
      requires Valid()
      modifies this
      ensures Valid() && config == old(config)
      ensures b == HasResult(old(State()), config, key, now)
      ensures State() == AfterHas(old(State()), config, key, now)
    {
      if !config.enabled {
        return false;
      }
      if key !in store {
        return false;
      }
      if now > store[key].expiresAt {
        store := store - {key};
        order := Without(order, key);
        return false;
      }
      return true;
    }

    method Delete(key: string) returns (b: bool)
      requires Valid()
      modifies this
      ensures Valid() && config == old(config)
      ensures b == (key in old(store))
      ensures State() == Remove(old(State()), key)
    {
      b := key in store;
      store := store - {key};
      order := Without(order, key);
    }

    method Clear()
      requires Valid()
      modifies this
      ensures Valid() && config == old(config)
      ensures State() == Snapshot(map[], []) && Size() == 0
    {
      store := map[];
      order := [];
    }

    /** `size`: the number of stored entries, expired ones not yet found included. */
    function Size(): (n: nat)
      requires Valid()
      reads this
      ensures n == |order|
    {
      OrderMatchesSize(State());
      |store|
    }

    /** `evictLRU()`: drop the key `OldestKey` picks, if any. */
    method EvictLRU()
      requires Valid()
      modifies this
      ensures Valid() && config == old(config)
      ensures State() == Evict(old(State()))
    {
      ghost var s0 := State();
      var oldestKey := OldestKey(order, store);
      if oldestKey.Some? {
        assert oldestKey.value == Victim(s0);
        store := store - {oldestKey.value};
        order := Without(order, oldestKey.value);
        assert State() == Remove(s0, Victim(s0));
      }
    }
  }
}
