/** dist/client.js: `DexPaprikaClient`, the object every API service holds.
    A GET first consults the response cache under a key made of the endpoint
    and the serialized parameters; a miss goes to the transport through the
    retry executor and a successful response is written back to the cache.
    A POST is retried the same way and never cached.

    The two clock readings of a GET are parameters: `now` for the cache
    lookup and `storeNow` for the write after the response arrived. */
module Client {
  import opened Wrappers
  import opened Text
  import opened JsValues
  import opened Transport
  import opened Helpers
  import opened LruCache

  const DefaultBaseUrl := "https://api.dexpaprika.com"

  /** `baseUrl.replace(/\/+$/, '')`. */
  function StripTrailingSlashes(s: string): (r: string)
    ensures IsPrefix(r, s)
    ensures r == [] || r[|r| - 1] != '/'
    ensures forall i :: |r| <= i < |s| ==> s[i] == '/'
  {
    if |s| > 0 && s[|s| - 1] == '/' then StripTrailingSlashes(s[..|s| - 1]) else s
  }

  /** Stripping twice is stripping once; a URL without a trailing slash is kept. */
  lemma StripIdempotent(s: string)
    ensures StripTrailingSlashes(StripTrailingSlashes(s)) == StripTrailingSlashes(s)
    ensures (s == [] || s[|s| - 1] != '/') ==> StripTrailingSlashes(s) == s
  {
  }

  /** Any two URLs that differ only in trailing slashes give the same base. */
  lemma {:induction false} StripIgnoresExtraSlashes(s: string, n: nat)
    ensures StripTrailingSlashes(s + seq(n, _ => '/')) == StripTrailingSlashes(s)
  {
    if n > 0 {
      var t := s + seq(n, _ => '/');
      assert t[..|t| - 1] == s + seq(n - 1, _ => '/');
      StripIgnoresExtraSlashes(s, n - 1);
    } else {
      assert s + seq(n, _ => '/') == s;
    }
  }

  /** The `config` argument of the constructor. */
  datatype ClientConfig = ClientConfig(retry: RetryOverrides, cache: CacheOverrides)

  /** `getCacheKey(endpoint, params)`: absent parameters serialize as `{}`. */
  function CacheKey(endpoint: string, params: Option<Params>): (k: string)
    ensures IsPrefix(endpoint + ":", k)
    ensures k[|endpoint| + 1..] == Serialize(if params.Some? then params.value else [])
  {
    endpoint + ":" + Serialize(if params.Some? then params.value else [])
  }

  /** Omitting the parameters and passing an empty record share one cache entry. */
  lemma CacheKeyOfAbsentParams(endpoint: string)
    ensures CacheKey(endpoint, None) == CacheKey(endpoint, Some([])) == endpoint + ":{}"
  {
    assert Serialize([]) == "{}";
    assert endpoint + ":" + "{}" == endpoint + ":{}";
  }

  /** For endpoints without ':', the key determines the endpoint and the
      serialized parameters, so distinct endpoints never share an entry. */
  lemma CacheKeySeparatesEndpoints(e1: string, p1: Option<Params>, e2: string, p2: Option<Params>)
    requires ':' !in e1 && ':' !in e2
    requires CacheKey(e1, p1) == CacheKey(e2, p2)
    ensures e1 == e2
    ensures Serialize(if p1.Some? then p1.value else []) == Serialize(if p2.Some? then p2.value else [])
  {
    SplitAtFirstStop(e1, Serialize(if p1.Some? then p1.value else []),
                     e2, Serialize(if p2.Some? then p2.value else []), ':');
  }

  /** Right after `endpoint + ":{\""` the key shows the name `JSON.stringify`
      visits first: the smallest array index if there is one, otherwise the
      first name inserted. */
  lemma CacheKeyShowsFirstName(endpoint: string, p: Params)
    requires |p| > 0 && forall i :: 0 <= i < |p| ==> |p[i].0| > 0
    ensures |CacheKey(endpoint, Some(p))| > |endpoint| + 3
    ensures CacheKey(endpoint, Some(p))[|endpoint| + 3] == PropertyOrder(p)[0].0[0]
    ensures NoIndexNames(p) ==> CacheKey(endpoint, Some(p))[|endpoint| + 3] == p[0].0[0]
  {
    var q := PropertyOrder(p);
    if NoIndexNames(p) {
      PropertyOrderOfPlainNames(p);
    }
    PropertyOrderShape(p);
    assert q[0] in multiset(p);
    var i :| 0 <= i < |p| && p[i] == q[0];
    var ser := Serialize(p);
    MembersShowFirstName(q);
    assert ser == "{" + Members(q) + "}";
    assert CacheKey(endpoint, Some(p)) == (endpoint + ":") + ser;
  }

  lemma MembersShowFirstName(q: Params)
    requires |q| > 0 && |q[0].0| > 0
    ensures |"{" + Members(q) + "}"| > 2 && ("{" + Members(q) + "}")[2] == q[0].0[0]
  {
    var m := Member(q[0]);
    assert m == ("\"" + q[0].0) + ("\":" + ValueJson(q[0].1));
    assert m[1] == q[0].0[0];
    var ms := Members(q);
    assert ms == m + (if |q| == 1 then "" else "," + Members(q[1..]));
    assert ms[1] == m[1];
    assert ("{" + ms + "}") == ("{" + ms) + "}";
  }

  /** Names that are not array indices keep their insertion order in the key:
      the same two parameters written in the other order are cached separately. */
  lemma CacheKeyIsOrderSensitive(endpoint: string, a: (string, ParamValue), b: (string, ParamValue))
    requires !IsArrayIndex(a.0) && !IsArrayIndex(b.0)
    requires |a.0| > 0 && |b.0| > 0 && a.0[0] != b.0[0]
    ensures CacheKey(endpoint, Some([a, b])) != CacheKey(endpoint, Some([b, a]))
  {
    assert [a, b][1..] == [b] && [b, a][1..] == [a] && [a][1..] == [] && [b][1..] == [];
    assert NoIndexNames([a, b]) && NoIndexNames([b, a]);
    CacheKeyShowsFirstName(endpoint, [a, b]);
    CacheKeyShowsFirstName(endpoint, [b, a]);
  }

  /** An array-index name is serialized before any other name and before a
      larger index, whatever the insertion order, so both orders share one key. */
  lemma CacheKeyIgnoresIndexOrder(endpoint: string, a: (string, ParamValue), b: (string, ParamValue))
    requires IsArrayIndex(a.0)
    requires IsArrayIndex(b.0) ==> IndexValue(a.0) < IndexValue(b.0)
    ensures CacheKey(endpoint, Some([a, b])) == CacheKey(endpoint, Some([b, a]))
  {
    IndexFirstOfTwo(a, b);
  }

  /** `{"2": "b", "1": "a"}` and `{"1": "a", "2": "b"}` share one cache entry. */
  lemma IndexNamesShareKey(endpoint: string)
    ensures CacheKey(endpoint, Some([("2", PStr("b")), ("1", PStr("a"))]))
         == CacheKey(endpoint, Some([("1", PStr("a")), ("2", PStr("b"))]))
  {
    assert "1"[..0] == [] && "2"[..0] == [] && "1"[1..] == [] && "2"[1..] == [];
    assert IsArrayIndex("1") && IsArrayIndex("2") && IndexValue("1") < IndexValue("2");
    CacheKeyIgnoresIndexOrder(endpoint, ("1", PStr("a")), ("2", PStr("b")));
  }

  lemma IndexFirstOfTwo(a: (string, ParamValue), b: (string, ParamValue))
    requires IsArrayIndex(a.0)
    requires IsArrayIndex(b.0) ==> IndexValue(a.0) < IndexValue(b.0)
    ensures PropertyOrder([a, b]) == [a, b] == PropertyOrder([b, a])
  {
    PartsOfOne(a);
    PartsOfOne(b);
    PartsOfTwo(a, b);
    PartsOfTwo(b, a);
    if IsArrayIndex(b.0) {
      assert SortByIndex([b, a]) == InsertByIndex(b, SortByIndex([a]));
      assert [a][1..] == [];
      assert InsertByIndex(b, [a]) == [a] + InsertByIndex(b, []);
    }
  }

  lemma PartsOfTwo(a: (string, ParamValue), b: (string, ParamValue))
    ensures IndexPart([a, b]) == IndexPart([a]) + IndexPart([b])
    ensures OtherPart([a, b]) == OtherPart([a]) + OtherPart([b])
  {
    assert [a, b] == [a] + [b];
    IndexPartAppend([a], [b]);
    OtherPartAppend([a], [b]);
  }

  /** The operation a GET hands to the retry executor. */
  function GetOperation(baseUrl: string, endpoint: string, params: Option<Params>, transport: Network): nat -> Attempt<Json> {
    (k: nat) => transport(GetRequest(baseUrl + endpoint, params), k)
  }

  /** The operation a POST hands to the retry executor. */
  function PostOperation(baseUrl: string, endpoint: string, data: Json, params: Option<Params>, transport: Network): nat -> Attempt<Json> {
    (k: nat) => transport(PostRequest(baseUrl + endpoint, data, params), k)
  }

  /** `if (cachedData) return cachedData`: a cached falsy value is a miss. */
  function CachedHit(s: Snapshot<Json>, cfg: CacheConfig, key: string, now: int): (r: Option<Json>)
    ensures r.Some? ==> Truthy(r.value) && LookupResult(s, cfg, key, now) == r
    ensures r.None? <==> (LookupResult(s, cfg, key, now).Some? ==> !Truthy(LookupResult(s, cfg, key, now).value))
  {
    var v := LookupResult(s, cfg, key, now);
    if v.Some? && Truthy(v.value) then v else None
  }

  /** What `get(endpoint, params)` returns: a hit without any attempt, or the
      retried transport call. */
  function ReadThrough(s: Snapshot<Json>, cfg: CacheConfig, retry: RetryConfig, baseUrl: string,
                       endpoint: string, params: Option<Params>, now: int, transport: Network): (e: Execution<Json>)
    ensures CachedHit(s, cfg, CacheKey(endpoint, params), now).Some? ==>
              e == Execution(Done(CachedHit(s, cfg, CacheKey(endpoint, params), now).value), 0, [])
    ensures CachedHit(s, cfg, CacheKey(endpoint, params), now).None? ==>
              Conforms(GetOperation(baseUrl, endpoint, params, transport), retry, e)
  {
    var hit := CachedHit(s, cfg, CacheKey(endpoint, params), now);
    if hit.Some? then Execution(Done(hit.value), 0, [])
    else
      RunConforms(GetOperation(baseUrl, endpoint, params, transport), retry);
      Run(GetOperation(baseUrl, endpoint, params, transport), retry)
  }

  /** The cache after `get(endpoint, params)`: the lookup's own effect, then
      the write of a fetched response. */
  function ReadState(s: Snapshot<Json>, cfg: CacheConfig, retry: RetryConfig, baseUrl: string,
                     endpoint: string, params: Option<Params>, now: int, storeNow: int, transport: Network): (r: Snapshot<Json>)
    requires WellFormed(s)
    ensures WellFormed(r)
  {
    var key := CacheKey(endpoint, params);
    var looked := AfterGet(s, cfg, key, now);
    var e := ReadThrough(s, cfg, retry, baseUrl, endpoint, params, now, transport);
    if CachedHit(s, cfg, key, now).None? && e.result.Done? then AfterSet(looked, cfg, key, e.result.value, storeNow)
    else looked
  }

  /** A hit is served without the transport: whatever it would answer, the
      result and the cache are the same. */
  lemma HitServedFromCache(s: Snapshot<Json>, cfg: CacheConfig, retry: RetryConfig, baseUrl: string,
                           endpoint: string, params: Option<Params>, now: int, storeNow: int, t1: Network, t2: Network)
    requires WellFormed(s)
    requires CachedHit(s, cfg, CacheKey(endpoint, params), now).Some?
    ensures ReadThrough(s, cfg, retry, baseUrl, endpoint, params, now, t1)
         == ReadThrough(s, cfg, retry, baseUrl, endpoint, params, now, t2)
         == Execution(Done(CachedHit(s, cfg, CacheKey(endpoint, params), now).value), 0, [])
    ensures ReadState(s, cfg, retry, baseUrl, endpoint, params, now, storeNow, t1)
         == ReadState(s, cfg, retry, baseUrl, endpoint, params, now, storeNow, t2)
         == AfterGet(s, cfg, CacheKey(endpoint, params), now)
  {
  }

  /** A cached falsy value (null, false, 0, "") does not answer the request:
      the transport is consulted as on a miss. */
  lemma FalsyCachedValueIsMiss(s: Snapshot<Json>, cfg: CacheConfig, retry: RetryConfig, baseUrl: string,
                               endpoint: string, params: Option<Params>, now: int, transport: Network)
    requires LookupResult(s, cfg, CacheKey(endpoint, params), now).Some?
    requires !Truthy(LookupResult(s, cfg, CacheKey(endpoint, params), now).value)
    ensures ReadThrough(s, cfg, retry, baseUrl, endpoint, params, now, transport)
         == Run(GetOperation(baseUrl, endpoint, params, transport), retry)
  {
  }

  /** With the cache disabled every GET goes to the transport and the cache never changes. */
  lemma DisabledCacheAlwaysFetches(s: Snapshot<Json>, cfg: CacheConfig, retry: RetryConfig, baseUrl: string,
                                   endpoint: string, params: Option<Params>, now: int, storeNow: int, transport: Network)
    requires WellFormed(s) && !cfg.enabled
    ensures ReadThrough(s, cfg, retry, baseUrl, endpoint, params, now, transport)
         == Run(GetOperation(baseUrl, endpoint, params, transport), retry)
    ensures ReadState(s, cfg, retry, baseUrl, endpoint, params, now, storeNow, transport) == s
  {
  }

  /** A failed fetch leaves only the lookup's effect on the cache. */
  lemma ReadFailureCachesNothing(s: Snapshot<Json>, cfg: CacheConfig, retry: RetryConfig, baseUrl: string,
                                 endpoint: string, params: Option<Params>, now: int, storeNow: int, transport: Network)
    requires WellFormed(s)
    requires ReadThrough(s, cfg, retry, baseUrl, endpoint, params, now, transport).result.Threw?
    ensures ReadState(s, cfg, retry, baseUrl, endpoint, params, now, storeNow, transport)
         == AfterGet(s, cfg, CacheKey(endpoint, params), now)
  {
  }

  /** A fetched truthy response is served by the next identical GET within
      its TTL without touching the transport. */
  lemma SecondReadHits(s: Snapshot<Json>, cfg: CacheConfig, retry: RetryConfig, baseUrl: string,
                       endpoint: string, params: Option<Params>, now: int, storeNow: int, later: int,
                       transport: Network, next: Network, v: Json)
    requires WellFormed(s) && cfg.enabled
    requires CachedHit(s, cfg, CacheKey(endpoint, params), now).None?
    requires Run(GetOperation(baseUrl, endpoint, params, transport), retry).result == Done(v)
    requires Truthy(v) && later <= storeNow + cfg.ttl
    ensures var s1 := ReadState(s, cfg, retry, baseUrl, endpoint, params, now, storeNow, transport);
            ReadThrough(s1, cfg, retry, baseUrl, endpoint, params, later, next) == Execution(Done(v), 0, [])
  {
    var key := CacheKey(endpoint, params);
    SetThenGet(AfterGet(s, cfg, key, now), cfg, key, v, storeNow, later);
  }

  /** A successful miss writes whatever the transport returned, falsy values
      included: the entry is fresh and lives for one TTL, and every other
      entry still stored is the one the lookup left. */
  lemma SuccessfulReadStores(s: Snapshot<Json>, cfg: CacheConfig, retry: RetryConfig, baseUrl: string,
                             endpoint: string, params: Option<Params>, now: int, storeNow: int,
                             transport: Network, v: Json)
    requires WellFormed(s) && cfg.enabled
    requires CachedHit(s, cfg, CacheKey(endpoint, params), now).None?
    requires Run(GetOperation(baseUrl, endpoint, params, transport), retry).result == Done(v)
    ensures var key := CacheKey(endpoint, params);
            var looked := AfterGet(s, cfg, key, now);
            var r := ReadState(s, cfg, retry, baseUrl, endpoint, params, now, storeNow, transport);
            && key in r.store && r.store[key] == Entry(v, storeNow + cfg.ttl, storeNow)
            && (forall k :: k in r.store && k != key ==> k in looked.store && r.store[k] == looked.store[k])
  {
    SetStoresFreshEntry(AfterGet(s, cfg, CacheKey(endpoint, params), now), cfg, CacheKey(endpoint, params), v, storeNow);
  }

  /** With a positive bound, a GET never takes the cache past `maxSize`. */
  lemma ReadKeepsSizeBound(s: Snapshot<Json>, cfg: CacheConfig, retry: RetryConfig, baseUrl: string,
                           endpoint: string, params: Option<Params>, now: int, storeNow: int, transport: Network)
    requires WellFormed(s) && 0 < cfg.maxSize && |s.store| <= cfg.maxSize
    ensures |ReadState(s, cfg, retry, baseUrl, endpoint, params, now, storeNow, transport).store| <= cfg.maxSize
  {
    var key := CacheKey(endpoint, params);
    var looked := AfterGet(s, cfg, key, now);
    GetNeverGrows(s, cfg, key, now);
    var e := ReadThrough(s, cfg, retry, baseUrl, endpoint, params, now, transport);
    if CachedHit(s, cfg, key, now).None? && e.result.Done? {
      SetKeepsSizeBound(looked, cfg, key, e.result.value, storeNow);
    }
  }

  class DexPaprikaClient {
    const baseUrl: string
    const retryConfig: RetryConfig
    const cache: Cache<Json>

    ghost predicate Valid()
      reads this, cache
    {
      cache.Valid()
    }

    /** `new DexPaprikaClient(baseUrl?, options?, config?)`; `None` is an omitted base URL. */
    constructor (baseUrl: Option<string>, config: ClientConfig)
      ensures Valid() && fresh(cache)
      ensures this.baseUrl == StripTrailingSlashes(if baseUrl.Some? then baseUrl.value else DefaultBaseUrl)
      ensures retryConfig == MergeRetryConfig(config.retry)
      ensures cache.config == MergeCacheConfig(config.cache) && cache.State() == Snapshot(map[], [])
    {
      this.baseUrl := StripTrailingSlashes(if baseUrl.Some? then baseUrl.value else DefaultBaseUrl);
      retryConfig := MergeRetryConfig(config.retry);
      cache := new Cache(config.cache);
    }

    /** `get(endpoint, params)`: the ghost outputs are the number of transport
        attempts and the waits between them. */
    method Get(endpoint: string, params: Option<Params>, now: int, storeNow: int, transport: Network)
        returns (r: RetryResult<Json>, ghost attempts: nat, ghost delays: seq<int>)
      requires Valid()
      modifies cache
      ensures Valid() && cache.config == old(cache.config)
      ensures Execution(r, attempts, delays)
           == ReadThrough(old(cache.State()), cache.config, retryConfig, baseUrl, endpoint, params, now, transport)
      ensures cache.State()
           == ReadState(old(cache.State()), cache.config, retryConfig, baseUrl, endpoint, params, now, storeNow, transport)
    {
      var key := CacheKey(endpoint, params);
      var cached := cache.Get(key, now);
      if cached.Some? && Truthy(cached.value) {
        return Done(cached.value), 0, [];
      }
      var op := GetOperation(baseUrl, endpoint, params, transport);
      MergeIdempotent(retryConfig);
      var n, ds;
      r, n, ds := WithRetry(op, Overriding(retryConfig));
      attempts, delays := n, ds;
      if r.Done? {
        cache.Set(key, r.value, storeNow);
      }
    }

    /** `post(endpoint, data, params)`: retried, never cached. */
    method Post(endpoint: string, data: Json, params: Option<Params>, transport: Network)
        returns (r: RetryResult<Json>, ghost attempts: nat, ghost delays: seq<int>)
      // The first clause repeats part of the second: it is the one that speaks
      // of the real output `r` alone, the second also pins the ghost outputs.
      ensures r == Run(PostOperation(baseUrl, endpoint, data, params, transport), retryConfig).result
      ensures Execution(r, attempts, delays) == Run(PostOperation(baseUrl, endpoint, data, params, transport), retryConfig)
    {
      MergeIdempotent(retryConfig);
      var n, ds;
      r, n, ds := WithRetry(PostOperation(baseUrl, endpoint, data, params, transport), Overriding(retryConfig));
      attempts, delays := n, ds;
    }

    method ClearCache()
      requires Valid()
      modifies cache
      ensures Valid() && cache.config == old(cache.config)
      ensures cache.State() == Snapshot(map[], []) && CacheSize() == 0
    {
      cache.Clear();
    }

    /** `cacheSize`: entries currently stored, expired ones not yet found included. */
    function CacheSize(): (n: nat)
      requires Valid()
      reads this, cache
      ensures n == |cache.order|
    {
      cache.Size()
    }

    /** `isCacheEnabled()`: a disabled cache answers no lookup. */
    function IsCacheEnabled(): (b: bool)
      reads this, cache
      ensures b == cache.config.enabled
      ensures !b ==> forall key, now :: LookupResult(cache.State(), cache.config, key, now).None?
    {
      cache.config.enabled
    }

    /** `setCacheEnabled(enabled)` writes the shared configuration in place,
        so it takes effect on the next lookup; the stored entries stay. */
    method SetCacheEnabled(enabled: bool)
      requires Valid()
      modifies cache
      ensures Valid() && IsCacheEnabled() == enabled
      ensures cache.config == old(cache.config).(enabled := enabled)
      ensures cache.State() == old(cache.State())
    {
      cache.config := cache.config.(enabled := enabled);
    }
  }
}
