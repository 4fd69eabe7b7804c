# DexPaprika SDK request path, modelled in Dafny

This project models the shared request path of the DexPaprika TypeScript SDK,
a client for a REST market-data API. Every service method except `pools.list` calls `BaseAPI._get`;
`pools.list` throws its deprecation error without a request.
`_get` asks `DexPaprikaClient.get`, which first consults a response cache:

- **Cache.** `Cache` is a bounded key-to-entry store. Entries expire lazily after a TTL. When the store is full, the least recently accessed entry is evicted.
- **Miss.** On a miss the client runs the request through `withRetry`, which makes a bounded number of attempts with a fixed delay schedule. It stops early on a status that is not retryable.
- **Write-back.** A successful response is written back to the cache.
- **Errors.** Whatever the client throws, `_get` turns it into one of the SDK's typed errors (`DexPaprikaError` and its four subkinds) by looking at the status and the server's message.

Modules and files:

| file | models |
|---|---|
| `Wrappers.dfy` | `Option`, `Result` |
| `Text.dfy` | the string operations the source relies on: rendering integers, ASCII `toLowerCase`, `includes`, `split('/').pop()` |
| `JsValues.dfy` | JSON payloads, JavaScript truthiness and `String()`, `??`, flat parameter records and their `JSON.stringify` |
| `Transport.dfy` | the HTTP boundary: responses, transport errors, requests |
| `Errors.dfy` | the error taxonomy of `src/utils/errors.ts` |
| `Helpers.dfy` | `withRetry`, `defaultRetryConfig`, `parseError`, `formatPair` |
| `LruCache.dfy` | the cache: spec functions on a `Snapshot` plus the in-place `Cache` class |
| `Client.dfy` | `DexPaprikaClient` |
| `BaseApi.dfy` | `_get`'s error classifier, `_get`, `_post` |
| `Pools.dfy`, `Tokens.dfy`, `Dexes.dfy` | the request builders of the pool, token and DEX services |

Modelling choices:

- **Clocks.** Clock readings are parameters. The cache methods take `now`. A client GET takes `now` for its lookup and `storeNow` for the write that follows the response.
- **Transport.** The transport is an oracle `Network = (Request, nat) -> Attempt<Json>`. It gives the answer to a request on a given attempt index. The retry executor runs an operation `nat -> Attempt<T>` and records the delays it would sleep.
- **Stateful parts.** The cache and the client are classes whose methods update state in place. Each method is proved equal to a spec function of the old state: `AfterSet`, `AfterGet`, `AfterHas`, `Remove`, `Evict`, `ReadThrough`, `ReadState`. The properties of the source are proved as lemmas about those functions.
- **Iteration order.** A JavaScript `Map` is a `map` plus a sequence of keys in insertion order. That order decides ties in `evictLRU`. A key that is set again keeps its place.
- **Record order.** A parameter record is a sequence of name/value pairs in insertion order. `JSON.stringify` visits names that are array indices ("0", "1", …, below 2^32 - 1) first, in ascending order, and the other names after them in insertion order. The cache key follows that visiting order.
- **Retry executor.** `withRetry` is a `while` loop proved equal to the recursive reference `Run`. `Run` is proved to be the only execution meeting a declarative contract, `Conforms`. That contract covers the attempt budget, the delay before each attempt, which failures allow another attempt, and the final result.
- **Request builders.** They are pure functions from arguments to a `RequestSpec` (path and parameters), or to the validation error. `BaseApi.Fetch` sends the request.

In these corner cases the model follows the code as written:

- **Eviction trigger.** `set` evicts whenever the store holds at least `maxSize` entries, even when the key is already present. When the evicted key is that key, it is written again at the end of the order.
- **`has` and recency.** `has` never updates `lastAccessed`.
- **Eviction ties.** Ties are broken by the first key in insertion order, not left unspecified.
- **Delay lookup.** The delay before attempt k uses `delaySequenceMs[k-1]`, and falls back to the last element when that entry is missing or 0. An empty sequence sleeps 0 ms rather than being rejected.
- **Negative retry budget.** With `maxRetries < 0` no attempt is made and `withRetry` throws `undefined`. `_get` then fails reading `error.response` with a `TypeError`, modelled as `BuiltInError`.
- **Non-string message on a 404.** A 404 whose server message is truthy but not a string makes `message.toLowerCase` throw a `TypeError`.

One consequence of the code as written is proved as a lemma rather than corrected. A 404 on the OHLCV path whose message is a string without "network" is reported as `PoolNotFoundError("ohlcv")`. The same 404 on the transactions path is reported as `PoolNotFoundError("transactions")`. The reason is that the pool address is taken from the last path segment.

## Model

| member | source | states |
|---|---|---|
| Text.IntToString | src/utils/errors.ts:42 | a number below 10^21 in magnitude renders as decimal digits with an optional leading '-' and is never empty (the limit is stated under "Left out") |
| Text.NatToStringInjective | src/utils/errors.ts:42 | different natural numbers have different digit strings |
| Text.IntToStringInjective | src/utils/errors.ts:42 | different numbers render differently |
| Text.Lower | src/api/base.ts:57 | `toLowerCase` keeps the length and lower-cases each ASCII letter |
| Text.Contains | src/api/base.ts:57-61 | `includes`: some position of the string starts a copy of the searched text (a definition; `ContainsInside` and the classifier lemmas use it) |
| Text.ContainsInside | src/api/base.ts:57-61 | a string always includes any part it was assembled from |
| Text.LastSegment | src/api/base.ts:62 | `split('/').pop()` is the suffix after the last '/', holds no '/', and is the whole string when there is no '/' |
| Text.LastSegmentOf | src/api/base.ts:62 | the last segment of `prefix + "/" + seg` is `seg` when `seg` has no '/' |
| JsValues.Field | src/api/base.ts:42 | `data?.name` is defined exactly for an object that has that property |
| JsValues.Coalesce | src/api/pools.ts:63-66 | `??` replaces only a missing value; supplied values such as 0 are kept |
| JsValues.Truthy | dist/client.js:58 | JavaScript truthiness of a payload (a definition; `FalsyValues` characterises it) |
| JsValues.FalsyValues | dist/client.js:58 | exactly null, false, 0 and "" are falsy |
| JsValues.ToJsString | src/utils/errors.ts:42 | what a template literal renders for a value: a string as itself, `null`, `true`/`false`, a number in decimal (below 10^21 in magnitude, see "Left out"), an object as `[object Object]`, an array joined by ',' (a definition, used for the ApiError message) |
| JsValues.Serialize | dist/client.js:45 | `JSON.stringify` of a record: braces around the members taken in `PropertyOrder`; exactly the empty record gives "{}" |
| JsValues.PropertyOrder | dist/client.js:45 | the order `JSON.stringify` visits an object's own names; keeps the count (a definition; `PropertyOrderShape` characterises it) |
| JsValues.PropertyOrderShape | dist/client.js:45 | the visiting order is a permutation of the record: first the array-index names sorted by index, then the other names in insertion order |
| JsValues.PropertyOrderOfPlainNames | dist/client.js:45 | a record without array-index names is visited in insertion order |
| JsValues.SortByIndex | dist/client.js:45 | array-index members come out sorted by index, as many as went in (`SortIsPermutation` adds that they are the same members) |
| JsValues.InsertByIndex | dist/client.js:45 | inserting an array-index member into sorted ones keeps them sorted and adds one member |
| JsValues.Members | dist/client.js:45 | the members joined by ',' in the order given; a non-empty list starts with its first member, and only the empty one gives no text |
| JsValues.Member | dist/client.js:45 | a member is the quoted key, a colon, and the value's JSON |
| Transport.StatusOf | dist/utils/helpers.js:92 | a status counts only when a response exists and the status is not 0 |
| Errors.SdkError.StatusCode | src/utils/errors.ts:38-46 | exactly ApiError carries a `statusCode` |
| Errors.SdkError.Name | src/utils/errors.ts:11-58 | the `name` each constructor sets (a definition; `NameDeterminesKind` states that it tells the kinds apart) |
| Errors.SdkError.Message | src/utils/errors.ts:10-57 | the message each constructor passes to `super` (a definition; `NotFoundMessageCarriesId`, `ApiErrorMessageInjective` and `DeprecatedMessageOrder` state its properties) |
| Errors.SdkError.Kind | src/utils/errors.ts:8-59 | the class each error was constructed from: one tag per SDK class and one for the built-in errors (a definition; `NameDeterminesKind` states that the name tells it) |
| Errors.SdkError.IsDexPaprikaError | src/utils/errors.ts:8-59 | `instanceof DexPaprikaError`: true for the base class and the four classes that extend it, false for the built-in errors (a definition) |
| Errors.NameDeterminesKind | src/utils/errors.ts:8-59 | the five SDK kinds have pairwise distinct `name` tags, so the name tells the kind |
| Errors.NotFoundMessageCarriesId | src/utils/errors.ts:18-33 | not-found messages are a fixed prefix followed by exactly the id or address |
| Errors.ApiErrorMessageInjective | src/utils/errors.ts:38-46 | the `API Error (s): m` message determines both the status and the server message |
| Errors.DeprecatedMessageOrder | src/utils/errors.ts:51-59 | the deprecation message starts with the endpoint, then has the suggestion, and ends with the changelog URL |
| Helpers.MergeRetryConfig | dist/utils/helpers.js:60-75 | each field comes from the override when given, else from the defaults (4, [100, 500, 1000, 5000], [408, 429, 500, 502, 503, 504]) |
| Helpers.MergeIdempotent | dist/client.js:21 | re-merging the client's merged configuration in `withRetry` changes nothing; merging nothing gives the defaults |
| Helpers.DelayFor | dist/utils/helpers.js:81-86 | the delay before attempt k is `delaySequenceMs[k-1]` when present and non-zero, else the last element |
| Helpers.ShortCircuits | dist/utils/helpers.js:92-95 | a failure stops the run when its status is truthy and not listed as retryable (a definition; `NonRetryableStopsAtOnce` and `UnansweredFailuresUseWholeBudget` use it) |
| Helpers.RunFrom | dist/utils/helpers.js:78-102 | the reference run from a given attempt on: it throws `undefined` exactly when that attempt is past the budget |
| Helpers.Run | dist/utils/helpers.js:73-103 | a negative budget makes no attempt and throws `undefined`; otherwise 1 to maxRetries+1 attempts are made and a thrown error is a real one |
| Helpers.Conforms | dist/utils/helpers.js:73-103 | the declarative contract of `withRetry` (a definition; `RunConforms` and `ConformsUnique` tie it to the run) |
| Helpers.RunFromSchedule | dist/utils/helpers.js:78-99 | a run stays within maxRetries+1 attempts and sleeps once before every attempt after the first |
| Helpers.RunFromDelays | dist/utils/helpers.js:81-86 | the delays slept follow the schedule `DelayFor` attempt by attempt |
| Helpers.RunFromOutcome | dist/utils/helpers.js:87-102 | every attempt but the last failed without short-circuiting, and the run settles to the last attempt's value or error |
| Helpers.RunConforms | dist/utils/helpers.js:73-103 | the reference run meets the declarative contract: 1 to maxRetries+1 attempts, no delay before attempt 0, the scheduled delay before each later one, only non-short-circuiting failures before the last attempt, and a result that is the last attempt's value or error |
| Helpers.ConformsUnique | dist/utils/helpers.js:73-103 | any execution meeting that contract is the reference run, so the contract determines result, attempts and delays |
| Helpers.WithRetry | dist/utils/helpers.js:73-103 | with the merged configuration, returns the reference run's result, attempt count and delay list |
| Helpers.RetryLoop | dist/utils/helpers.js:78-102 | the loop returns the reference run's result, attempt count and delay list |
| Helpers.ZeroRetriesMeansOneAttempt | dist/utils/helpers.js:78-99 | with `maxRetries = 0` exactly one attempt is made and nothing is slept |
| Helpers.NonRetryableStopsAtOnce | dist/utils/helpers.js:92-95 | a non-retryable status on the first attempt is re-thrown after that attempt with no delay |
| Helpers.UnansweredFailuresUseWholeBudget | dist/utils/helpers.js:92-99 | failures without a status use all maxRetries+1 attempts and the last error is thrown |
| Helpers.DefaultsRetryThrough429 | dist/utils/helpers.js:60-103 | with the defaults, three 429s and then a success return the value after 4 attempts and delays [100, 500, 1000] |
| Helpers.ParseError | dist/utils/helpers.js:36-45 | the server's message if truthy, else the error's message if non-empty, else "Unknown error occurred"; never falsy |
| Helpers.FormatPair | dist/utils/helpers.js:32-34 | the two tokens with one '/' between them, each recoverable by position |
| Helpers.FormatPairSplits | dist/utils/helpers.js:32-34 | `formatPair(a, b)` splits back into `a` and `b` when `a` has no '/' |
| LruCache.MergeCacheConfig | dist/utils/cache.js:7-25 | each field comes from the override when given, else from ttl 300000, maxSize 1000, enabled |
| LruCache.Without | dist/utils/cache.js:63 | deleting a key from the iteration order keeps exactly the other keys, distinct, in their original order (the order with that one index cut out) |
| LruCache.Remove | dist/utils/cache.js:94-96 | deleting a key keeps the store and its order in step |
| LruCache.RemoveOnlyKey | dist/utils/cache.js:94-96 | `delete` removes the key and nothing else, and the size drops by one exactly when the key was there |
| LruCache.OrderMatchesSize | dist/utils/cache.js:106-108 | the size of the store equals the length of its iteration order |
| LruCache.OldestIndexIsFirstMinimum | dist/utils/cache.js:113-122 | the scan settles on the smallest `lastAccessed`, first in iteration order on ties |
| LruCache.FirstMinimumUnique | dist/utils/cache.js:113-122 | the first minimum is unique, so the victim is determined |
| LruCache.OldestIndex | dist/utils/cache.js:113-122 | the index the scan settles on among the first n keys; below n (`OldestIndexIsFirstMinimum` states it is the first minimum) |
| LruCache.Victim | dist/utils/cache.js:113-122 | the key `evictLRU` deletes is a stored key |
| LruCache.OldestKey | dist/utils/cache.js:115-122 | the scan yields no key for an empty store, else the key at the first minimum of `lastAccessed` |
| LruCache.Evict | dist/utils/cache.js:113-127 | eviction keeps the store and its order in step |
| LruCache.EvictRemovesLeastRecentlyAccessed | dist/utils/cache.js:113-127 | eviction from a non-empty store removes exactly one key, with minimal `lastAccessed`, the first such on ties |
| LruCache.VictimIsMinimal | dist/utils/cache.js:113-122 | no stored entry was accessed earlier than the victim |
| LruCache.AfterGet | dist/utils/cache.js:54-69 | a get keeps the store and its order in step |
| LruCache.LookupResult | dist/utils/cache.js:54-69 | `get` returns data exactly for an enabled cache holding an entry whose expiry has not passed, and then the stored data |
| LruCache.AfterHas | dist/utils/cache.js:76-87 | a has keeps the store and its order in step |
| LruCache.HasResult | dist/utils/cache.js:76-87 | `has` is true exactly when `get` would return a value |
| LruCache.AfterSet | dist/utils/cache.js:34-47 | a set keeps the store and its order in step (`Store` and `SetKeepsOrder` state the order) |
| LruCache.Store | dist/utils/cache.js:41-46 | the write stores the fresh entry {value, now + ttl, now}, appends a new key at the end of the order and keeps a present key's place |
| LruCache.SetKeepsOrder | dist/utils/cache.js:38-46 | surviving keys keep their relative iteration order, the set key included when it was stored and not evicted; a new key, or the victim written again, goes last |
| LruCache.WithoutKeepsBefore | dist/utils/cache.js:63 | deleting a third key keeps two keys in the same iteration order |
| LruCache.DisabledCacheIsInert | dist/utils/cache.js:35-78 | disabled: set changes nothing, get returns nothing, has is false, and neither of them changes the store |
| LruCache.SetKeepsSizeBound | dist/utils/cache.js:38-46 | with 0 < maxSize and size ≤ maxSize before a set, size ≤ maxSize after it |
| LruCache.SetStoresFreshEntry | dist/utils/cache.js:38-46 | set stores {value, now + ttl, now}; other keys keep their entries unless evicted; when full, the victim is gone even if another key is written, and comes back only when it is the written key |
| LruCache.SetThenGet | dist/utils/cache.js:34-69 | a value just set is returned by any get until its TTL has passed |
| LruCache.StaleGetDeletes | dist/utils/cache.js:62-65 | a stale get returns nothing, deletes the key and nothing else, and the size drops by one |
| LruCache.LiveGetTouches | dist/utils/cache.js:57-68 | a live get returns the data and moves only that entry's `lastAccessed` to now |
| LruCache.HasMatchesGet | dist/utils/cache.js:76-87 | has answers like get and deletes what get deletes, but changes nothing on a live entry |
| LruCache.GetNeverGrows | dist/utils/cache.js:54-69 | get never adds an entry |
| LruCache.NoStaleRead | dist/utils/cache.js:57-65 | a value returned by get was stored and had not expired |
| LruCache.Cache.constructor | dist/utils/cache.js:21-27 | a new cache is empty with the merged configuration |
| LruCache.Cache.Set | dist/utils/cache.js:34-47 | the new state is `AfterSet` of the old one |
| LruCache.Cache.Get | dist/utils/cache.js:54-69 | returns `LookupResult` and the new state is `AfterGet` |
| LruCache.Cache.Has | dist/utils/cache.js:76-87 | returns `HasResult` and the new state is `AfterHas` |
| LruCache.Cache.Delete | dist/utils/cache.js:94-96 | returns whether the key was present; the new state is `Remove` |
| LruCache.Cache.Clear | dist/utils/cache.js:100-102 | the store becomes empty and the size 0 |
| LruCache.Cache.Size | dist/utils/cache.js:106-108 | the number of stored entries, expired ones not yet found included |
| LruCache.Cache.EvictLRU | dist/utils/cache.js:113-127 | the new state is `Evict` of the old one |
| Client.StripTrailingSlashes | dist/client.js:19 | the result is a prefix of the URL, does not end in '/', and only '/' characters were removed |
| Client.StripIdempotent | dist/client.js:19 | stripping twice is stripping once; a URL without a trailing '/' is kept |
| Client.StripIgnoresExtraSlashes | dist/client.js:19 | any number of extra trailing slashes give the same base URL |
| Client.CacheKey | dist/client.js:44-46 | the key is the endpoint, a ':', then the serialized parameters (`{}` when there are none) |
| Client.CacheKeyOfAbsentParams | dist/client.js:44-46 | no parameters and an empty record share the key `endpoint + ":{}"` |
| Client.CacheKeySeparatesEndpoints | dist/client.js:44-46 | for endpoints without ':', equal keys mean equal endpoints and equal serialized parameters |
| Client.CacheKeyShowsFirstName | dist/client.js:44-46 | right after `endpoint:{"` the key shows the name `JSON.stringify` visits first; for a record without array-index names that is the first parameter's name |
| Client.CacheKeyIsOrderSensitive | dist/client.js:44-46 | two parameters whose names are not array indices and start with different characters give different keys when swapped |
| Client.CacheKeyIgnoresIndexOrder | dist/client.js:44-46 | an array-index name goes before any other name and before a larger index, so both insertion orders give one key |
| Client.IndexNamesShareKey | dist/client.js:44-46 | `{"2":"b","1":"a"}` and `{"1":"a","2":"b"}` are cached under one key |
| Client.CachedHit | dist/client.js:57-60 | a hit is a truthy value found by the lookup; a falsy or missing value is a miss |
| Client.GetOperation | dist/client.js:62-68 | every attempt sends the same GET of `baseUrl + endpoint` with the parameters (a definition) |
| Client.PostOperation | dist/client.js:80-84 | every attempt sends the same POST of the body to `baseUrl + endpoint` (a definition) |
| Client.ReadThrough | dist/client.js:54-70 | a hit answers with no attempt and no delay; a miss is an execution that meets the retry contract `Conforms` for the GET operation |
| Client.ReadState | dist/client.js:54-70 | the cache after a GET stays well formed (a definition; `SuccessfulReadStores`, `HitServedFromCache`, `ReadFailureCachesNothing` and `DisabledCacheAlwaysFetches` pin what it holds) |
| Client.HitServedFromCache | dist/client.js:57-60 | a hit returns the cached value with no attempt, whatever the transport, and leaves only the lookup's effect |
| Client.FalsyCachedValueIsMiss | dist/client.js:57-60 | a cached null, false, 0 or "" sends the request to the transport |
| Client.DisabledCacheAlwaysFetches | dist/client.js:54-70 | with the cache disabled every GET goes to the transport and the cache is unchanged |
| Client.ReadFailureCachesNothing | dist/client.js:62-69 | a failed fetch writes nothing to the cache |
| Client.SuccessfulReadStores | dist/client.js:62-69 | a successful miss stores the fetched value, falsy or not, as a fresh entry living one TTL; every other entry left is the one the lookup left |
| Client.SecondReadHits | dist/client.js:54-70 | a fetched truthy value is served by the next identical GET within its TTL without the transport |
| Client.ReadKeepsSizeBound | dist/client.js:54-70 | a GET never takes the cache past a positive maxSize |
| Client.DexPaprikaClient.constructor | dist/client.js:18-22 | base URL defaulted and stripped, retry configuration merged, fresh empty cache with merged configuration |
| Client.DexPaprikaClient.Get | dist/client.js:54-70 | result, attempts and delays are `ReadThrough`; the new cache is `ReadState` |
| Client.DexPaprikaClient.Post | dist/client.js:79-86 | result, attempts and delays are the retried POST, and the cache is not touched |
| Client.DexPaprikaClient.ClearCache | dist/client.js:90-92 | the cache becomes empty and `cacheSize` 0 |
| Client.DexPaprikaClient.CacheSize | dist/client.js:96-98 | the number of stored entries |
| Client.DexPaprikaClient.IsCacheEnabled | dist/client.js:102-104 | reports the enabled flag of the shared cache configuration; while it is false no lookup finds anything |
| Client.DexPaprikaClient.SetCacheEnabled | dist/client.js:102-110 | `isCacheEnabled` then equals the argument; the entries and the rest of the configuration stay |
| BaseApi.ServerMessage | src/api/base.ts:42 | `data.error` if truthy, else `data.message` if truthy, else "Unknown API error"; never falsy |
| BaseApi.NetworkCapture | src/api/base.ts:58 | the regex capture: none exactly when no "/networks/" is followed by a non-'/' character; otherwise the run up to the next '/' or the end after the leftmost such match, non-empty and without '/' |
| BaseApi.NetworkCaptureOf | src/api/base.ts:58 | on "/networks/<id>/..." the capture is exactly `id` |
| BaseApi.NetworkIdFor | src/api/base.ts:58 | a truthy `params.network` (as text), else the path's network capture, else "unknown"; never empty |
| BaseApi.PoolAddressFor | src/api/base.ts:62 | the last path segment, or "unknown" when it is empty; never contains '/' |
| BaseApi.Classify | src/api/base.ts:38-72 | a thrown `undefined` gives the TypeError; no response gives the base error with the transport message or "Unknown error occurred"; a 410 gives a deprecation of that endpoint; a 404 whose server message is not a string gives the TypeError; a status other than 404 and 410 gives ApiError of the server message and status |
| BaseApi.GetOutcome | src/api/base.ts:36-72 | `_get` returns the client's value on success and throws exactly the classified error on failure |
| BaseApi.ClassifyKinds | src/api/base.ts:38-72 | no response gives the base error; 410 exactly gives the deprecation error; not-found kinds need a 404; the non-string TypeError arises exactly on a 404 whose server message is not a string; ApiError carries the response status; any status other than 404 and 410 gives ApiError of the server message |
| BaseApi.NetworkMessageWins | src/api/base.ts:56-60 | a 404 whose lower-cased message contains "network" gives NetworkNotFoundError, before any pool rule |
| BaseApi.PoolRuleGivesPoolError | src/api/base.ts:61-64 | a 404 without a network message whose lower-cased message mentions "pool", or whose path contains "/pools/", gives PoolNotFoundError of the last segment or "unknown" |
| BaseApi.Other404IsApiError | src/api/base.ts:56-67 | a 404 matching neither rule is ApiError carrying the server text and 404 |
| BaseApi.GoneNamesAlternative | src/api/base.ts:45-53 | a 410 on "/pools" suggests `client.pools.listByNetwork('ethereum')`; any other 410 points to the documentation |
| BaseApi.MissingNetworkIsNamed | src/api/base.ts:56-59 | "Network not found" on "/networks/<id>/pools" names `id` |
| BaseApi.ConnectionFailureKeepsMessage | src/api/base.ts:71 | without a response the error message is the transport's, or "Unknown error occurred" |
| BaseApi.Get | src/api/base.ts:35-73 | success returns the client's value unchanged; a failure returns the classified error; the cache follows the client's GET |
| BaseApi.Fetch | src/api/base.ts:35-37 | a rejected argument check returns its error without touching the cache; otherwise the request goes through `_get` |
| BaseApi.Post | src/api/base.ts:83-89 | the client's POST result, passed through without classification |
| Pools.ListParams | src/api/pools.ts:62-67 | keys page, limit, sort, order_by in that order, with defaults 0, 10, "desc", "volume_usd"; distinct keys |
| Pools.List | src/api/pools.ts:39-45 | always a DeprecatedEndpointError for "/pools", before any request |
| Pools.ListByNetwork | src/api/pools.ts:54-70 | rejects exactly an empty network id; otherwise `/networks/{id}/pools` with the list parameters |
| Pools.ListByDex | src/api/pools.ts:80-100 | rejects an empty network or dex id, network first; otherwise `/networks/{id}/dexes/{dex}/pools` |
| Pools.CheckPool | src/api/pools.ts:115-120 | the pool methods reject an empty network id, then an empty pool address |
| Pools.GetDetails | src/api/pools.ts:110-126 | validation as `CheckPool`; then `/networks/{id}/pools/{addr}` whose parameters are the single `inversed='true'` exactly when the option is true, else empty |
| Pools.OhlcvParams | src/api/pools.ts:148-155 | start, limit (default 1), interval (default "24h"), then end and inversed only when truthy; distinct keys |
| Pools.GetOHLCV | src/api/pools.ts:136-158 | validation, then `/networks/{id}/pools/{addr}/ohlcv` with the OHLCV parameters |
| Pools.TxParams | src/api/pools.ts:180-185 | page (default 0), limit (default 10), then cursor exactly when truthy; distinct keys |
| Pools.GetTxs | src/api/pools.ts:168-188 | validation, then `/networks/{id}/pools/{addr}/transactions` with the transaction parameters |
| Pools.GetTransactions | src/api/pools.ts:198-204 | the validation errors of `getTxs` in the same order, then its transactions request |
| Pools.ListAlwaysDeprecated | src/api/pools.ts:39-45 | `list()` fails identically for all options, names "/pools", and suggests a different text than the server's 410 |
| Pools.ListAlternativeDiffers | src/api/pools.ts:39-45 | the suggestion of `list()` differs from the one `_get` gives for a 410 on "/pools" |
| Pools.PoolsNoticeFirst | src/api/pools.ts:39-45 | any deprecation of "/pools" opens with "The /pools" |
| Pools.ExplicitDefaultsShareCacheEntry | src/api/pools.ts:62-67 | spelling out the defaults builds the same request as omitting them |
| Pools.NetworksHaveSeparateCacheEntries | src/api/pools.ts:62-69 | listings of different networks never share a cache key |
| Pools.ListByNetworkNotFoundNamesNetwork | src/api/pools.ts:69 | a network 404 on `listByNetwork` names the requested network |
| Pools.PoolPathMentionsPools | src/api/pools.ts:125-187 | a pool path and every path below it contain "/pools/" |
| Pools.PoolPathLastSegment | src/api/pools.ts:125 | the pool named for a pool path is its address when that has no '/' |
| Pools.OhlcvPathLastSegment | src/api/pools.ts:157 | the pool named for an OHLCV path is "ohlcv" |
| Pools.TransactionsPathLastSegment | src/api/pools.ts:187 | the pool named for a transactions path is "transactions" |
| Pools.DetailsNotFoundNamesPool | src/api/pools.ts:125 | a non-network 404 on `getDetails` names the requested pool address |
| Pools.OhlcvNotFoundNamesLastSegment | src/api/pools.ts:157 | a non-network 404 on `getOHLCV` names "ohlcv" as the pool |
| Pools.TransactionsNotFoundNamesLastSegment | src/api/pools.ts:187 | a non-network 404 on `getTransactions` names "transactions" as the pool |
| Pools.EmptyNetworkRejected | src/api/pools.ts:58-60 | `listByNetwork('')` rejects with a plain Error "Network ID is required. …" |
| Tokens.GetDetails | dist/api/tokens.js:16-18 | `/networks/{n}/tokens/{t}` with no parameter record and no validation |
| Tokens.PoolsParams | dist/api/tokens.js:30-38 | page, limit, sort, order_by with defaults, then address exactly when `pairWith` is truthy; distinct keys |
| Tokens.GetPools | dist/api/tokens.js:27-40 | `/networks/{n}/tokens/{t}/pools` with those parameters, no validation |
| Tokens.DetailsCachedUnderEmptyRecord | dist/api/tokens.js:16-18 | token details are cached under `path + ":{}"` |
| Tokens.DetailsNotFoundNamesNetwork | dist/api/tokens.js:16-18 | a network 404 on token details names the requested network |
| Dexes.ListByNetwork | dist/api/dexes.js:16-23 | `/networks/{id}/dexes` with exactly page (default 0) and limit (default 10); no validation |
| Dexes.ListNotFoundNamesNetwork | dist/api/dexes.js:16-23 | a network 404 on the DEX listing names the requested network |

## Left out

- HTTP transport (axios, headers, `httpClient` creation, dist/client.js:24-31): replaced by the `Network` oracle.
- `sleep`/`setTimeout`: delays are recorded, not slept; async interleaving of concurrent requests on one client is not modelled, so every GET runs to completion before the next.
- `Date.now()`, `now`, `yesterday`, `lastWeek`: clock readings are parameters.
- `formatVolume` (floating point, `toFixed`) and `parseDate` (JS `Date`): not part of the request path.
- `JSON.stringify`: modelled only for flat records of strings and integers, without escaping of quotes or control characters.
- Text.IntToString: JavaScript numbers are doubles. `String(x)` switches to exponent form from 10^21 in magnitude (`String(1e21)` is "1e+21"), and integers beyond 2^53 are not held exactly. The model renders every integer as a full row of digits, so it agrees with the source only below 10^21 and for integers a double holds exactly.
- JsValues.ToJsString: inherits the same limit for payload numbers, for example a server message `1e21` in an ApiError. So does `ValueJson` for numeric query parameters in the cache key.
- Numbers are integers throughout: payload numbers, status codes, TTLs and clock readings, `page`/`limit`, and `maxRetries`. A fractional `maxRetries`, which changes how many times `attempt <= maxRetries` holds, and fractional payload numbers are not represented.
- `toLowerCase` is modelled for ASCII letters only.
- The engine's `TypeError` texts are V8's wording; other engines word them differently.
- A configuration key that is present but set to `undefined` (which the spread merge copies over the default) is not modelled: `None` means the key is absent.
- Object identity: `get` returns the very object held in the cache, so a caller that mutates a hit changes what later hits return. Values in this model cannot be mutated, so this aliasing is not shown.
- `Pools.OhlcvParams`: `start` is a string; a missing `start` (which `JSON.stringify` would drop) is not modelled.
- The other services (networks, search, utils), `dist/index.js`, the `.d.ts` declarations, the compiled duplicates of src/ files, the examples and test scripts.
