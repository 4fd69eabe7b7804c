/** dist/utils/helpers.js: the retry executor `withRetry` with its default
    configuration, and the small helpers `parseError` and `formatPair`.
    Sleeping is not performed: the delays the executor would sleep are
    recorded in order instead. */
module Helpers {
  import opened Wrappers
  import opened JsValues
  import opened Transport
  import Text

  datatype RetryConfig = RetryConfig(maxRetries: int, delaySequenceMs: seq<int>, retryableStatuses: seq<int>)

  /** A partial configuration: a `None` field takes the default. */
  datatype RetryOverrides = RetryOverrides(
    maxRetries: Option<int>,
    delaySequenceMs: Option<seq<int>>,
    retryableStatuses: Option<seq<int>>)

  const DefaultRetryConfig := RetryConfig(4, [100, 500, 1000, 5000], [408, 429, 500, 502, 503, 504])

  const NoRetryOverrides := RetryOverrides(None, None, None)

  /** `{ ...defaultRetryConfig, ...overrides }`. */
  function MergeRetryConfig(o: RetryOverrides): (c: RetryConfig)
    ensures o.maxRetries.Some? ==> c.maxRetries == o.maxRetries.value
    ensures o.maxRetries.None? ==> c.maxRetries == DefaultRetryConfig.maxRetries
    ensures o.delaySequenceMs.Some? ==> c.delaySequenceMs == o.delaySequenceMs.value
    ensures o.delaySequenceMs.None? ==> c.delaySequenceMs == DefaultRetryConfig.delaySequenceMs
    ensures o.retryableStatuses.Some? ==> c.retryableStatuses == o.retryableStatuses.value
    ensures o.retryableStatuses.None? ==> c.retryableStatuses == DefaultRetryConfig.retryableStatuses
  {
    RetryConfig(
      if o.maxRetries.Some? then o.maxRetries.value else DefaultRetryConfig.maxRetries,
      if o.delaySequenceMs.Some? then o.delaySequenceMs.value else DefaultRetryConfig.delaySequenceMs,
      if o.retryableStatuses.Some? then o.retryableStatuses.value else DefaultRetryConfig.retryableStatuses)
  }

  /** A complete configuration, as overrides that replace every field. */
  function Overriding(c: RetryConfig): RetryOverrides {
    RetryOverrides(Some(c.maxRetries), Some(c.delaySequenceMs), Some(c.retryableStatuses))
  }

  /** Merging is idempotent: re-merging a complete configuration (as
      `withRetry` does with the client's already merged one) changes nothing,
      and merging nothing gives the defaults. */
  lemma MergeIdempotent(c: RetryConfig)
    ensures MergeRetryConfig(Overriding(c)) == c
    ensures MergeRetryConfig(NoRetryOverrides) == DefaultRetryConfig
  {
  }

  /** The delay slept before attempt `attempt` (at least 1):
      `delaySequenceMs[attempt - 1] || delaySequenceMs[length - 1]`.
      With an empty sequence the timer receives `undefined`, i.e. 0 ms. */
  function DelayFor(c: RetryConfig, attempt: nat): (d: int)
    requires attempt >= 1
    ensures attempt - 1 < |c.delaySequenceMs| && c.delaySequenceMs[attempt - 1] != 0 ==> d == c.delaySequenceMs[attempt - 1]
    ensures !(attempt - 1 < |c.delaySequenceMs| && c.delaySequenceMs[attempt - 1] != 0) ==>
              d == if |c.delaySequenceMs| > 0 then c.delaySequenceMs[|c.delaySequenceMs| - 1] else 0
  {
    var ds := c.delaySequenceMs;
    var i := attempt - 1;
    if i < |ds| && ds[i] != 0 then ds[i]
    else if |ds| > 0 then ds[|ds| - 1]
    else 0
  }

  /** A failure with a truthy status outside the retryable list is re-thrown at once. */
  predicate ShortCircuits(c: RetryConfig, e: TransportError) {
    StatusOf(e).Some? && StatusOf(e).value !in c.retryableStatuses
  }

  /** What `withRetry` settles to: the operation's value, or a thrown error.
      `Threw(None)` is `throw lastError` with nothing ever tried. */
  datatype RetryResult<T> = Done(value: T) | Threw(lastError: Option<TransportError>)

  /** A whole run: its result, how many attempts it made, the delays it slept. */
  datatype Execution<T> = Execution(result: RetryResult<T>, attempts: nat, delays: seq<int>)

  /** The reference definition of the retry loop, from attempt `attempt` on. */
  function RunFrom<T>(op: nat -> Attempt<T>, c: RetryConfig, attempt: nat): (e: Execution<T>)
    ensures e.result == Threw(None) <==> attempt > c.maxRetries
    decreases if attempt <= c.maxRetries then c.maxRetries - attempt else 0
  {
    if attempt > c.maxRetries then Execution(Threw(None), attempt, [])
    else
      var wait := if attempt > 0 then [DelayFor(c, attempt)] else [];
      match op(attempt)
      case Succeeded(v) => Execution(Done(v), attempt + 1, wait)
      case Fail(e) =>
        if ShortCircuits(c, e) || attempt == c.maxRetries then Execution(Threw(Some(e)), attempt + 1, wait)
        else
          var rest := RunFrom(op, c, attempt + 1);
          Execution(rest.result, rest.attempts, wait + rest.delays)
  }

  /** `withRetry`: a negative budget makes no attempt and throws `undefined`;
      otherwise between one and `maxRetries + 1` attempts are made. */
  function Run<T>(op: nat -> Attempt<T>, c: RetryConfig): (e: Execution<T>)
    ensures c.maxRetries < 0 ==> e == Execution(Threw(None), 0, [])
    ensures c.maxRetries >= 0 ==> 1 <= e.attempts <= c.maxRetries + 1
    ensures c.maxRetries >= 0 && e.result.Threw? ==> e.result.lastError.Some?
  {
    if c.maxRetries >= 0 then
      RunFromSchedule(op, c, 0);
      RunFrom(op, c, 0)
    else RunFrom(op, c, 0)
  }

  /** The executor's contract stated declaratively, independent of the loop:
      the attempt budget, the delay schedule, which failures let it go on, and
      what it settles to. */
  ghost predicate Conforms<T>(op: nat -> Attempt<T>, c: RetryConfig, e: Execution<T>) {
    if c.maxRetries < 0 then e == Execution(Threw(None), 0, [])
    else
      && 1 <= e.attempts <= c.maxRetries + 1
      && |e.delays| == e.attempts - 1
      && (forall i :: 0 <= i < |e.delays| ==> e.delays[i] == DelayFor(c, i + 1))
      && (forall k :: 0 <= k < e.attempts - 1 ==> op(k).Fail? && !ShortCircuits(c, op(k).failure))
      && match op(e.attempts - 1)
         case Succeeded(v) => e.result == Done(v)
         case Fail(f) => e.result == Threw(Some(f)) && (ShortCircuits(c, f) || e.attempts == c.maxRetries + 1)
  }

  /** From attempt `attempt` on, the run stays within the budget and sleeps
      once before every attempt after the first. */
  lemma {:induction false} RunFromSchedule<T>(op: nat -> Attempt<T>, c: RetryConfig, attempt: nat)
    requires attempt <= c.maxRetries
    ensures var e := RunFrom(op, c, attempt);
            && attempt + 1 <= e.attempts <= c.maxRetries + 1
            && |e.delays| == e.attempts - (if attempt == 0 then 1 else attempt)
    decreases c.maxRetries - attempt
  {
    if op(attempt).Fail? && !(ShortCircuits(c, op(attempt).failure) || attempt == c.maxRetries) {
      RunFromSchedule(op, c, attempt + 1);
    }
  }

  /** The delays slept from attempt `attempt` on follow the schedule. */
  lemma {:induction false} RunFromDelays<T>(op: nat -> Attempt<T>, c: RetryConfig, attempt: nat)
    requires attempt <= c.maxRetries
    ensures forall i :: 0 <= i < |RunFrom(op, c, attempt).delays| ==>
              RunFrom(op, c, attempt).delays[i] == DelayFor(c, (if attempt == 0 then 1 else attempt) + i)
    decreases c.maxRetries - attempt
  {
    var e := RunFrom(op, c, attempt);
    if op(attempt).Fail? && !(ShortCircuits(c, op(attempt).failure) || attempt == c.maxRetries) {
      RunFromDelays(op, c, attempt + 1);
      var rest := RunFrom(op, c, attempt + 1);
      assert forall i :: 0 <= i < |rest.delays| ==> rest.delays[i] == DelayFor(c, attempt + 1 + i);
      if attempt == 0 {
        assert e.delays == rest.delays;
      } else {
        assert e.delays == [DelayFor(c, attempt)] + rest.delays;
        forall i | 0 < i < |e.delays| ensures e.delays[i] == DelayFor(c, attempt + i) {
          var j := i - 1;
          assert e.delays[i] == rest.delays[j] == DelayFor(c, attempt + 1 + j);
        }
      }
    }
  }

  /** From attempt `attempt` on, every attempt but the last failed without
      short-circuiting, and the run settles to what the last one gave. */
  lemma {:induction false} RunFromOutcome<T>(op: nat -> Attempt<T>, c: RetryConfig, attempt: nat)
    requires attempt <= c.maxRetries
    ensures var e := RunFrom(op, c, attempt);
            && attempt + 1 <= e.attempts <= c.maxRetries + 1
            && (forall k :: attempt <= k < e.attempts - 1 ==> op(k).Fail? && !ShortCircuits(c, op(k).failure))
            && match op(e.attempts - 1)
               case Succeeded(v) => e.result == Done(v)
               case Fail(f) => e.result == Threw(Some(f)) && (ShortCircuits(c, f) || e.attempts == c.maxRetries + 1)
    decreases c.maxRetries - attempt
  {
    if op(attempt).Fail? && !(ShortCircuits(c, op(attempt).failure) || attempt == c.maxRetries) {
      RunFromOutcome(op, c, attempt + 1);
    }
  }

  /** The reference definition meets the declarative contract ... */
  lemma RunConforms<T>(op: nat -> Attempt<T>, c: RetryConfig)
    ensures Conforms(op, c, Run(op, c))
  {
    if c.maxRetries >= 0 {
      RunFromSchedule(op, c, 0);
      RunFromDelays(op, c, 0);
      RunFromOutcome(op, c, 0);
    }
  }

  /** ... and nothing else does: the contract determines the run. */
  lemma ConformsUnique<T>(op: nat -> Attempt<T>, c: RetryConfig, e: Execution<T>)
    requires Conforms(op, c, e)
    ensures e == Run(op, c)
  {
    RunConforms(op, c);
    var r := Run(op, c);
    if c.maxRetries >= 0 {
      assert e.attempts == r.attempts;
      assert e.delays == r.delays;
    }
  }

  /** `withRetry(operation, config)`: the attempt with index k answers `op(k)`. */
  method WithRetry<T>(op: nat -> Attempt<T>, config: RetryOverrides)
      returns (r: RetryResult<T>, attempts: nat, delays: seq<int>)
    ensures Execution(r, attempts, delays) == Run(op, MergeRetryConfig(config))
  {
    r, attempts, delays := RetryLoop(op, MergeRetryConfig(config));
  }

  /** The loop of `withRetry` under the merged configuration `c`. */
  method RetryLoop<T>(op: nat -> Attempt<T>, c: RetryConfig)
      returns (r: RetryResult<T>, attempts: nat, delays: seq<int>)
    ensures Execution(r, attempts, delays) == Run(op, c)
  {
    var lastError: Option<TransportError> := None;
    delays := [];
    attempts := 0;
    var attempt: nat := 0;
    while attempt <= c.maxRetries
      invariant attempts == attempt
      invariant attempt > 0 ==> attempt <= c.maxRetries
      invariant attempt == 0 ==> delays == [] && lastError == None
      invariant Run(op, c) == Execution(RunFrom(op, c, attempt).result, RunFrom(op, c, attempt).attempts, delays + RunFrom(op, c, attempt).delays)
      decreases c.maxRetries - attempt
    {
      if attempt > 0 {
        delays := delays + [DelayFor(c, attempt)];
      }
      attempts := attempts + 1;
      var outcome := op(attempt);
      if outcome.Succeeded? {
        r := Done(outcome.value);
        return;
      }
      lastError := Some(outcome.failure);
      if ShortCircuits(c, outcome.failure) || attempt == c.maxRetries {
        r := Threw(lastError);
        return;
      }
      var rest := RunFrom(op, c, attempt + 1);
      assert RunFrom(op, c, attempt).delays == (if attempt > 0 then [DelayFor(c, attempt)] else []) + rest.delays;
      attempt := attempt + 1;
    }
    r := Threw(lastError);
  }

  /** With `maxRetries = 0` there is exactly one attempt and no delay. */
  lemma ZeroRetriesMeansOneAttempt<T>(op: nat -> Attempt<T>, c: RetryConfig)
    requires c.maxRetries == 0
    ensures Run(op, c).attempts == 1 && Run(op, c).delays == []
  {
    RunFromSchedule(op, c, 0);
  }

  /** A non-retryable status on the first attempt is re-thrown at once. */
  lemma NonRetryableStopsAtOnce<T>(op: nat -> Attempt<T>, c: RetryConfig)
    requires c.maxRetries >= 0 && op(0).Fail? && ShortCircuits(c, op(0).failure)
    ensures Run(op, c) == Execution(Threw(Some(op(0).failure)), 1, [])
  {
  }

  /** Failures without a status never short-circuit: when every attempt fails
      that way, all `maxRetries + 1` attempts are made and the last error is thrown. */
  lemma UnansweredFailuresUseWholeBudget<T>(op: nat -> Attempt<T>, c: RetryConfig)
    requires c.maxRetries >= 0
    requires forall k :: 0 <= k <= c.maxRetries ==> op(k).Fail? && StatusOf(op(k).failure).None?
    ensures Run(op, c).attempts == c.maxRetries + 1
    ensures Run(op, c).result == Threw(Some(op(c.maxRetries).failure))
  {
    RunConforms(op, c);
  }

  /** The scenario of the default configuration: three 429s, then success. */
  lemma DefaultsRetryThrough429<T>(op: nat -> Attempt<T>, v: T)
    requires forall k :: 0 <= k < 3 ==> op(k).Fail? && StatusOf(op(k).failure) == Some(429)
    requires op(3) == Succeeded(v)
    ensures Run(op, DefaultRetryConfig) == Execution(Done(v), 4, [100, 500, 1000])
  {
    var c := DefaultRetryConfig;
    var e := Execution(Done(v), 4, [100, 500, 1000]);
    assert DelayFor(c, 1) == 100 && DelayFor(c, 2) == 500 && DelayFor(c, 3) == 1000;
    assert forall k :: 0 <= k < 3 ==> !ShortCircuits(c, op(k).failure);
    assert Conforms(op, c, e);
    ConformsUnique(op, c, e);
  }

  /** `err?.response?.data?.message`, when present. */
  function ResponseMessage(err: Option<TransportError>): Option<Json> {
    if err.Some? && err.value.response.Some? then Field(err.value.response.value.data, "message") else None
  }

  /** `parseError(err)`: the server's `message`, else the error's own
      message, else a fixed text. The result is never falsy. */
  function ParseError(err: Option<TransportError>): (m: Json)
    ensures Truthy(m)
    ensures ResponseMessage(err).Some? && Truthy(ResponseMessage(err).value) ==> m == ResponseMessage(err).value
    ensures !(ResponseMessage(err).Some? && Truthy(ResponseMessage(err).value)) ==>
              m == JStr(if err.Some? && err.value.message != "" then err.value.message else "Unknown error occurred")
  {
    var server := ResponseMessage(err);
    if server.Some? && Truthy(server.value) then server.value
    else if err.Some? && err.value.message != "" then JStr(err.value.message)
    else JStr("Unknown error occurred")
  }

  /** `formatPair(token0, token1)`. */
  function FormatPair(token0: string, token1: string): (pair: string)
    ensures |pair| == |token0| + 1 + |token1| && pair[|token0|] == '/'
    ensures pair[..|token0|] == token0 && pair[|token0| + 1..] == token1
  {
    token0 + "/" + token1
  }

  /** Splits a pair at its first '/'. */
  function SplitPair(pair: string): (string, string) {
    var left := Text.TakeUntil(pair, '/');
    (left, if |left| < |pair| then pair[|left| + 1..] else "")
  }

  /** A pair whose first token has no '/' splits back into its tokens. */
  lemma FormatPairSplits(token0: string, token1: string)
    requires '/' !in token0
    ensures SplitPair(FormatPair(token0, token1)) == (token0, token1)
  {
    assert FormatPair(token0, token1) == token0 + ("/" + token1);
    Text.TakeUntilOf(token0, "/" + token1, '/');
  }
}
