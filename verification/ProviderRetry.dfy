/** Calling a model provider: the capped doubling backoff in 64-bit arithmetic, and the attempt loop around the
    transport. */
module ProviderRetry {
  import opened Text

  const HALF: int := 0x4000_0000_0000_0000
  const LIMIT: int := 0x8000_0000_0000_0000
  const RANGE: int := 0x1_0000_0000_0000_0000

  predicate Int64(x: int) { -LIMIT <= x < LIMIT }

  /** What a 64-bit signed product keeps of `x`. */
  function Wrap(x: int): (w: int)
    ensures Int64(w) && (Int64(x) ==> w == x)
  {
    (x + LIMIT) % RANGE - LIMIT
  }

  // Durations are nanoseconds.
  datatype RetryPolicy = RetryPolicy(maxAttempts: int, initialBackoff: int, maxBackoff: int)

  const MILLISECOND: int := 1_000_000

  function DefaultPolicy(): RetryPolicy {
    RetryPolicy(2, 200 * MILLISECOND, 2000 * MILLISECOND)
  }

  predicate ValidPolicy(p: RetryPolicy) { Int64(p.initialBackoff) && Int64(p.maxBackoff) }

  // ---------- Backoff ----------

  function Start(p: RetryPolicy): int {
    if p.initialBackoff <= 0 then 200 * MILLISECOND else p.initialBackoff
  }

  /** The wait after `steps` doublings of `backoff`, as 64-bit arithmetic gives it. */
  function Backoff(backoff: int, max: int, steps: nat): int
    decreases steps
  {
    if steps == 0 then (if max > 0 && backoff > max then max else backoff)
    else if max > 0 && Wrap(backoff * 2) > max then max
    else Backoff(Wrap(backoff * 2), max, steps - 1)
  }

  method BackoffForAttempt(p: RetryPolicy, attempt: int) returns (wait: int)
    requires ValidPolicy(p)
    ensures wait == Backoff(Start(p), p.maxBackoff, if attempt < 1 then 0 else attempt - 1)
  {
    var backoff := p.initialBackoff;
    if backoff <= 0 { backoff := 200 * MILLISECOND; }
    var i := 1;
    while i < attempt
      invariant i == 1 || i <= attempt
      invariant Backoff(backoff, p.maxBackoff, if attempt < i then 0 else attempt - i)
             == Backoff(Start(p), p.maxBackoff, if attempt < 1 then 0 else attempt - 1)
      decreases attempt - i
    {
      backoff := Wrap(backoff * 2);
      if p.maxBackoff > 0 && backoff > p.maxBackoff { return p.maxBackoff; }
      i := i + 1;
    }
    if p.maxBackoff > 0 && backoff > p.maxBackoff { return p.maxBackoff; }
    return backoff;
  }

  /** `x` times two to the `steps`, without overflow. */
  function Doubled(x: int, steps: nat): int
    decreases steps
  {
    if steps == 0 then x else Doubled(2 * x, steps - 1)
  }

  /** The documented wait: exponential, up to a maximum when there is one. */
  function Capped(x: int, max: int, steps: nat): int {
    if max > 0 && Doubled(x, steps) > max then max else Doubled(x, steps)
  }

  /** The last doubling of `x` that still fits 64 bits. */
  function Top(x: int): (t: int)
    requires 0 < x < LIMIT
    ensures x <= t && HALF <= t < LIMIT
    decreases LIMIT - x
  {
    if x >= HALF then x else Top(2 * x)
  }

  /** The doubling passes the maximum before it leaves 64 bits. */
  predicate CapFirst(x: int, max: int)
    requires 0 < x < LIMIT
  {
    x < HALF && Top(x) > max
  }

  lemma {:induction false} DoublingGrows(x: int, steps: nat)
    requires x > 0
    ensures Doubled(x, steps) >= x && Doubled(x, steps + 1) == 2 * Doubled(x, steps)
    decreases steps
  {
    if steps > 0 { DoublingGrows(2 * x, steps - 1); }
  }

  lemma {:induction false} CapFirstExact(x: int, max: int, steps: nat)
    requires 0 < x < LIMIT && 0 < max && CapFirst(x, max)
    ensures Backoff(x, max, steps) == Capped(x, max, steps)
    decreases steps
  {
    if steps > 0 {
      DoublingGrows(2 * x, steps - 1);
      assert Top(x) == Top(2 * x);
      if 2 * x <= max { CapFirstExact(2 * x, max, steps - 1); }
    }
  }

  /** Otherwise some wait comes out negative. */
  lemma {:induction false} Overflow(x: int, max: int) returns (steps: nat)
    requires 0 < x < LIMIT && 0 < max < LIMIT && !CapFirst(x, max)
    ensures Backoff(x, max, steps + 1) < 0 < Backoff(x, max, steps)
    decreases LIMIT - x
  {
    if x >= HALF {
      steps := 0;
      assert Wrap(2 * x) == 2 * x - RANGE;
      assert Backoff(Wrap(x * 2), max, 0) == Wrap(2 * x);
    } else {
      steps := Overflow(2 * x, max);
      steps := steps + 1;
    }
  }

  /** With a maximum, every attempt waits as documented exactly when the doubling passes the maximum before it leaves 64
      bits. A maximum below 2^62 with a start below 2^62 is enough; a maximum of 2^62 is not. */
  lemma BackoffExactIff(x: int, max: int)
    requires 0 < x < LIMIT && 0 < max < LIMIT
    ensures (forall steps: nat :: Backoff(x, max, steps) == Capped(x, max, steps)) <==> CapFirst(x, max)
    ensures x < HALF && max < HALF ==> CapFirst(x, max)
  {
    if CapFirst(x, max) {
      forall steps: nat ensures Backoff(x, max, steps) == Capped(x, max, steps) { CapFirstExact(x, max, steps); }
    } else {
      var steps := Overflow(x, max);
      DoublingGrows(x, steps + 1);
    }
  }

  /** The same condition decides whether waits never get shorter. */
  lemma BackoffNondecreasingIff(x: int, max: int)
    requires 0 < x < LIMIT && 0 < max < LIMIT
    ensures (forall steps: nat :: Backoff(x, max, steps) <= Backoff(x, max, steps + 1)) <==> CapFirst(x, max)
  {
    if CapFirst(x, max) {
      forall steps: nat ensures Backoff(x, max, steps) <= Backoff(x, max, steps + 1) {
        CapFirstExact(x, max, steps);
        CapFirstExact(x, max, steps + 1);
        DoublingGrows(x, steps);
      }
    } else {
      var steps := Overflow(x, max);
    }
  }

  /** Without a maximum a wait is as documented exactly while the product fits 64 bits. */
  lemma {:induction false} UncappedExactIff(x: int, max: int, steps: nat)
    requires 0 < x < LIMIT && max <= 0
    ensures Backoff(x, max, steps) == Doubled(x, steps) <==> Doubled(x, steps) < LIMIT
    ensures Int64(Backoff(x, max, steps))
    decreases steps
  {
    if steps > 0 {
      DoublingGrows(2 * x, steps - 1);
      if 2 * x < LIMIT { UncappedExactIff(2 * x, max, steps - 1); } else { BackoffInt64(Wrap(2 * x), max, steps - 1); }
    }
  }

  lemma {:induction false} BackoffInt64(x: int, max: int, steps: nat)
    requires Int64(x)
    ensures Int64(Backoff(x, max, steps)) && (max > 0 ==> Backoff(x, max, steps) <= max)
    decreases steps
  {
    if steps > 0 { BackoffInt64(Wrap(x * 2), max, steps - 1); }
  }

  /** A maximum of 2^62 is already too much: a start of 2^61 makes the third attempt wait a negative time. */
  lemma HalfRangeOverflows()
    ensures Backoff(HALF / 2, HALF, 2) == -LIMIT && Capped(HALF / 2, HALF, 2) == HALF
  {
    assert Backoff(HALF / 2, HALF, 2) == Backoff(HALF, HALF, 1) == Backoff(-LIMIT, HALF, 0);
    assert Doubled(HALF / 2, 2) == Doubled(HALF, 1) == Doubled(2 * HALF, 0);
  }

  // ---------- The attempt loop ----------

  datatype ErrorCategory = Config | Auth | RateLimited | Http4xx | Http5xx | Timeout | TransportFailure | Unavailable

  datatype ProviderError = ProviderError(category: ErrorCategory, statusCode: int, retryable: bool)

  datatype Usage = Usage(promptTokens: int, completionTokens: int, totalTokens: int)

  datatype Body = Undecodable | Decoded(choices: seq<string>, usage: Usage)

  /** What the transport does with one call. */
  datatype Outcome = CallFailed(timedOut: bool) | Answered(statusCode: int, body: Body)

  datatype CallRecord = CallRecord(attemptIndex: int, statusCode: int, failed: bool, category: ErrorCategory)

  datatype UsageRecord = UsageRecord(attemptIndex: int, usage: Usage)

  datatype Result = Success(content: string, usage: Usage) | Failure(error: ProviderError)

  function FromStatus(statusCode: int): ProviderError {
    if statusCode == 401 || statusCode == 403 then ProviderError(Auth, statusCode, false)
    else if statusCode == 429 then ProviderError(RateLimited, statusCode, true)
    else if 400 <= statusCode < 500 then ProviderError(Http4xx, statusCode, false)
    else if statusCode >= 500 then ProviderError(Http5xx, statusCode, true)
    else ProviderError(Unavailable, statusCode, false)
  }

  /** What one call comes to, were it the last. */
  function Verdict(o: Outcome): Result {
    match o
    case CallFailed(timedOut) => Failure(ProviderError(if timedOut then Timeout else TransportFailure, 0, true))
    case Answered(statusCode, body) =>
      if statusCode >= 400 then Failure(FromStatus(statusCode))
      else match body
           case Undecodable => Failure(ProviderError(TransportFailure, 0, false))
           case Decoded(choices, usage) =>
             if choices == [] then Failure(ProviderError(Unavailable, 0, false)) else Success(choices[0], usage)
  }

  /** A call worth repeating: the transport failed, or the status was 429 or at least 500. */
  predicate Transient(o: Outcome) {
    o.CallFailed? || o.statusCode == 429 || o.statusCode >= 500
  }

  lemma TransientIff(o: Outcome)
    ensures Transient(o) <==> Verdict(o).Failure? && Verdict(o).error.retryable
  {
  }

  predicate Records(r: CallRecord, o: Outcome, attemptIndex: int) {
    && r.attemptIndex == attemptIndex
    && r.statusCode == (if o.CallFailed? then 0 else o.statusCode)
    && (r.failed <==> Verdict(o).Failure?)
    && (r.failed ==> r.category == Verdict(o).error.category)
  }

  function Effective(p: RetryPolicy): (q: RetryPolicy)
    ensures q.maxAttempts > 0
  {
    if p.maxAttempts <= 0 then DefaultPolicy() else p
  }

  /** `made` calls, one record each, were made in this order: all but the last were transient, and the last was not unless
      no attempt was left. */
  ghost predicate Attempts(p: RetryPolicy, transport: int -> Outcome, attemptIndex: int, made: int,
                           calls: seq<CallRecord>, sleeps: seq<int>)
  {
    && 1 <= made <= p.maxAttempts
    && (forall a :: 1 <= a < made ==> Transient(transport(a)))
    && |calls| == made && (forall a :: 1 <= a <= made ==> Records(calls[a - 1], transport(a), attemptIndex))
    && |sleeps| == made - 1
    && (forall i :: 0 <= i < |sleeps| ==> sleeps[i] == Backoff(Start(p), p.maxBackoff, i))
  }

  ghost predicate Stopped(p: RetryPolicy, transport: int -> Outcome, made: int) {
    made == p.maxAttempts || !Transient(transport(made))
  }

  /** One transport call and its records. */
  method Attempt(o: Outcome, attemptIndex: int) returns (result: Result, call: CallRecord, usages: seq<UsageRecord>)
    ensures result == Verdict(o) && Records(call, o, attemptIndex)
    ensures usages == if result.Success? then [UsageRecord(attemptIndex, result.usage)] else []
  {
    usages := [];
    if o.CallFailed? {
      var error := ProviderError(if o.timedOut then Timeout else TransportFailure, 0, true);
      return Failure(error), CallRecord(attemptIndex, 0, true, error.category), [];
    }
    if o.statusCode >= 400 {
      var error := FromStatus(o.statusCode);
      return Failure(error), CallRecord(attemptIndex, o.statusCode, true, error.category), [];
    }
    if o.body.Undecodable? {
      var error := ProviderError(TransportFailure, 0, false);
      return Failure(error), CallRecord(attemptIndex, o.statusCode, true, error.category), [];
    }
    if o.body.choices == [] {
      var error := ProviderError(Unavailable, 0, false);
      return Failure(error), CallRecord(attemptIndex, o.statusCode, true, error.category), [];
    }
    result := Success(o.body.choices[0], o.body.usage);
    call := CallRecord(attemptIndex, o.statusCode, false, Config);
    usages := [UsageRecord(attemptIndex, o.body.usage)];
  }

  /** Nothing is called without a model name and an API key. Otherwise there are between one and the maximum number of
      calls, one record each, one usage record exactly on success, and a wait before every further call. */
  method Generate(policy: RetryPolicy, hasModelName: bool, apiKey: string, requestedIndex: int, transport: int -> Outcome)
    returns (result: Result, calls: seq<CallRecord>, usages: seq<UsageRecord>, sleeps: seq<int>)
    requires ValidPolicy(policy)
    ensures !hasModelName ==> result == Failure(ProviderError(Config, 0, false))
    ensures hasModelName && Blank(apiKey) ==> result == Failure(ProviderError(Auth, 0, false))
    ensures !hasModelName || Blank(apiKey) ==> calls == [] && sleeps == []
    ensures hasModelName && !Blank(apiKey) ==>
              var index := if requestedIndex == 0 then 1 else requestedIndex;
              && Attempts(Effective(policy), transport, index, |calls|, calls, sleeps)
              && Stopped(Effective(policy), transport, |calls|)
              && result == Verdict(transport(|calls|))
    ensures result.Success? ==> usages == [UsageRecord(if requestedIndex == 0 then 1 else requestedIndex, result.usage)]
    ensures result.Failure? ==> usages == []
  {
    calls, usages, sleeps := [], [], [];
    if !hasModelName { result := Failure(ProviderError(Config, 0, false)); return; }
    if Blank(apiKey) { result := Failure(ProviderError(Auth, 0, false)); return; }
    var attemptIndex := if requestedIndex == 0 then 1 else requestedIndex;
    var p := if policy.maxAttempts <= 0 then DefaultPolicy() else policy;
    var attempt := 1;
    while true
      invariant 1 <= attempt <= p.maxAttempts && |calls| == attempt - 1 == |sleeps| && usages == []
      invariant forall a :: 1 <= a < attempt ==> Transient(transport(a)) && Records(calls[a - 1], transport(a), attemptIndex)
      invariant forall i :: 0 <= i < |sleeps| ==> sleeps[i] == Backoff(Start(p), p.maxBackoff, i)
      decreases p.maxAttempts - attempt
    {
      var call;
      result, call, usages := Attempt(transport(attempt), attemptIndex);
      TransientIff(transport(attempt));
      calls := calls + [call];
      if result.Success? || !result.error.retryable || attempt >= p.maxAttempts { return; }
      var wait := BackoffForAttempt(p, attempt);
      sleeps := sleeps + [wait];
      attempt := attempt + 1;
    }
  }

  /** The outcomes of the calls alone fix how many there are. */
  lemma AttemptsDetermined(p: RetryPolicy, transport: int -> Outcome, index: int, calls: seq<CallRecord>, sleeps: seq<int>,
                           calls': seq<CallRecord>, sleeps': seq<int>)
    requires Attempts(p, transport, index, |calls|, calls, sleeps) && Stopped(p, transport, |calls|)
    requires Attempts(p, transport, index, |calls'|, calls', sleeps') && Stopped(p, transport, |calls'|)
    ensures |calls| == |calls'| && sleeps == sleeps'
  {
    assert !(|calls| < |calls'|) && !(|calls'| < |calls|);
  }

  /** Success comes exactly when some call within the allowance succeeds before any call fails for good. */
  lemma SucceedsIff(p: RetryPolicy, transport: int -> Outcome, index: int, calls: seq<CallRecord>, sleeps: seq<int>)
    requires Attempts(p, transport, index, |calls|, calls, sleeps) && Stopped(p, transport, |calls|)
    ensures Verdict(transport(|calls|)).Success? <==>
            exists n :: 1 <= n <= p.maxAttempts && Verdict(transport(n)).Success? && forall a :: 1 <= a < n ==> Transient(transport(a))
  {
    if n :| 1 <= n <= p.maxAttempts && Verdict(transport(n)).Success? && forall a :: 1 <= a < n ==> Transient(transport(a)) {
      TransientIff(transport(n));
      TransientIff(transport(|calls|));
      assert n == |calls|;
    }
  }

  /** With nothing configured there are at most two calls, 200 milliseconds apart. */
  lemma UnconfiguredAttempts(p: RetryPolicy, transport: int -> Outcome, index: int, calls: seq<CallRecord>, sleeps: seq<int>)
    requires p.maxAttempts <= 0 && Attempts(Effective(p), transport, index, |calls|, calls, sleeps)
    ensures |calls| <= 2 && forall i :: 0 <= i < |sleeps| ==> sleeps[i] == 200_000_000
  {
    assert Backoff(Start(DefaultPolicy()), DefaultPolicy().maxBackoff, 0) == 200_000_000;
  }
}
