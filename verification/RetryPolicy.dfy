/**
 * The retry-policy algebra: trees of wait strategies and stop conditions, and the runs of a policy. Times are
 * reals. A random draw is any value of its interval, so a wait strategy is a relation.
 */
module RetryPolicy {
  import opened Options

  function Min(a: real, b: real): real { if a <= b then a else b }

  function Max(a: real, b: real): real { if a >= b then a else b }

  function Scale(factor: real, x: real): real { factor * x }

  function Pow(base: real, n: nat): real { if n == 0 then 1.0 else Scale(base, Pow(base, n - 1)) }

  /** x added up n times. */
  function Times(n: nat, x: real): real { if n == 0 then 0.0 else Times(n - 1, x) + x }

  lemma {:induction false} TimesIsProduct(n: nat, x: real)
    ensures Times(n, x) == n as real * x
  {
    if n > 0 {
      TimesIsProduct(n - 1, x);
      assert n as real * x == (n - 1) as real * x + x;
    }
  }

  lemma ScaledGrows(factor: real, x: real, y: real)
    requires factor >= 0.0 && x <= y
    ensures Scale(factor, x) <= Scale(factor, y)
    ensures x == 0.0 ==> Scale(factor, x) == 0.0
  {
  }

  // ----- stop conditions -----

  datatype Stop =
    | AfterAttempt(maxAttempts: int)
    | AfterDelay(maxDelay: real)
    | BeforeDelay(maxDelay: real)
    | AnyOf(stops: seq<Stop>)
    | AllOf(stops: seq<Stop>)
    | Never

  predicate Stops(stop: Stop, attempts: int, elapsed: real, sleep: real) {
    match stop
    case AfterAttempt(n) => attempts >= n
    case AfterDelay(d) => elapsed >= d
    case BeforeDelay(d) => elapsed + sleep >= d
    case AnyOf(stops) => exists k :: 0 <= k < |stops| && Stops(stops[k], attempts, elapsed, sleep)
    case AllOf(stops) => forall k :: 0 <= k < |stops| ==> Stops(stops[k], attempts, elapsed, sleep)
    case Never => false
  }

  /** More attempts, more elapsed time or a longer sleep never turn a stop into a retry. */
  lemma {:induction false} StopIsMonotone(
    stop: Stop, attempts: int, elapsed: real, sleep: real, attempts': int, elapsed': real, sleep': real)
    requires attempts <= attempts' && elapsed <= elapsed' && sleep <= sleep'
    requires Stops(stop, attempts, elapsed, sleep)
    ensures Stops(stop, attempts', elapsed', sleep')
    decreases stop
  {
    match stop
    case AnyOf(stops) =>
      var k :| 0 <= k < |stops| && Stops(stops[k], attempts, elapsed, sleep);
      StopIsMonotone(stops[k], attempts, elapsed, sleep, attempts', elapsed', sleep');
    case AllOf(stops) =>
      forall k | 0 <= k < |stops|
        ensures Stops(stops[k], attempts', elapsed', sleep')
      {
        StopIsMonotone(stops[k], attempts, elapsed, sleep, attempts', elapsed', sleep');
      }
    case _ =>
  }

  /** A condition stops every policy by attempt n, whatever the timing, exactly when it does so at time zero. */
  lemma StopsByAttemptExactly(stop: Stop, n: int)
    ensures (forall elapsed: real, sleep: real :: elapsed >= 0.0 && sleep >= 0.0 ==> Stops(stop, n, elapsed, sleep)) <==>
            Stops(stop, n, 0.0, 0.0)
  {
    if Stops(stop, n, 0.0, 0.0) {
      forall elapsed: real, sleep: real | elapsed >= 0.0 && sleep >= 0.0
        ensures Stops(stop, n, elapsed, sleep)
      {
        StopIsMonotone(stop, n, 0.0, 0.0, n, elapsed, sleep);
      }
    }
  }

  /** `part` is the condition itself or sits in it under "any" combinators only. */
  ghost predicate UnderAny(part: Stop, stop: Stop) {
    part == stop || (stop.AnyOf? && exists k :: 0 <= k < |stop.stops| && UnderAny(part, stop.stops[k]))
  }

  lemma {:induction false} PartStops(part: Stop, stop: Stop, attempts: int, elapsed: real, sleep: real)
    requires UnderAny(part, stop) && Stops(part, attempts, elapsed, sleep)
    ensures Stops(stop, attempts, elapsed, sleep)
    decreases stop
  {
    if part != stop {
      var k :| 0 <= k < |stop.stops| && UnderAny(part, stop.stops[k]);
      PartStops(part, stop.stops[k], attempts, elapsed, sleep);
    }
  }

  // ----- wait strategies -----

  /** `None` as the maximum of an incrementing wait is the default, infinity. */
  datatype Wait =
    | Fixed(seconds: real)
    | Exponential(multiplier: real, expBase: real, max: real, min: real)
    | Incrementing(start: real, increment: real, limit: Option<real>)
    | Random(min: real, max: real)
    | ExponentialJitter(initial: real, expBase: real, max: real, jitter: real)
    | RandomExponential(multiplier: real, expBase: real, max: real, min: real)
    | Chain(waits: seq<Wait>)
    | Combine(waits: seq<Wait>)

  /** A uniform draw between two ends, given in either order. */
  predicate Drawn(x: real, a: real, b: real) { Min(a, b) <= x <= Max(a, b) }

  function Backoff(multiplier: real, expBase: real, max: real, min: real, attempts: nat): real {
    Max(Max(0.0, min), Min(Scale(multiplier, Pow(expBase, attempts)), max))
  }

  function ChainIndex(count: nat, attempts: nat): nat
    requires count > 0
  {
    if attempts < count - 1 then attempts else count - 1
  }

  /** The strategy may answer with this delay. A chain without strategies cannot be built. */
  ghost predicate MayWait(wait: Wait, attempts: nat, delay: real)
    decreases wait, 0
  {
    match wait
    case Fixed(seconds) => delay == seconds
    case Exponential(multiplier, expBase, max, min) => delay == Backoff(multiplier, expBase, max, min, attempts)
    case Incrementing(start, increment, limit) =>
      var result := start + increment * attempts as real;
      delay == Max(0.0, if limit.Some? then Min(result, limit.value) else result)
    case Random(min, max) => Drawn(delay, min, max)
    case ExponentialJitter(initial, expBase, max, jitter) =>
      exists x: real :: Drawn(x, 0.0, jitter) && delay == Min(Min(Scale(initial, Pow(expBase, attempts)), max) + x, max)
    case RandomExponential(multiplier, expBase, max, min) =>
      Drawn(delay, min, Backoff(multiplier, expBase, max, min, attempts))
    case Chain(waits) => waits != [] && MayWait(waits[ChainIndex(|waits|, attempts)], attempts, delay)
    case Combine(waits) => MaySum(waits, attempts, delay)
  }

  ghost predicate MaySum(waits: seq<Wait>, attempts: nat, total: real)
    decreases waits, 1
  {
    if waits == [] then total == 0.0
    else exists first: real :: MayWait(waits[0], attempts, first) && MaySum(waits[1..], attempts, total - first)
  }

  /** Non-negative parameters throughout, and ends in order. */
  predicate WellFormed(wait: Wait) {
    match wait
    case Fixed(seconds) => seconds >= 0.0
    case Exponential(_, _, _, _) => true
    case Incrementing(_, _, _) => true
    case Random(min, max) => 0.0 <= min && 0.0 <= max
    case ExponentialJitter(initial, expBase, max, jitter) =>
      initial >= 0.0 && expBase >= 0.0 && max >= 0.0 && jitter >= 0.0
    case RandomExponential(_, _, _, min) => min >= 0.0
    case Chain(waits) => waits != [] && forall k :: 0 <= k < |waits| ==> WellFormed(waits[k])
    case Combine(waits) => forall k :: 0 <= k < |waits| ==> WellFormed(waits[k])
  }

  /** A bound on the delays of the tree, `None` where there is none. */
  function Cap(wait: Wait): Option<real>
    decreases wait, 0
  {
    match wait
    case Fixed(seconds) => Some(seconds)
    case Exponential(_, _, max, min) => Some(Max(Max(0.0, min), max))
    case Incrementing(_, _, limit) => if limit.Some? then Some(Max(0.0, limit.value)) else None
    case Random(min, max) => Some(Max(min, max))
    case ExponentialJitter(_, _, max, _) => Some(max)
    case RandomExponential(_, _, max, min) => Some(Max(Max(0.0, min), max))
    case Chain(waits) => LargestCap(waits)
    case Combine(waits) => CapSum(waits)
  }

  function LargestCap(waits: seq<Wait>): Option<real>
    decreases waits, 1
  {
    if waits == [] then Some(0.0)
    else match (Cap(waits[0]), LargestCap(waits[1..]))
      case (Some(a), Some(b)) => Some(Max(a, b))
      case _ => None
  }

  function CapSum(waits: seq<Wait>): Option<real>
    decreases waits, 1
  {
    if waits == [] then Some(0.0)
    else match (Cap(waits[0]), CapSum(waits[1..]))
      case (Some(a), Some(b)) => Some(a + b)
      case _ => None
  }

  lemma {:induction false} PowIsNonNegative(base: real, n: nat)
    requires base >= 0.0
    ensures Pow(base, n) >= 0.0
  {
    if n > 0 {
      PowIsNonNegative(base, n - 1);
      ScaledGrows(base, 0.0, Pow(base, n - 1));
    }
  }

  lemma {:induction false} LargestCapCovers(waits: seq<Wait>, k: nat)
    requires k < |waits| && LargestCap(waits).Some?
    ensures Cap(waits[k]).Some? && Cap(waits[k]).value <= LargestCap(waits).value
    decreases |waits|
  {
    if k > 0 {
      LargestCapCovers(waits[1..], k - 1);
    }
  }

  /** Every delay of a well-formed capped tree lies between zero and its cap. */
  lemma {:induction false} WaitIsCapped(wait: Wait, attempts: nat, delay: real)
    requires WellFormed(wait) && MayWait(wait, attempts, delay)
    ensures delay >= 0.0
    ensures Cap(wait).Some? ==> delay <= Cap(wait).value
    decreases wait, 0
  {
    match wait
    case ExponentialJitter(initial, expBase, max, jitter) =>
      PowIsNonNegative(expBase, attempts);
      ScaledGrows(initial, 0.0, Pow(expBase, attempts));
    case Chain(waits) =>
      var k := ChainIndex(|waits|, attempts);
      WaitIsCapped(waits[k], attempts, delay);
      if LargestCap(waits).Some? {
        LargestCapCovers(waits, k);
      }
    case Combine(waits) => SumIsCapped(waits, attempts, delay);
    case _ =>
  }

  lemma {:induction false} SumIsCapped(waits: seq<Wait>, attempts: nat, total: real)
    requires (forall k :: 0 <= k < |waits| ==> WellFormed(waits[k])) && MaySum(waits, attempts, total)
    ensures total >= 0.0
    ensures CapSum(waits).Some? ==> total <= CapSum(waits).value
    decreases waits, 1
  {
    if waits != [] {
      var first: real :| MayWait(waits[0], attempts, first) && MaySum(waits[1..], attempts, total - first);
      WaitIsCapped(waits[0], attempts, first);
      SumIsCapped(waits[1..], attempts, total - first);
    }
  }

  // ----- policies and their runs -----

  /** An exception of some type, raised from another one or not. */
  datatype Error = Error(kind: string, cause: Option<Error>)

  /** Without a retry condition every error is retried. */
  datatype Policy = Policy(retry: Option<Error -> bool>, wait: Wait, stop: Stop)

  /** After `attempts` failed attempts the policy may grant one more, after this delay. */
  ghost predicate Grants(policy: Policy, attempts: nat, elapsed: real, error: Error, delay: real) {
    && (policy.retry.Some? ==> policy.retry.value(error))
    && MayWait(policy.wait, attempts, delay)
    && !Stops(policy.stop, attempts, elapsed, delay)
  }

  /** One retry of a run: when its failure was seen, which error it was, and the delay granted. */
  datatype Retry = Retry(elapsed: real, error: Error, delay: real)

  /** The runtime counts failures from one, so retry k (from zero) was granted after k + 1 attempts. */
  ghost predicate Run(policy: Policy, retries: seq<Retry>) {
    forall k :: 0 <= k < |retries| ==>
      retries[k].elapsed >= 0.0 && Grants(policy, k + 1, retries[k].elapsed, retries[k].error, retries[k].delay)
  }

  function TotalDelay(retries: seq<Retry>): real {
    if retries == [] then 0.0 else TotalDelay(retries[..|retries| - 1]) + retries[|retries| - 1].delay
  }

  /** A condition that stops by attempt n, whatever the timing, leaves fewer than n retries. */
  lemma RetriesAreBounded(policy: Policy, retries: seq<Retry>, n: nat)
    requires n >= 1 && WellFormed(policy.wait) && Stops(policy.stop, n, 0.0, 0.0) && Run(policy, retries)
    ensures |retries| < n
  {
    if |retries| >= n {
      var last := retries[n - 1];
      assert Grants(policy, n, last.elapsed, last.error, last.delay);
      WaitIsCapped(policy.wait, n, last.delay);
      StopIsMonotone(policy.stop, n, 0.0, 0.0, n, last.elapsed, last.delay);
    }
  }

  lemma {:induction false} TotalOfCapped(retries: seq<Retry>, cap: real)
    requires forall k :: 0 <= k < |retries| ==> 0.0 <= retries[k].delay <= cap
    ensures 0.0 <= TotalDelay(retries) <= Times(|retries|, cap)
    decreases |retries|
  {
    if retries != [] {
      var k := |retries| - 1;
      TotalOfCapped(retries[..k], cap);
    }
  }

  lemma RunIsCapped(policy: Policy, retries: seq<Retry>)
    requires WellFormed(policy.wait) && Cap(policy.wait).Some? && Run(policy, retries)
    ensures forall k :: 0 <= k < |retries| ==> 0.0 <= retries[k].delay <= Cap(policy.wait).value
  {
    forall k | 0 <= k < |retries|
      ensures 0.0 <= retries[k].delay <= Cap(policy.wait).value
    {
      assert Grants(policy, k + 1, retries[k].elapsed, retries[k].error, retries[k].delay);
      WaitIsCapped(policy.wait, k + 1, retries[k].delay);
    }
  }

  lemma {:induction false} TimesGrows(k: nat, n: nat, x: real)
    requires k <= n && x >= 0.0
    ensures Times(k, x) <= Times(n, x)
    decreases n
  {
    if k < n {
      TimesGrows(k, n - 1, x);
    }
  }

  /** With `stop_after_attempt(n)` under any nest of "any" combinators, a run has fewer than n retries. */
  lemma AttemptLimitBoundsRetries(policy: Policy, retries: seq<Retry>, n: nat)
    requires n >= 1 && UnderAny(AfterAttempt(n), policy.stop) && Run(policy, retries)
    ensures |retries| < n
  {
    if |retries| >= n {
      var last := retries[n - 1];
      assert Grants(policy, n, last.elapsed, last.error, last.delay);
      PartStops(AfterAttempt(n), policy.stop, n, last.elapsed, last.delay);
    }
  }

  /** And with a capped wait tree their delays add up to at most n - 1 times the cap. */
  lemma AttemptLimitBoundsDelay(policy: Policy, retries: seq<Retry>, n: nat, cap: real)
    requires n >= 1 && UnderAny(AfterAttempt(n), policy.stop) && Run(policy, retries)
    requires WellFormed(policy.wait) && Cap(policy.wait) == Some(cap)
    ensures TotalDelay(retries) <= Times(n - 1, cap)
  {
    AttemptLimitBoundsRetries(policy, retries, n);
    RunIsCapped(policy, retries);
    CapIsNonNegative(policy.wait);
    TotalOfCapped(retries, cap);
    TimesGrows(|retries|, n - 1, cap);
  }

  lemma {:induction false} CapIsNonNegative(wait: Wait)
    requires WellFormed(wait) && Cap(wait).Some?
    ensures Cap(wait).value >= 0.0
    decreases wait, 0
  {
    match wait
    case Chain(waits) => CapsAreNonNegative(waits);
    case Combine(waits) => CapsAreNonNegative(waits);
    case _ =>
  }

  lemma {:induction false} CapsAreNonNegative(waits: seq<Wait>)
    requires forall k :: 0 <= k < |waits| ==> WellFormed(waits[k])
    ensures CapSum(waits).Some? ==> CapSum(waits).value >= 0.0
    ensures LargestCap(waits).Some? ==> LargestCap(waits).value >= 0.0
    decreases waits, 1
  {
    if waits != [] {
      if Cap(waits[0]).Some? {
        CapIsNonNegative(waits[0]);
      }
      CapsAreNonNegative(waits[1..]);
    }
  }

  /** With `stop_before_delay(limit)` in the nest, every granted sleep ends before the limit. */
  lemma SleepEndsBeforeLimit(policy: Policy, limit: real, attempts: nat, elapsed: real, error: Error, delay: real)
    requires UnderAny(BeforeDelay(limit), policy.stop) && Grants(policy, attempts, elapsed, error, delay)
    ensures elapsed + delay < limit
  {
    if elapsed + delay >= limit {
      PartStops(BeforeDelay(limit), policy.stop, attempts, elapsed, delay);
    }
  }

  lemma ScaledUp(factor: real, x: real)
    requires factor >= 1.0 && x > 0.0
    ensures Scale(factor, x) >= x
  {
    assert (factor - 1.0) * x >= 0.0;
  }

  lemma {:induction false} PowGrows(base: real, n: nat, m: nat)
    requires base >= 1.0 && n <= m
    ensures 0.0 < Pow(base, n) <= Pow(base, m)
    decreases m
  {
    if n < m {
      PowGrows(base, n, m - 1);
      ScaledUp(base, Pow(base, m - 1));
    } else if m > 0 {
      PowGrows(base, m - 1, m - 1);
      ScaledUp(base, Pow(base, m - 1));
    }
  }

  /** Exponential backoff never shrinks from one retry to a later one. */
  lemma BackoffNeverShrinks(multiplier: real, expBase: real, max: real, min: real, n: nat, m: nat)
    requires multiplier >= 0.0 && expBase >= 1.0 && n <= m
    ensures Backoff(multiplier, expBase, max, min, n) <= Backoff(multiplier, expBase, max, min, m)
  {
    PowGrows(expBase, n, m);
    ScaledGrows(multiplier, Pow(expBase, n), Pow(expBase, m));
  }

  /**
   * A chain is meant to use its strategies in order, the first one for the first retry. Since attempts are
   * counted from one, retry r (from one) uses the strategy meant for it exactly when the chain is exhausted.
   */
  lemma ChainIsInOrderExactly(count: nat, retry: nat)
    requires count > 0 && retry > 0
    ensures ChainIndex(count, retry) == ChainIndex(count, retry - 1) <==> count <= retry
  {
  }

  /** So the first of several strategies in a chain has no influence on any run. */
  lemma FirstOfChainIsUnused(policy: Policy, a: Wait, b: Wait, rest: seq<Wait>, retries: seq<Retry>)
    requires rest != []
    ensures Run(policy.(wait := Chain([a] + rest)), retries) <==> Run(policy.(wait := Chain([b] + rest)), retries)
  {
    var p, q := policy.(wait := Chain([a] + rest)), policy.(wait := Chain([b] + rest));
    forall k | 0 <= k < |retries|
      ensures Grants(p, k + 1, retries[k].elapsed, retries[k].error, retries[k].delay) <==>
              Grants(q, k + 1, retries[k].elapsed, retries[k].error, retries[k].delay)
    {
      var i := ChainIndex(1 + |rest|, k + 1);
      assert i > 0 && ([a] + rest)[i] == rest[i - 1] == ([b] + rest)[i];
    }
  }

  // ----- the cause chain -----

  function Causes(error: Error): seq<Error> {
    if error.cause.None? then [] else [error.cause.value] + Causes(error.cause.value)
  }

  /** Some explicit cause, direct or further up, is of one of the kinds; the error itself is not looked at. */
  method CauseMatches(error: Error, isKind: Error -> bool) returns (matches: bool)
    ensures matches <==> exists k :: 0 <= k < |Causes(error)| && isKind(Causes(error)[k])
  {
    var current := error;
    ghost var seen: seq<Error> := [];
    while current.cause.Some?
      invariant Causes(error) == seen + Causes(current)
      invariant forall k :: 0 <= k < |seen| ==> !isKind(seen[k])
      decreases current
    {
      var cause := current.cause.value;
      assert Causes(current) == [cause] + Causes(cause);
      assert Causes(error) == (seen + [cause]) + Causes(cause);
      if isKind(cause) {
        assert isKind(Causes(error)[|seen|]);
        return true;
      }
      seen := seen + [cause];
      current := cause;
    }
    assert Causes(current) == [] && Causes(error) == seen;
    return false;
  }
}
