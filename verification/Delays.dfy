/** What the wait strategies answer and which retries the stop conditions leave, over the runs of a policy. */
module Delays {
  import opened Options
  import opened RetryPolicy

  // ----- fixed waits -----

  /** Under a fixed wait the delays of a run add up to one wait per retry. */
  lemma {:induction false} FixedDelaysAddUp(policy: Policy, retries: seq<Retry>, seconds: real)
    requires policy.wait == Fixed(seconds) && Run(policy, retries)
    ensures TotalDelay(retries) == Times(|retries|, seconds)
    decreases |retries|
  {
    if retries != [] {
      var last := |retries| - 1;
      assert Grants(policy, last + 1, retries[last].elapsed, retries[last].error, retries[last].delay);
      FixedDelaysAddUp(policy, retries[..last], seconds);
    }
  }

  /** A policy of a fixed wait and an attempt limit, the default one among them: exactly these are its runs. */
  lemma FixedRunsExactly(policy: Policy, seconds: real, n: int, retries: seq<Retry>)
    requires policy.wait == Fixed(seconds) && policy.stop == AfterAttempt(n)
    ensures Run(policy, retries) <==>
            && (retries == [] || |retries| < n)
            && forall k :: 0 <= k < |retries| ==>
                 && retries[k].elapsed >= 0.0 && retries[k].delay == seconds
                 && (policy.retry.Some? ==> policy.retry.value(retries[k].error))
  {
    if Run(policy, retries) && retries != [] {
      var last := |retries| - 1;
      assert Grants(policy, last + 1, retries[last].elapsed, retries[last].error, retries[last].delay);
    }
  }

  // ----- growing waits -----

  /** The k-th term, from zero, of a geometric progression. */
  function Geometric(first: real, factor: real, k: nat): real {
    if k == 0 then first else Scale(factor, Geometric(first, factor, k - 1))
  }

  lemma ScalesCommute(a: real, b: real, x: real)
    ensures Scale(a, Scale(b, x)) == Scale(b, Scale(a, x))
  {
    assert a * (b * x) == b * (a * x);
  }

  lemma {:induction false} PowersAreGeometric(multiplier: real, base: real, k: nat)
    ensures Scale(multiplier, Pow(base, k + 1)) == Geometric(Scale(multiplier, base), base, k)
  {
    if k > 0 {
      PowersAreGeometric(multiplier, base, k - 1);
      ScalesCommute(multiplier, base, Pow(base, k));
    }
  }

  /** Exponential delays are the terms of a geometric progression, from the first retry on, kept between the ends. */
  lemma ExponentialDelays(policy: Policy, retries: seq<Retry>, k: nat)
    requires policy.wait.Exponential? && Run(policy, retries) && k < |retries|
    ensures var w, d := policy.wait, retries[k].delay;
            var term, floor := Geometric(Scale(w.multiplier, w.expBase), w.expBase, k), Max(0.0, w.min);
            && (floor <= term <= w.max ==> d == term)
            && (floor <= w.max < term ==> d == w.max)
            && (term < floor || w.max < floor ==> d == floor)
  {
    assert Grants(policy, k + 1, retries[k].elapsed, retries[k].error, retries[k].delay);
    PowersAreGeometric(policy.wait.multiplier, policy.wait.expBase, k);
  }

  /** With jitter, exactly the delays from the term to the term plus the jitter, all of it cut at the maximum. */
  lemma JitterExactly(initial: real, expBase: real, max: real, jitter: real, k: nat, d: real)
    requires jitter >= 0.0
    ensures var term := Geometric(Scale(initial, expBase), expBase, k);
            MayWait(ExponentialJitter(initial, expBase, max, jitter), k + 1, d) <==>
            Min(term, max) <= d <= Min(term + jitter, max)
  {
    PowersAreGeometric(initial, expBase, k);
    var term := Geometric(Scale(initial, expBase), expBase, k);
    if Min(term, max) <= d <= Min(term + jitter, max) {
      var x := d - Min(term, max);
      assert Drawn(x, 0.0, jitter) && d == Min(Min(term, max) + x, max);
    }
  }

  /** Full jitter draws from the minimum up to the exponential delay. */
  lemma FullJitterExactly(multiplier: real, expBase: real, max: real, min: real, n: nat, d: real)
    ensures MayWait(RandomExponential(multiplier, expBase, max, min), n, d) <==>
            exists upper: real :: MayWait(Exponential(multiplier, expBase, max, min), n, upper) && min <= d <= upper
  {
    var upper := Backoff(multiplier, expBase, max, min, n);
    assert MayWait(Exponential(multiplier, expBase, max, min), n, upper) && min <= upper;
  }

  lemma AddedUp(increment: real, n: nat)
    ensures increment * n as real == Times(n, increment)
  {
    TimesIsProduct(n, increment);
  }

  lemma UnlimitedDelay(start: real, increment: real, n: nat, d: real)
    ensures MayWait(Incrementing(start, increment, None), n, d) <==> d == Max(0.0, start + Times(n, increment))
  {
    AddedUp(increment, n);
  }

  /** Unlimited incrementing delays go up by one increment per retry, the first by one already, and stop at zero. */
  lemma IncrementingDelays(policy: Policy, retries: seq<Retry>, k: nat)
    requires policy.wait.Incrementing? && policy.wait.limit == None && Run(policy, retries) && k < |retries|
    ensures var term := policy.wait.start + Times(k + 1, policy.wait.increment);
            retries[k].delay == if term >= 0.0 then term else 0.0
  {
    assert Grants(policy, k + 1, retries[k].elapsed, retries[k].error, retries[k].delay);
    UnlimitedDelay(policy.wait.start, policy.wait.increment, k + 1, retries[k].delay);
  }

  /** A limit cuts them. */
  lemma LimitCuts(start: real, increment: real, limit: real, n: nat, d: real)
    ensures MayWait(Incrementing(start, increment, Some(limit)), n, d) <==>
            exists free: real :: MayWait(Incrementing(start, increment, None), n, free) && d == Min(free, Max(0.0, limit))
  {
    var free := Max(0.0, start + increment * n as real);
    assert MayWait(Incrementing(start, increment, None), n, free);
  }

  // ----- composed waits -----

  /** A retry under a chain is granted by one strategy: the one of its number, or the last when they run out. */
  lemma ChainGrants(policy: Policy, waits: seq<Wait>, retries: seq<Retry>, k: nat)
    requires waits != [] && policy.wait == Chain(waits) && Run(policy, retries) && k < |retries|
    ensures var used := if k + 1 < |waits| then waits[k + 1] else waits[|waits| - 1];
            Grants(policy.(wait := used), k + 1, retries[k].elapsed, retries[k].error, retries[k].delay)
  {
    assert Grants(policy, k + 1, retries[k].elapsed, retries[k].error, retries[k].delay);
  }

  lemma TakeFirst(waits: seq<Wait>, n: nat, total: real) returns (first: real)
    requires waits != [] && MaySum(waits, n, total)
    ensures MayWait(waits[0], n, first) && MaySum(waits[1..], n, total - first)
  {
    first :| MayWait(waits[0], n, first) && MaySum(waits[1..], n, total - first);
  }

  lemma PutFirst(waits: seq<Wait>, n: nat, first: real, rest: real, total: real)
    requires waits != [] && MayWait(waits[0], n, first) && MaySum(waits[1..], n, rest) && total == first + rest
    ensures MaySum(waits, n, total)
  {
    assert total - first == rest;
  }

  lemma {:induction false} SumSplits(a: seq<Wait>, b: seq<Wait>, n: nat, total: real) returns (x: real)
    requires MaySum(a + b, n, total)
    ensures MaySum(a, n, x) && MaySum(b, n, total - x)
    decreases |a|
  {
    if a == [] {
      x := 0.0;
      assert a + b == b;
    } else {
      var first := TakeFirst(a + b, n, total);
      assert (a + b)[1..] == a[1..] + b;
      var rest := SumSplits(a[1..], b, n, total - first);
      x := first + rest;
      PutFirst(a, n, first, rest, x);
    }
  }

  lemma {:induction false} SumsJoin(a: seq<Wait>, b: seq<Wait>, n: nat, x: real, y: real, total: real)
    requires MaySum(a, n, x) && MaySum(b, n, y) && total == x + y
    ensures MaySum(a + b, n, total)
    decreases |a|
  {
    if a == [] {
      assert a + b == b;
    } else {
      var first := TakeFirst(a, n, x);
      SumsJoin(a[1..], b, n, x - first, y, total - first);
      assert (a + b)[1..] == a[1..] + b;
      PutFirst(a + b, n, first, total - first, total);
    }
  }

  ghost predicate SplitAt(a: seq<Wait>, b: seq<Wait>, n: nat, total: real, x: real) {
    MaySum(a, n, x) && MaySum(b, n, total - x)
  }

  /** A combination of strategies sums a delay of each, however it is nested. */
  lemma SumOfBoth(a: seq<Wait>, b: seq<Wait>, n: nat, total: real)
    ensures MaySum(a + b, n, total) <==> exists x: real :: SplitAt(a, b, n, total, x)
  {
    if MaySum(a + b, n, total) {
      var x := SumSplits(a, b, n, total);
      assert SplitAt(a, b, n, total, x);
    }
    if x: real :| SplitAt(a, b, n, total, x) {
      SumsJoin(a, b, n, x, total - x, total);
    }
  }

  lemma SumOfOne(wait: Wait, n: nat, total: real)
    ensures MaySum([wait], n, total) <==> MayWait(wait, n, total)
  {
    if MayWait(wait, n, total) {
      assert MaySum([wait][1..], n, 0.0);
      PutFirst([wait], n, total, 0.0, total);
    }
    if MaySum([wait], n, total) {
      var first := TakeFirst([wait], n, total);
      assert first == total;
    }
  }

  /** Two combined strategies answer exactly with the sums of their delays. */
  lemma CombinedDelays(a: Wait, b: Wait, n: nat, d: real)
    ensures MayWait(Combine([a, b]), n, d) <==> exists x: real :: MayWait(a, n, x) && MayWait(b, n, d - x)
  {
    assert [a, b] == [a] + [b];
    SumOfBoth([a], [b], n, d);
    if x: real :| SplitAt([a], [b], n, d, x) {
      SumOfOne(a, n, x);
      SumOfOne(b, n, d - x);
    }
    if x: real :| MayWait(a, n, x) && MayWait(b, n, d - x) {
      SumOfOne(a, n, x);
      SumOfOne(b, n, d - x);
      assert SplitAt([a], [b], n, d, x);
    }
  }

  // ----- caps -----

  /** Some part of the tree is an incrementing wait without a limit. */
  ghost predicate SomeUnlimited(wait: Wait) {
    match wait
    case Incrementing(_, _, limit) => limit.None?
    case Chain(waits) => exists k :: 0 <= k < |waits| && SomeUnlimited(waits[k])
    case Combine(waits) => exists k :: 0 <= k < |waits| && SomeUnlimited(waits[k])
    case _ => false
  }

  /** A tree has a cap exactly when it has no such part. */
  lemma {:induction false} CappedExactly(wait: Wait)
    ensures Cap(wait).Some? <==> !SomeUnlimited(wait)
    decreases wait, 0
  {
    match wait
    case Chain(waits) => AllCapped(waits);
    case Combine(waits) => AllCapped(waits);
    case _ =>
  }

  lemma {:induction false} AllCapped(waits: seq<Wait>)
    ensures LargestCap(waits).Some? <==> forall k :: 0 <= k < |waits| ==> !SomeUnlimited(waits[k])
    ensures CapSum(waits).Some? <==> forall k :: 0 <= k < |waits| ==> !SomeUnlimited(waits[k])
    decreases waits, 1
  {
    if waits != [] {
      CappedExactly(waits[0]);
      AllCapped(waits[1..]);
      assert forall k :: 0 < k < |waits| ==> waits[k] == waits[1..][k - 1];
    }
  }

  lemma {:induction false} PowerOutgrows(base: real, n: nat)
    requires base > 1.0
    ensures Pow(base, n) >= 1.0 + Times(n, base - 1.0)
  {
    if n > 0 {
      PowerOutgrows(base, n - 1);
      TimesGrows(0, n - 1, base - 1.0);
      ScaledGrows(base - 1.0, 1.0, Pow(base, n - 1));
    }
  }

  lemma EnoughTimes(x: real, goal: real) returns (n: nat)
    requires x > 0.0
    ensures n >= 1 && Times(n, x) >= goal
  {
    var quotient := goal / x;
    n := if quotient <= 1.0 then 1 else quotient.Floor + 1;
    assert n as real >= quotient;
    ScaledGrows(x, quotient, n as real);
    assert x * quotient == goal;
    TimesIsProduct(n, x);
  }

  lemma ScaledPowerOutgrows(multiplier: real, base: real, goal: real) returns (n: nat)
    requires multiplier > 0.0 && base > 1.0
    ensures n >= 1 && Scale(multiplier, Pow(base, n)) >= goal
  {
    n := EnoughTimes(base - 1.0, goal / multiplier);
    PowerOutgrows(base, n);
    ScaledGrows(multiplier, goal / multiplier, Pow(base, n));
    assert Scale(multiplier, goal / multiplier) == goal;
  }

  /** The strategy grows past any delay, unless it does not grow at all. */
  predicate Unbounded(wait: Wait) {
    match wait
    case Exponential(multiplier, expBase, _, _) => multiplier > 0.0 && expBase > 1.0
    case ExponentialJitter(initial, expBase, _, jitter) => initial > 0.0 && expBase > 1.0 && jitter >= 0.0
    case RandomExponential(multiplier, expBase, _, _) => multiplier > 0.0 && expBase > 1.0
    case Incrementing(_, increment, _) => increment > 0.0
    case _ => wait.Fixed? || wait.Random?
  }

  /** The cap of a single strategy is the least: some retry may have to wait that long. */
  lemma CapIsReached(wait: Wait) returns (n: nat)
    requires Unbounded(wait) && Cap(wait).Some?
    ensures n >= 1 && MayWait(wait, n, Cap(wait).value)
  {
    n := 1;
    match wait
    case Exponential(multiplier, expBase, max, min) => n := ScaledPowerOutgrows(multiplier, expBase, max);
    case RandomExponential(multiplier, expBase, max, min) =>
      n := ScaledPowerOutgrows(multiplier, expBase, max);
      FullJitterExactly(multiplier, expBase, max, min, n, Cap(wait).value);
      assert MayWait(Exponential(multiplier, expBase, max, min), n, Cap(wait).value);
    case ExponentialJitter(initial, expBase, max, jitter) =>
      n := ScaledPowerOutgrows(initial, expBase, max);
      PowersAreGeometric(initial, expBase, n - 1);
      JitterExactly(initial, expBase, max, jitter, n - 1, max);
    case Incrementing(start, increment, limit) =>
      n := EnoughTimes(increment, limit.value - start);
      AddedUp(increment, n);
    case _ =>
  }

  /** Strategies that reach their caps after the same number of attempts reach the cap of their combination. */
  lemma {:induction false} CombinedCapIsReached(waits: seq<Wait>, n: nat)
    requires forall k :: 0 <= k < |waits| ==> Cap(waits[k]).Some? && MayWait(waits[k], n, Cap(waits[k]).value)
    ensures CapSum(waits).Some? && MaySum(waits, n, CapSum(waits).value)
    decreases |waits|
  {
    if waits != [] {
      CombinedCapIsReached(waits[1..], n);
      PutFirst(waits, n, Cap(waits[0]).value, CapSum(waits[1..]).value, CapSum(waits).value);
    }
  }

  /** The cap of a chain is that of one of its strategies. */
  lemma {:induction false} ChainCapIsOneOfThem(waits: seq<Wait>)
    requires waits != [] && LargestCap(waits).Some?
    requires forall k :: 0 <= k < |waits| ==> WellFormed(waits[k])
    ensures exists k :: 0 <= k < |waits| && Cap(waits[k]) == LargestCap(waits)
    decreases |waits|
  {
    var rest := waits[1..];
    CapIsNonNegative(waits[0]);
    if rest != [] {
      ChainCapIsOneOfThem(rest);
      var k :| 0 <= k < |rest| && Cap(rest[k]) == LargestCap(rest);
      assert waits[k + 1] == rest[k];
    }
    assert LargestCap(waits) == Cap(waits[0]) || LargestCap(waits) == LargestCap(rest);
  }

  // ----- what the stop conditions leave -----

  /** A policy that stops at any of several conditions grants what it would under each of them alone. */
  lemma AnyStopGrants(policy: Policy, stops: seq<Stop>, attempts: nat, elapsed: real, error: Error, delay: real)
    ensures Grants(policy.(stop := AnyOf(stops)), attempts, elapsed, error, delay) <==>
            && Grants(policy.(stop := Never), attempts, elapsed, error, delay)
            && forall k :: 0 <= k < |stops| ==> Grants(policy.(stop := stops[k]), attempts, elapsed, error, delay)
  {
  }

  /** One that stops at all of them together grants what it would under some of them alone, so nothing for none. */
  lemma AllStopGrants(policy: Policy, stops: seq<Stop>, attempts: nat, elapsed: real, error: Error, delay: real)
    ensures Grants(policy.(stop := AllOf(stops)), attempts, elapsed, error, delay) <==>
            exists k :: 0 <= k < |stops| && Grants(policy.(stop := stops[k]), attempts, elapsed, error, delay)
  {
    if Grants(policy.(stop := AllOf(stops)), attempts, elapsed, error, delay) {
      var k :| 0 <= k < |stops| && !Stops(stops[k], attempts, elapsed, delay);
      assert Grants(policy.(stop := stops[k]), attempts, elapsed, error, delay);
    }
  }

  /** A time limit alone lets a run go on exactly while its failures are seen before the limit. */
  lemma TimeLimitedRunsExactly(policy: Policy, limit: real, retries: seq<Retry>)
    ensures Run(policy.(stop := AfterDelay(limit)), retries) <==>
            && Run(policy.(stop := Never), retries)
            && forall k :: 0 <= k < |retries| ==> retries[k].elapsed < limit
    ensures Run(policy.(stop := BeforeDelay(limit)), retries) <==>
            && Run(policy.(stop := Never), retries)
            && forall k :: 0 <= k < |retries| ==> retries[k].elapsed + retries[k].delay < limit
  {
    var after, before, free := policy.(stop := AfterDelay(limit)), policy.(stop := BeforeDelay(limit)), policy.(stop := Never);
    forall k | 0 <= k < |retries|
      ensures var r := retries[k];
              && (Grants(after, k + 1, r.elapsed, r.error, r.delay) <==>
                    Grants(free, k + 1, r.elapsed, r.error, r.delay) && r.elapsed < limit)
              && (Grants(before, k + 1, r.elapsed, r.error, r.delay) <==>
                    Grants(free, k + 1, r.elapsed, r.error, r.delay) && r.elapsed + r.delay < limit)
    {
    }
  }

  /** Without a stop condition a run goes on exactly while its errors are to be retried. */
  lemma UnstoppedRunsExactly(policy: Policy, retries: seq<Retry>)
    requires policy.stop == Never
    ensures Run(policy, retries) <==>
            forall k :: 0 <= k < |retries| ==>
              && retries[k].elapsed >= 0.0
              && MayWait(policy.wait, k + 1, retries[k].delay)
              && (policy.retry.Some? ==> policy.retry.value(retries[k].error))
  {
    if Run(policy, retries) {
      forall k | 0 <= k < |retries|
        ensures && retries[k].elapsed >= 0.0
                && MayWait(policy.wait, k + 1, retries[k].delay)
                && (policy.retry.Some? ==> policy.retry.value(retries[k].error))
      {
        assert Grants(policy, k + 1, retries[k].elapsed, retries[k].error, retries[k].delay);
      }
    }
  }
}
