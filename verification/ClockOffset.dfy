/** The exchange clock-offset estimator: a sliding window of samples and a median recomputed every 64th
    accepted sample. The window and the sample bound differ between the two places it is used. */
module ClockOffset {

  const OFFSET_RECOMPUTE_INTERVAL: nat := 64

  datatype Params = Params(window: nat, maxAbs: int)

  /** The strategy's estimator, in nanoseconds. */
  const STRATEGY: Params := Params(256, 6 * 60 * 60 * 1_000_000_000)
  /** The screener's estimator, in milliseconds. */
  const SCREENER: Params := Params(512, 6 * 60 * 60 * 1000)

  predicate ValidParams(p: Params) {
    p.window > 1 && p.maxAbs >= 0
  }

  datatype Observation = Observation(localTs: int, exchangeTs: int)

  datatype Estimator = Estimator(samples: seq<int>, cachedMedian: int, pendingUpdates: nat)

  const FRESH: Estimator := Estimator([], 0, 0)

  // ---- the median ----------------------------------------------------------------------------------------

  function InsertSorted(x: int, s: seq<int>): seq<int> {
    if s == [] || x <= s[0] then [x] + s else [s[0]] + InsertSorted(x, s[1..])
  }

  function Sorted(s: seq<int>): (r: seq<int>)
    ensures |r| == |s|
  {
    if s == [] then [] else
      SameLength(s[0], Sorted(s[1..]));
      InsertSorted(s[0], Sorted(s[1..]))
  }

  function UpperMedian(s: seq<int>): int
    requires s != []
  {
    Sorted(s)[|s| / 2]
  }

  lemma {:induction false} SameLength(x: int, s: seq<int>)
    ensures |InsertSorted(x, s)| == |s| + 1
  {
    if s != [] && x > s[0] {
      SameLength(x, s[1..]);
    }
  }

  predicate Ordered(s: seq<int>) {
    forall i, j :: 0 <= i < j < |s| ==> s[i] <= s[j]
  }

  function CountBelow(s: seq<int>, bound: int): nat {
    if s == [] then 0 else (if s[0] < bound then 1 else 0) + CountBelow(s[1..], bound)
  }

  lemma {:induction false} InsertSortedExact(x: int, s: seq<int>, bound: int)
    ensures CountBelow(InsertSorted(x, s), bound) == CountBelow([x] + s, bound)
    ensures forall y :: y in InsertSorted(x, s) <==> y == x || y in s
  {
    assert ([x] + s)[1..] == s;
    if s != [] && x > s[0] {
      InsertSortedExact(x, s[1..], bound);
      assert ([x] + s[1..])[1..] == s[1..];
      assert InsertSorted(x, s)[1..] == InsertSorted(x, s[1..]);
    }
  }

  lemma HeadFirst(h: int, s: seq<int>, x: int, rest: seq<int>)
    requires Ordered([h] + s) && Ordered(rest) && h <= x
    requires forall y :: y in rest <==> y == x || y in s
    ensures Ordered([h] + rest)
  {
    forall j | 0 <= j < |rest| ensures h <= rest[j] {
      assert rest[j] in rest;
      if rest[j] in s {
        var i :| 0 <= i < |s| && s[i] == rest[j];
        assert ([h] + s)[0] <= ([h] + s)[i + 1];
      }
    }
  }

  lemma {:induction false} InsertSortedOrdered(x: int, s: seq<int>)
    requires Ordered(s)
    ensures Ordered(InsertSorted(x, s))
  {
    if s != [] && x > s[0] {
      assert s == [s[0]] + s[1..];
      InsertSortedOrdered(x, s[1..]);
      InsertSortedExact(x, s[1..], 0);
      HeadFirst(s[0], s[1..], x, InsertSorted(x, s[1..]));
    }
  }

  /** Sorting orders the samples and keeps how many are below any bound. */
  lemma {:induction false} SortedExact(s: seq<int>, bound: int)
    ensures Ordered(Sorted(s)) && CountBelow(Sorted(s), bound) == CountBelow(s, bound)
    ensures forall y :: y in Sorted(s) <==> y in s
  {
    if s != [] {
      SortedExact(s[1..], bound);
      InsertSortedOrdered(s[0], Sorted(s[1..]));
      InsertSortedExact(s[0], Sorted(s[1..]), bound);
      assert ([s[0]] + Sorted(s[1..]))[1..] == Sorted(s[1..]);
      assert s == [s[0]] + s[1..];
    }
  }

  lemma {:induction false} CountBetween(s: seq<int>, bound: int, k: nat)
    requires k <= |s|
    ensures (forall i :: k <= i < |s| ==> s[i] >= bound) ==> CountBelow(s, bound) <= k
    ensures (forall i :: 0 <= i < k ==> s[i] < bound) ==> CountBelow(s, bound) >= k
  {
    if s != [] {
      CountBetween(s[1..], bound, if k == 0 then 0 else k - 1);
      if k > 0 {
        assert (forall i :: 0 <= i < k ==> s[i] < bound) ==>
                 s[0] < bound && forall i :: 0 <= i < k - 1 ==> s[1..][i] < bound;
      }
    }
  }

  /** The middle of an ordered arrangement `r` of the samples `s`. */
  lemma MiddleOfOrdered(s: seq<int>, r: seq<int>, h: nat)
    requires Ordered(r) && h < |r| && forall y :: y in r <==> y in s
    requires CountBelow(r, r[h]) == CountBelow(s, r[h]) && CountBelow(r, r[h] + 1) == CountBelow(s, r[h] + 1)
    ensures r[h] in s && CountBelow(s, r[h]) <= h < CountBelow(s, r[h] + 1)
  {
    CountBetween(r, r[h], h);
    CountBetween(r, r[h] + 1, h + 1);
    assert r[h] in r;
  }

  /** The upper median is a sample, at most half of the samples are below it and more than half are not
      above it. */
  lemma {:induction false} UpperMedianExact(s: seq<int>)
    requires s != []
    ensures UpperMedian(s) in s
    ensures CountBelow(s, UpperMedian(s)) <= |s| / 2 < CountBelow(s, UpperMedian(s) + 1)
  {
    var m := UpperMedian(s);
    SortedExact(s, m);
    SortedExact(s, m + 1);
    MiddleOfOrdered(s, Sorted(s), |s| / 2);
  }

  // ---- observing -----------------------------------------------------------------------------------------

  function Abs(x: int): int {
    if x < 0 then -x else x
  }

  predicate Accepts(p: Params, o: Observation) {
    o.localTs > 0 && o.exchangeTs > 0 && Abs(o.localTs - o.exchangeTs) <= p.maxAbs
  }

  function Observed(p: Params, e: Estimator, o: Observation): Estimator {
    if !Accepts(p, o) then e
    else
      var pushed := e.samples + [o.localTs - o.exchangeTs];
      var samples := if |pushed| > p.window then pushed[|pushed| - p.window..] else pushed;
      var updates := e.pendingUpdates + 1;
      if |samples| == 1 || updates >= OFFSET_RECOMPUTE_INTERVAL
      then Estimator(samples, if samples == [] then 0 else UpperMedian(samples), 0)
      else Estimator(samples, e.cachedMedian, updates)
  }

  class ClockOffsetEstimator {
    const p: Params
    var samples: seq<int>
    var cachedMedian: int
    var pendingUpdates: nat

    function State(): Estimator
      reads this
    {
      Estimator(samples, cachedMedian, pendingUpdates)
    }

    constructor (p: Params)
      ensures this.p == p && State() == FRESH
    {
      this.p := p;
      samples, cachedMedian, pendingUpdates := [], 0, 0;
    }

    method RecomputeMedian()
      modifies this`cachedMedian
      ensures cachedMedian == if samples == [] then 0 else UpperMedian(samples)
    {
      if samples == [] {
        cachedMedian := 0;
        return;
      }
      var sorted := [];
      var i := |samples|;
      assert samples[i..] == [];
      while i > 0
        invariant 0 <= i <= |samples|
        invariant sorted == Sorted(samples[i..])
      {
        i := i - 1;
        assert samples[i..][1..] == samples[i + 1..];
        sorted := InsertSorted(samples[i], sorted);
      }
      assert samples[0..] == samples;
      cachedMedian := sorted[|sorted| / 2];
    }

    method Observe(o: Observation)
      modifies this
      ensures State() == Observed(p, old(State()), o)
    {
      if o.localTs <= 0 || o.exchangeTs <= 0 { return; }
      var sample := o.localTs - o.exchangeTs;
      if Abs(sample) > p.maxAbs { return; }
      samples := samples + [sample];
      ghost var pushed := samples;
      while |samples| > p.window
        invariant |samples| <= |pushed| && samples == pushed[|pushed| - |samples|..]
        invariant |pushed| >= p.window ==> |samples| >= p.window
        invariant |pushed| < p.window ==> samples == pushed
        invariant cachedMedian == old(cachedMedian) && pendingUpdates == old(pendingUpdates)
        decreases |samples|
      {
        assert pushed[|pushed| - |samples|..][1..] == pushed[|pushed| - |samples| + 1..];
        samples := samples[1..];
      }
      assert samples == if |pushed| > p.window then pushed[|pushed| - p.window..] else pushed;
      pendingUpdates := pendingUpdates + 1;
      if |samples| == 1 || pendingUpdates >= OFFSET_RECOMPUTE_INTERVAL {
        RecomputeMedian();
        pendingUpdates := 0;
      }
    }
  }

  // ---- closed form -----------------------------------------------------------------------------------------

  /** The samples accepted out of a run of observations, in order. */
  function Accepted(p: Params, obs: seq<Observation>): seq<int> {
    if obs == [] then []
    else
      var o := obs[|obs| - 1];
      Accepted(p, obs[..|obs| - 1]) + (if Accepts(p, o) then [o.localTs - o.exchangeTs] else [])
  }

  function ObserveAll(p: Params, obs: seq<Observation>): Estimator {
    if obs == [] then FRESH else Observed(p, ObserveAll(p, obs[..|obs| - 1]), obs[|obs| - 1])
  }

  function LastN(s: seq<int>, n: nat): seq<int> {
    if |s| <= n then s else s[|s| - n..]
  }

  /** How many accepted samples the cached median had seen when `k` are accepted. */
  function SeenByCache(k: nat): nat
    requires k > 0
  {
    1 + 64 * ((k - 1) / 64)
  }

  function ClosedForm(p: Params, accepted: seq<int>): Estimator
    requires ValidParams(p)
  {
    if accepted == [] then FRESH
    else Estimator(LastN(accepted, p.window),
                   UpperMedian(LastN(accepted[..SeenByCache(|accepted|)], p.window)),
                   (|accepted| - 1) % 64)
  }

  /** `window` is what is left of `samples` once `x` has joined them. */
  predicate Slides(samples: seq<int>, x: int, n: nat, window: seq<int>) {
    var pushed := samples + [x];
    window == if |pushed| > n then pushed[|pushed| - n..] else pushed
  }

  lemma WindowStep(accepted: seq<int>, x: int, n: nat)
    requires n > 1 && accepted != []
    ensures Slides(LastN(accepted, n), x, n, LastN(accepted + [x], n)) && |LastN(accepted + [x], n)| > 1
  {
  }

  lemma CacheStep(accepted: seq<int>, x: int)
    requires accepted != []
    ensures var now, k := accepted + [x], |accepted|;
            if (k - 1) % OFFSET_RECOMPUTE_INTERVAL == OFFSET_RECOMPUTE_INTERVAL - 1
            then SeenByCache(k + 1) == k + 1 && now[..SeenByCache(k + 1)] == now && k % OFFSET_RECOMPUTE_INTERVAL == 0
            else SeenByCache(k + 1) == SeenByCache(k) <= k && now[..SeenByCache(k)] == accepted[..SeenByCache(k)]
                 && k % OFFSET_RECOMPUTE_INTERVAL == (k - 1) % OFFSET_RECOMPUTE_INTERVAL + 1
  {
  }

  lemma {:induction false} ClosedFormStep(p: Params, accepted: seq<int>, o: Observation)
    requires ValidParams(p) && Accepts(p, o)
    ensures Observed(p, ClosedForm(p, accepted), o) == ClosedForm(p, accepted + [o.localTs - o.exchangeTs])
  {
    var x := o.localTs - o.exchangeTs;
    if accepted == [] {
      assert ([] + [x])[..1] == [x] && LastN([x], p.window) == [x];
    } else {
      LaterStep(p, accepted, o, ClosedForm(p, accepted), ClosedForm(p, accepted + [x]));
    }
  }

  /** What one more sample makes of an estimator, with the new window given. */
  predicate Grows(p: Params, e: Estimator, x: int, window: seq<int>, f: Estimator) {
    && |window| > 1 && Slides(e.samples, x, p.window, window) && e.pendingUpdates < OFFSET_RECOMPUTE_INTERVAL
    && f == if e.pendingUpdates == OFFSET_RECOMPUTE_INTERVAL - 1 then Estimator(window, UpperMedian(window), 0)
            else Estimator(window, e.cachedMedian, e.pendingUpdates + 1)
  }

  lemma {:induction false} ClosedFormGrows(p: Params, accepted: seq<int>, x: int)
    requires ValidParams(p) && accepted != []
    ensures Grows(p, ClosedForm(p, accepted), x, LastN(accepted + [x], p.window), ClosedForm(p, accepted + [x]))
  {
    WindowStep(accepted, x, p.window);
    CacheStep(accepted, x);
  }

  lemma ObservedGrows(p: Params, e: Estimator, o: Observation, x: int, window: seq<int>, f: Estimator)
    requires Accepts(p, o) && x == o.localTs - o.exchangeTs && Grows(p, e, x, window, f)
    ensures Observed(p, e, o) == f
  {
  }

  lemma {:induction false} LaterStep(p: Params, accepted: seq<int>, o: Observation, e: Estimator, f: Estimator)
    requires ValidParams(p) && Accepts(p, o) && accepted != []
    requires e == ClosedForm(p, accepted) && f == ClosedForm(p, accepted + [o.localTs - o.exchangeTs])
    ensures Observed(p, e, o) == f
  {
    var x := o.localTs - o.exchangeTs;
    ClosedFormGrows(p, accepted, x);
    ObservedGrows(p, e, o, x, LastN(accepted + [x], p.window), f);
  }

  /** After any run of observations the window holds the last samples accepted and the cached median is the
      upper median of the window as it was at accepted sample 1, 65, 129, ... */
  lemma {:induction false} EstimatorClosedForm(p: Params, obs: seq<Observation>)
    requires ValidParams(p)
    ensures ObserveAll(p, obs) == ClosedForm(p, Accepted(p, obs))
  {
    if obs != [] {
      var init, o := obs[..|obs| - 1], obs[|obs| - 1];
      EstimatorClosedForm(p, init);
      if Accepts(p, o) {
        ClosedFormStep(p, Accepted(p, init), o);
      } else {
        assert Accepted(p, obs) == Accepted(p, init);
      }
    }
  }

  lemma {:induction false} AcceptedBounded(p: Params, obs: seq<Observation>)
    ensures forall x :: x in Accepted(p, obs) ==> Abs(x) <= p.maxAbs
  {
    if obs != [] {
      AcceptedBounded(p, obs[..|obs| - 1]);
    }
  }

  /** The cached offset is at most 63 accepted samples stale and never outside the sample bound. */
  lemma CacheIsFreshAndBounded(p: Params, obs: seq<Observation>)
    requires ValidParams(p)
    ensures var k := |Accepted(p, obs)|;
            k > 0 ==> k - SeenByCache(k) <= 63 && ObserveAll(p, obs).pendingUpdates == k - SeenByCache(k)
    ensures Abs(ObserveAll(p, obs).cachedMedian) <= p.maxAbs
  {
    EstimatorClosedForm(p, obs);
    AcceptedBounded(p, obs);
    var accepted := Accepted(p, obs);
    if accepted != [] {
      var seen := accepted[..SeenByCache(|accepted|)];
      UpperMedianExact(LastN(seen, p.window));
      var m := UpperMedian(LastN(seen, p.window));
      assert m in seen;
    }
  }

  /** The two estimators in use: 256 samples within six hours in nanoseconds, 512 within six hours in
      milliseconds. */
  lemma BothEstimators(obs: seq<Observation>)
    ensures var e, accepted := ObserveAll(STRATEGY, obs), Accepted(STRATEGY, obs);
            && e == ClosedForm(STRATEGY, accepted) && e.samples == LastN(accepted, 256)
            && Abs(e.cachedMedian) <= 21_600_000_000_000
    ensures var e, accepted := ObserveAll(SCREENER, obs), Accepted(SCREENER, obs);
            && e == ClosedForm(SCREENER, accepted) && e.samples == LastN(accepted, 512)
            && Abs(e.cachedMedian) <= 21_600_000
  {
    EstimatorClosedForm(STRATEGY, obs);
    EstimatorClosedForm(SCREENER, obs);
    CacheIsFreshAndBounded(STRATEGY, obs);
    CacheIsFreshAndBounded(SCREENER, obs);
  }

  /** Which samples count, in numbers: both times positive and at most six hours apart; the sample is how far the local
      time is ahead. */
  lemma SamplesInNumbers(obs: seq<Observation>, o: Observation)
    ensures var sample := o.localTs - o.exchangeTs;
            Accepted(STRATEGY, obs + [o]) == Accepted(STRATEGY, obs) +
            if o.localTs > 0 && o.exchangeTs > 0 && -21_600_000_000_000 <= sample <= 21_600_000_000_000
            then [sample] else []
    ensures var sample := o.localTs - o.exchangeTs;
            Accepted(SCREENER, obs + [o]) == Accepted(SCREENER, obs) +
            if o.localTs > 0 && o.exchangeTs > 0 && -21_600_000 <= sample <= 21_600_000 then [sample] else []
  {
    assert (obs + [o])[..|obs|] == obs;
  }
}
