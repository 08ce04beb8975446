/** The stop-loss guard: a per-symbol streak that puts the symbol into cooldown, as a machine and as a fold
    over the symbol's trade history. */
module GuardMachine {
  import opened Numbers
  import opened FleetTrades

  const FAST_STREAK_WINDOW_MS: int := 120_000
  const COOLDOWN_MS: int := 300_000

  datatype Guard = Guard(streakCount: nat, firstStreakTs: Option<int>, cooldownUntil: Option<int>)

  const NO_GUARD: Guard := Guard(0, None, None)

  datatype Closed = Closed(pnlPct: real, stopLoss: bool, ts: int)

  datatype Recorded = Recorded(guard: Guard, triggered: bool)

  function Record(g: Guard, t: Closed): Recorded {
    if t.pnlPct > 0.0 then Recorded(g.(streakCount := 0, firstStreakTs := None), false)
    else if !t.stopLoss then Recorded(g, false)
    else
      var first := if g.streakCount == 0 || g.firstStreakTs.None? then t.ts else g.firstStreakTs.value;
      var count := g.streakCount + 1;
      if (count >= 5 && Saturate(t.ts - first) <= FAST_STREAK_WINDOW_MS) || count >= 6
      then Recorded(Guard(0, None, Some(Saturate(t.ts + COOLDOWN_MS))), true)
      else Recorded(Guard(count, if g.streakCount == 0 then Some(t.ts) else g.firstStreakTs, g.cooldownUntil), false)
  }

  // ---- the fold over a symbol's history -----------------------------------------------------------------

  predicate Win(t: Closed) { t.pnlPct > 0.0 }

  predicate Stop(t: Closed) { !Win(t) && t.stopLoss }

  function Stops(h: seq<Closed>): nat {
    if h == [] then 0 else Stops(h[..|h| - 1]) + (if Stop(h[|h| - 1]) then 1 else 0)
  }

  function FirstStop(h: seq<Closed>): Option<int> {
    if h == [] then None
    else
      var before := FirstStop(h[..|h| - 1]);
      if before.Some? then before else if Stop(h[|h| - 1]) then Some(h[|h| - 1].ts) else None
  }

  /** Where the streak that trade `n` would join begins: just after the last win or trigger before it. */
  function StreakStart(h: seq<Closed>, n: nat): (start: nat)
    requires n <= |h|
    ensures start <= n
    decreases n, 0
  {
    if n == 0 then 0
    else if Win(h[n - 1]) || Triggers(h, n - 1) then n
    else StreakStart(h, n - 1)
  }

  /** Trade `n` puts the symbol into cooldown: it is the sixth stop-loss of its streak, or the fifth within
      two minutes of the first. */
  predicate Triggers(h: seq<Closed>, n: nat)
    requires n < |h|
    decreases n, 1
  {
    var streak := h[StreakStart(h, n)..n + 1];
    && Stop(h[n])
    && (Stops(streak) >= 6
        || (Stops(streak) >= 5 && FirstStop(streak).Some?
            && Saturate(h[n].ts - FirstStop(streak).value) <= FAST_STREAK_WINDOW_MS))
  }

  /** The end of the cooldown the last trigger started. */
  function Cooldown(h: seq<Closed>, n: nat): Option<int>
    requires n <= |h|
  {
    if n == 0 then None
    else if Triggers(h, n - 1) then Some(Saturate(h[n - 1].ts + COOLDOWN_MS))
    else Cooldown(h, n - 1)
  }

  /** The guard after trades `h`, from any guard: an empty one or one restored from storage. */
  function GuardFrom(g: Guard, h: seq<Closed>): Guard {
    if h == [] then g else Record(GuardFrom(g, h[..|h| - 1]), h[|h| - 1]).guard
  }

  /** Trade `k` puts the symbol into cooldown, from guard `g` on. */
  predicate TriggersFrom(g: Guard, h: seq<Closed>, k: nat)
    requires k < |h|
  {
    Record(GuardFrom(g, h[..k]), h[k]).triggered
  }

  function GuardAfter(h: seq<Closed>): Guard {
    GuardFrom(NO_GUARD, h)
  }

  lemma {:induction false} FirstStopExists(h: seq<Closed>)
    ensures FirstStop(h).Some? <==> Stops(h) > 0
  {
    if h != [] {
      FirstStopExists(h[..|h| - 1]);
    }
  }

  lemma StopsSnoc(h: seq<Closed>, start: nat, n: nat)
    requires start <= n < |h|
    ensures Stops(h[start..n + 1]) == Stops(h[start..n]) + (if Stop(h[n]) then 1 else 0)
    ensures FirstStop(h[start..n + 1]) ==
            if FirstStop(h[start..n]).Some? then FirstStop(h[start..n]) else if Stop(h[n]) then Some(h[n].ts) else None
  {
    assert h[start..n + 1][..n - start] == h[start..n];
  }

  /** The history up to trade `n` alone decides where its streak starts and whether it triggers. */
  lemma {:induction false} OnlyThePast(h: seq<Closed>, more: seq<Closed>, n: nat)
    requires n <= |h|
    ensures StreakStart(h + more, n) == StreakStart(h, n)
    ensures n < |h| ==> Triggers(h + more, n) == Triggers(h, n)
    ensures Cooldown(h + more, n) == Cooldown(h, n)
    decreases n
  {
    if n > 0 {
      OnlyThePast(h, more, n - 1);
    }
    if n < |h| {
      var start := StreakStart(h, n);
      assert (h + more)[start..n + 1] == h[start..n + 1];
    }
  }

  /** The stored guard is the fold: the streak counts the stop-losses since the last win or trigger and
      never exceeds five, the first timestamp is that of the first of them, and the cooldown is that of the
      last trigger. */
  lemma {:induction false} GuardIsFold(h: seq<Closed>)
    ensures var g, streak := GuardAfter(h), h[StreakStart(h, |h|)..];
            && g.streakCount == Stops(streak) <= 5
            && g.firstStreakTs == FirstStop(streak)
            && g.cooldownUntil == Cooldown(h, |h|)
  {
    if h != [] {
      var init, n := h[..|h| - 1], |h| - 1;
      GuardIsFold(init);
      assert h == init + [h[n]];
      OnlyThePast(init, [h[n]], n);
      var start := StreakStart(h, n);
      assert init[start..] == h[start..n];
      FirstStopExists(h[start..n]);
      StopsSnoc(h, start, n);
      RecordStep(GuardAfter(init), h, n, start);
    }
  }

  lemma RecordStep(g: Guard, h: seq<Closed>, n: nat, start: nat)
    requires n + 1 == |h| && start == StreakStart(h, n)
    requires g.streakCount == Stops(h[start..n]) <= 5 && g.firstStreakTs == FirstStop(h[start..n])
    requires FirstStop(h[start..n]).Some? <==> Stops(h[start..n]) > 0
    requires g.cooldownUntil == Cooldown(h, n)
    ensures var r := Record(g, h[n]);
            && r.triggered == Triggers(h, n)
            && r.guard.streakCount == Stops(h[StreakStart(h, n + 1)..]) <= 5
            && r.guard.firstStreakTs == FirstStop(h[StreakStart(h, n + 1)..])
            && r.guard.cooldownUntil == Cooldown(h, n + 1)
  {
    StopsSnoc(h, start, n);
    assert h[start..n + 1] == h[start..];
    assert h[n + 1..] == [];
  }

  lemma {:induction false} StopsSplit(a: seq<Closed>, b: seq<Closed>)
    ensures Stops(a + b) == Stops(a) + Stops(b)
  {
    if b != [] {
      assert (a + b)[..|a + b| - 1] == a + b[..|b| - 1];
      StopsSplit(a, b[..|b| - 1]);
    } else {
      assert a + b == a;
    }
  }

  /** Without a win or a trigger in between, the streak goes on. */
  lemma {:induction false} StreakGoesOn(h: seq<Closed>, a: nat, b: nat)
    requires a <= b <= |h|
    requires forall k :: a <= k < b ==> !Win(h[k]) && !Triggers(h, k)
    ensures StreakStart(h, b) == StreakStart(h, a)
  {
    if a < b {
      StreakGoesOn(h, a, b - 1);
    }
  }

  /** No streak holds more than five stop-losses. */
  lemma StreakIsShort(h: seq<Closed>, b: nat)
    requires b <= |h|
    ensures Stops(h[StreakStart(h, b)..b]) <= 5
  {
    var past := h[..b];
    assert h == past + h[b..];
    OnlyThePast(past, h[b..], b);
    GuardIsFold(past);
    assert past[StreakStart(h, b)..] == h[StreakStart(h, b)..b];
  }

  /** Any six stop-losses with no win between them contain a trigger. */
  lemma {:induction false} SixStopsTrigger(h: seq<Closed>, a: nat, b: nat)
    requires a <= b <= |h| && Stops(h[a..b]) >= 6
    requires forall k :: a <= k < b ==> !Win(h[k])
    ensures exists k :: a <= k < b && Triggers(h, k)
  {
    if forall k :: a <= k < b ==> !Triggers(h, k) {
      StreakGoesOn(h, a, b);
      StreakIsShort(h, b);
      var start := StreakStart(h, b);
      assert h[start..b] == h[start..a] + h[a..b];
      StopsSplit(h[start..a], h[a..b]);
    }
  }

  /** From an empty guard the machine triggers exactly where the history says. */
  lemma {:induction false} TriggersAgree(h: seq<Closed>, k: nat)
    requires k < |h|
    ensures TriggersFrom(NO_GUARD, h, k) == Triggers(h, k)
  {
    var past := h[..k + 1];
    assert past[..k] == h[..k] && h == past + h[k + 1..];
    OnlyThePast(past, h[k + 1..], k);
    LastTriggerAgrees(past);
  }

  lemma OneMoreTrade(g: Guard, h: seq<Closed>, t: Closed)
    ensures GuardFrom(g, h + [t]) == Record(GuardFrom(g, h), t).guard
  {
    assert (h + [t])[..|h|] == h;
  }

  /** In numbers: of stop-losses alone, the fifth triggers if it comes at most 120,000 ms after the first, and else the
      sixth does; a cooldown lasts 300,000 ms. Until then the guard holds how many there were, and the first's time. */
  lemma StopsInNumbers(a: Closed, b: Closed, c: Closed, d: Closed, e: Closed, f: Closed)
    requires forall t :: t in {a, b, c, d, e, f} ==> t.stopLoss && t.pnlPct <= 0.0
    ensures GuardAfter([a, b, c, d]) == Guard(4, Some(a.ts), None)
    ensures GuardAfter([a, b, c, d, e])
         == if e.ts - a.ts <= 120_000 then Guard(0, None, Some(Saturate(e.ts + 300_000)))
            else Guard(5, Some(a.ts), None)
    ensures e.ts - a.ts > 120_000 ==> GuardAfter([a, b, c, d, e, f]) == Guard(0, None, Some(Saturate(f.ts + 300_000)))
  {
    OneMoreTrade(NO_GUARD, [], a);
    OneMoreTrade(NO_GUARD, [a], b);
    OneMoreTrade(NO_GUARD, [a, b], c);
    OneMoreTrade(NO_GUARD, [a, b, c], d);
    OneMoreTrade(NO_GUARD, [a, b, c, d], e);
    OneMoreTrade(NO_GUARD, [a, b, c, d, e], f);
    assert [] + [a] == [a] && [a] + [b] == [a, b] && [a, b] + [c] == [a, b, c] && [a, b, c] + [d] == [a, b, c, d];
    assert [a, b, c, d] + [e] == [a, b, c, d, e] && [a, b, c, d, e] + [f] == [a, b, c, d, e, f];
  }

  lemma {:induction false} LastTriggerAgrees(h: seq<Closed>)
    requires h != []
    ensures TriggersFrom(NO_GUARD, h, |h| - 1) == Triggers(h, |h| - 1)
  {
    var k := |h| - 1;
    var init := h[..k];
    GuardIsFold(init);
    assert h == init + [h[k]];
    OnlyThePast(init, [h[k]], k);
    var start := StreakStart(h, k);
    assert init[start..] == h[start..k];
    FirstStopExists(h[start..k]);
    RecordStep(GuardAfter(init), h, k, start);
  }

  lemma TriggerSetsCooldown(g: Guard, t: Closed)
    ensures Record(g, t).triggered ==> Record(g, t).guard.cooldownUntil == Some(Saturate(t.ts + COOLDOWN_MS))
    ensures !Record(g, t).triggered ==> Record(g, t).guard.cooldownUntil == g.cooldownUntil
  {
  }

  /** A win ends the streak and nothing else; a loss that is no stop-loss changes nothing. */
  lemma OtherTrades(g: Guard, t: Closed)
    ensures t.pnlPct > 0.0 ==> Record(g, t) == Recorded(Guard(0, None, g.cooldownUntil), false)
    ensures t.pnlPct <= 0.0 && !t.stopLoss ==> Record(g, t) == Recorded(g, false)
  {
  }

  /** With non-decreasing timestamps a cooldown, once started, never ends earlier, whatever the guard was before
      these trades. */
  lemma {:induction false} CooldownHolds(g: Guard, h: seq<Closed>, k: nat)
    requires k < |h| && TriggersFrom(g, h, k)
    requires forall i, j :: 0 <= i < j < |h| ==> h[i].ts <= h[j].ts
    ensures var until := GuardFrom(g, h).cooldownUntil; until.Some? && until.value >= Saturate(h[k].ts + COOLDOWN_MS)
    decreases |h|
  {
    var n := |h| - 1;
    TriggerSetsCooldown(GuardFrom(g, h[..n]), h[n]);
    if k < n {
      assert h[..n][..k] == h[..k];
      CooldownHolds(g, h[..n], k);
    }
  }
}
