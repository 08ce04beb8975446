/** The execution worker's kill switch: tripped by a streak of send timeouts, recovered after a cooldown.
    Every clock reading and the outcome of every send are inputs; the clock may step back unless a theorem
    says otherwise. */
module KillSwitch {
  import opened Numbers
  import opened FleetTrades

  datatype Config = Config(timeoutStreak: nat, cooldownMs: nat, maxIntentAgeMs: nat)

  /** The environment clamps the streak to at least one; it is a 32-bit number. */
  predicate ValidConfig(cfg: Config) {
    1 <= cfg.timeoutStreak <= U32_MAX
  }

  datatype Switch = Switch(active: bool, recoverAt: Option<int>, consecutive: nat)

  const OFF: Switch := Switch(false, None, 0)

  datatype Verdict = DroppedActive | DroppedStale | Sent | TimedOut

  /** One iteration of the worker: an intent with the clock readings taken while handling it and the outcome
      of the send, should one be attempted, or a metrics tick. */
  datatype Step =
    | Intent(decidedAt: int, checkedAt: int, agedAt: int, timesOut: bool, doneAt: int)
    | Tick(now: int)

  function CooldownNs(cfg: Config): int {
    Min(Min(cfg.cooldownMs * 1_000_000, U64_MAX), I64_MAX)
  }

  function IsStale(cfg: Config, decidedAt: int, now: int): bool {
    decidedAt > 0 && now > decidedAt && now - decidedAt > Min(cfg.maxIntentAgeMs * 1_000_000, U64_MAX)
  }

  function Recover(k: Switch, now: int): Switch {
    if k.recoverAt.Some? && now >= k.recoverAt.value then k.(active := false, recoverAt := None) else k
  }

  /** After the recovery check: whether the intent is dropped. */
  predicate Rejects(cfg: Config, k: Switch, decidedAt: int, agedAt: int) {
    k.active || IsStale(cfg, decidedAt, agedAt)
  }

  /** After the send: what its outcome makes of the switch. */
  function Settle(cfg: Config, k: Switch, timesOut: bool, doneAt: int): Switch {
    if !timesOut then k.(consecutive := 0)
    else
      var n := Increment(k.consecutive, U32_MAX);
      if n >= cfg.timeoutStreak then Switch(true, Some(Saturate(doneAt + CooldownNs(cfg))), n)
      else k.(consecutive := n)
  }

  function VerdictOf(cfg: Config, k: Switch, s: Step): Verdict
    requires s.Intent?
  {
    var r := Recover(k, s.checkedAt);
    if !Rejects(cfg, r, s.decidedAt, s.agedAt) then (if s.timesOut then TimedOut else Sent)
    else if r.active then DroppedActive
    else DroppedStale
  }

  function Next(cfg: Config, k: Switch, s: Step): Switch {
    match s
    case Tick(now) => Recover(k, now)
    case Intent(decidedAt, checkedAt, agedAt, timesOut, doneAt) =>
      var r := Recover(k, checkedAt);
      if Rejects(cfg, r, decidedAt, agedAt) then r else Settle(cfg, r, timesOut, doneAt)
  }

  /** More than the configured age, in nanoseconds, has passed since an intent with a time stamp was decided. */
  predicate TooOld(cfg: Config, decidedAt: int, now: int) {
    decidedAt > 0 && now - decidedAt > Min(cfg.maxIntentAgeMs * 1_000_000, 0xFFFF_FFFF_FFFF_FFFF)
  }

  // ---- the worker as the source writes it ------------------------------------------------------------

  class ExecutionWorker {
    const cfg: Config
    var killSwitchActive: bool
    var killSwitchRecoverAtNs: Option<int>
    var consecutiveTimeouts: nat
    var sentIntents: nat
    var droppedIntents: nat
    var sendTimeouts: nat

    function State(): Switch
      reads this
    {
      Switch(killSwitchActive, killSwitchRecoverAtNs, consecutiveTimeouts)
    }

    constructor (cfg: Config)
      ensures this.cfg == cfg && State() == OFF
      ensures sentIntents == droppedIntents == sendTimeouts == 0
    {
      this.cfg := cfg;
      killSwitchActive, killSwitchRecoverAtNs, consecutiveTimeouts := false, None, 0;
      sentIntents, droppedIntents, sendTimeouts := 0, 0, 0;
    }

    method MaybeRecoverKillSwitch(now: int)
      modifies this`killSwitchActive, this`killSwitchRecoverAtNs
      ensures State() == Recover(old(State()), now)
      ensures var due := old(killSwitchRecoverAtNs);
              if due.Some? && due.value <= now then !killSwitchActive && killSwitchRecoverAtNs.None?
              else killSwitchActive == old(killSwitchActive) && killSwitchRecoverAtNs == due
    {
      if killSwitchRecoverAtNs.None? { return; }
      if now < killSwitchRecoverAtNs.value { return; }
      killSwitchActive := false;
      killSwitchRecoverAtNs := None;
    }

    /** The body of one iteration; the send is awaited where its outcome is asked. Exactly one counter goes up,
        the one the verdict names. */
    method ProcessIntent(s: Step) returns (verdict: Verdict)
      requires s.Intent?
      modifies this
      ensures verdict == VerdictOf(cfg, old(State()), s) && State() == Next(cfg, old(State()), s)
      ensures var due := old(killSwitchRecoverAtNs);
              verdict.DroppedActive? <==> old(killSwitchActive) && (due.None? || s.checkedAt < due.value)
      ensures !verdict.DroppedActive? ==> (verdict.DroppedStale? <==> TooOld(cfg, s.decidedAt, s.agedAt))
      ensures verdict.TimedOut? ==> s.timesOut
      ensures verdict.Sent? ==> !s.timesOut && consecutiveTimeouts == 0 && !killSwitchActive
      ensures sentIntents == old(sentIntents) + (if verdict.Sent? then 1 else 0)
      ensures sendTimeouts == old(sendTimeouts) + (if verdict.TimedOut? then 1 else 0)
      ensures droppedIntents == old(droppedIntents) + (if verdict.DroppedActive? || verdict.DroppedStale? then 1 else 0)
    {
      MaybeRecoverKillSwitch(s.checkedAt);
      if killSwitchActive {
        droppedIntents := droppedIntents + 1;
        return DroppedActive;
      }
      if IsStale(cfg, s.decidedAt, s.agedAt) {
        droppedIntents := droppedIntents + 1;
        return DroppedStale;
      }
      if !s.timesOut {
        consecutiveTimeouts := 0;
        sentIntents := sentIntents + 1;
        return Sent;
      }
      consecutiveTimeouts := Increment(consecutiveTimeouts, U32_MAX);
      sendTimeouts := sendTimeouts + 1;
      if consecutiveTimeouts >= cfg.timeoutStreak {
        killSwitchActive := true;
        killSwitchRecoverAtNs := Some(Saturate(s.doneAt + CooldownNs(cfg)));
      }
      return TimedOut;
    }
  }

  // ---- whole runs -------------------------------------------------------------------------------------------

  /** The switch after a run of the worker. */
  function After(cfg: Config, steps: seq<Step>): Switch {
    if steps == [] then OFF else Next(cfg, After(cfg, steps[..|steps| - 1]), steps[|steps| - 1])
  }

  /** When the send timeouts since the last successful send happened. */
  function Streak(cfg: Config, steps: seq<Step>): seq<int> {
    if steps == [] then []
    else
      var init, s := steps[..|steps| - 1], steps[|steps| - 1];
      if s.Tick? then Streak(cfg, init)
      else
        match VerdictOf(cfg, After(cfg, init), s)
        case Sent => []
        case TimedOut => Streak(cfg, init) + [s.doneAt]
        case DroppedActive => Streak(cfg, init)
        case DroppedStale => Streak(cfg, init)
  }

  /** How many intents of a run ended with verdict `v`. */
  function Ended(cfg: Config, steps: seq<Step>, v: Verdict): nat {
    if steps == [] then 0
    else
      var init, s := steps[..|steps| - 1], steps[|steps| - 1];
      Ended(cfg, init, v) + if s.Intent? && VerdictOf(cfg, After(cfg, init), s) == v then 1 else 0
  }

  /** Holds whatever the clock does: the flag is up exactly while a recovery time is set, the counter counts
      the streak, and a switch that has not seen the threshold has not tripped. */
  predicate Agrees(cfg: Config, k: Switch, streak: seq<int>) {
    && (k.active <==> k.recoverAt.Some?)
    && k.consecutive == Min(|streak|, U32_MAX)
    && (|streak| < cfg.timeoutStreak ==> k.recoverAt.None?)
  }

  lemma {:induction false} RunAgrees(cfg: Config, steps: seq<Step>)
    requires ValidConfig(cfg)
    ensures Agrees(cfg, After(cfg, steps), Streak(cfg, steps))
  {
    if steps != [] {
      RunAgrees(cfg, steps[..|steps| - 1]);
    }
  }

  // ---- runs with a monotone clock -----------------------------------------------------------------------------

  /** The last reading taken. */
  function Clock(steps: seq<Step>): int {
    if steps == [] then I64_MIN
    else
      var s := steps[|steps| - 1];
      if s.Tick? then s.now else s.doneAt
  }

  predicate Monotone(steps: seq<Step>) {
    steps == []
    || (Monotone(steps[..|steps| - 1]) && StepsForward(Clock(steps[..|steps| - 1]), steps[|steps| - 1]))
  }

  predicate StepsForward(clock: int, s: Step) {
    match s
    case Tick(now) => clock <= now <= I64_MAX
    case Intent(_, checkedAt, agedAt, _, doneAt) => clock <= checkedAt <= agedAt <= doneAt <= I64_MAX
  }

  /** Neighbouring timeouts at or beyond the threshold are a cooldown apart. */
  predicate Spaced(cfg: Config, streak: seq<int>) {
    forall i :: 0 <= cfg.timeoutStreak - 1 <= i < |streak| - 1 ==>
                  streak[i + 1] >= Saturate(streak[i] + CooldownNs(cfg))
  }

  /** A streak past the threshold ends in a cooldown that is running or over. */
  predicate Cooling(cfg: Config, k: Switch, streak: seq<int>, clock: int) {
    |streak| >= cfg.timeoutStreak && streak != [] ==>
      var due := Saturate(streak[|streak| - 1] + CooldownNs(cfg));
      if k.recoverAt.Some? then k.recoverAt.value == due else clock >= due
  }

  lemma CoolingStep(cfg: Config, k: Switch, streak: seq<int>, clock: int, s: Step)
    requires ValidConfig(cfg) && Agrees(cfg, k, streak) && Cooling(cfg, k, streak, clock) && Spaced(cfg, streak)
    requires StepsForward(clock, s)
    ensures s.Tick? ==> Cooling(cfg, Next(cfg, k, s), streak, s.now)
    ensures s.Intent? && VerdictOf(cfg, k, s).TimedOut? ==>
              Cooling(cfg, Next(cfg, k, s), streak + [s.doneAt], s.doneAt) && Spaced(cfg, streak + [s.doneAt])
    ensures s.Intent? && !VerdictOf(cfg, k, s).TimedOut? && !VerdictOf(cfg, k, s).Sent? ==>
              Cooling(cfg, Next(cfg, k, s), streak, s.doneAt)
  {
  }

  lemma {:induction false} RunCools(cfg: Config, steps: seq<Step>)
    requires ValidConfig(cfg) && Monotone(steps)
    ensures Cooling(cfg, After(cfg, steps), Streak(cfg, steps), Clock(steps)) && Spaced(cfg, Streak(cfg, steps))
  {
    if steps != [] {
      var init, s := steps[..|steps| - 1], steps[|steps| - 1];
      RunCools(cfg, init);
      RunAgrees(cfg, init);
      CoolingStep(cfg, After(cfg, init), Streak(cfg, init), Clock(init), s);
    }
  }

  /** The rate bound: in a stretch without a successful send, the j-th timeout after a trip comes at least j
      cooldowns after it (or at the end of the clock's range). */
  lemma RateBound(cfg: Config, steps: seq<Step>, i: nat, j: nat)
    requires ValidConfig(cfg) && Monotone(steps)
    requires cfg.timeoutStreak - 1 <= i <= j < |Streak(cfg, steps)|
    ensures Streak(cfg, steps)[j] >= Min(Streak(cfg, steps)[i] + (j - i) * CooldownNs(cfg), I64_MAX)
  {
    RunCools(cfg, steps);
    SpacedAdds(cfg, Streak(cfg, steps), i, j);
  }

  lemma {:induction false} SpacedAdds(cfg: Config, streak: seq<int>, i: nat, j: nat)
    requires ValidConfig(cfg) && Spaced(cfg, streak) && cfg.timeoutStreak - 1 <= i <= j < |streak|
    ensures streak[j] >= Min(streak[i] + (j - i) * CooldownNs(cfg), I64_MAX)
    decreases j - i
  {
    if i < j {
      SpacedAdds(cfg, streak, i, j - 1);
      var c := CooldownNs(cfg);
      assert streak[j - 1 + 1] >= Saturate(streak[j - 1] + c);
      assert (j - i) * c == (j - 1 - i) * c + c;
      assert c >= 0;
    } else {
      assert (j - i) * CooldownNs(cfg) == 0;
    }
  }

  // ---- verdicts in numbers ------------------------------------------------------------------------------------------

  /** When the cooldown after a timeout at `t` is over: `cooldownMs` later, in nanoseconds, or at the end of the
      clock's range. */
  function CooldownEnd(cfg: Config, t: int): int {
    Min(t + Min(cfg.cooldownMs * 1_000_000, 0x7FFF_FFFF_FFFF_FFFF), 0x7FFF_FFFF_FFFF_FFFF)
  }

  /** There were enough timeouts since the last successful send, and the cooldown of the last of them is not over. */
  predicate Blocked(cfg: Config, streak: seq<int>, now: int) {
    |streak| >= cfg.timeoutStreak && streak != [] && now < CooldownEnd(cfg, streak[|streak| - 1])
  }

  lemma {:induction false} StreakInRange(cfg: Config, steps: seq<Step>)
    requires Monotone(steps)
    ensures I64_MIN <= Clock(steps)
    ensures forall t :: t in Streak(cfg, steps) ==> I64_MIN <= t <= Clock(steps)
  {
    if steps != [] {
      StreakInRange(cfg, steps[..|steps| - 1]);
    }
  }

  lemma SameEnd(cfg: Config, t: int)
    requires t >= I64_MIN
    ensures Saturate(t + CooldownNs(cfg)) == CooldownEnd(cfg, t)
  {
  }

  /** The flag is up exactly while a cooldown runs, and the counter is that of the streak. */
  predicate FlagTells(cfg: Config, k: Switch, streak: seq<int>, now: int) {
    && (k.active <==> Blocked(cfg, streak, now))
    && (k.active ==> streak != [] && k.recoverAt == Some(CooldownEnd(cfg, streak[|streak| - 1])))
    && (!k.active ==> k.recoverAt.None?)
    && k.consecutive == Min(|streak|, 0xFFFF_FFFF)
  }

  lemma CheckTells(cfg: Config, steps: seq<Step>, now: int)
    requires ValidConfig(cfg) && Monotone(steps) && Clock(steps) <= now
    ensures FlagTells(cfg, Recover(After(cfg, steps), now), Streak(cfg, steps), now)
  {
    RunAgrees(cfg, steps);
    RunCools(cfg, steps);
    StreakInRange(cfg, steps);
    var streak := Streak(cfg, steps);
    if streak != [] {
      assert streak[|streak| - 1] in streak;
      SameEnd(cfg, streak[|streak| - 1]);
    }
  }

  /** A metrics tick lowers the flag as soon as the cooldown is over and not before. */
  lemma TickExact(cfg: Config, steps: seq<Step>, now: int)
    requires ValidConfig(cfg) && Monotone(steps) && StepsForward(Clock(steps), Tick(now))
    ensures FlagTells(cfg, After(cfg, steps + [Tick(now)]), Streak(cfg, steps + [Tick(now)]), now)
    ensures Streak(cfg, steps + [Tick(now)]) == Streak(cfg, steps)
  {
    assert (steps + [Tick(now)])[..|steps|] == steps;
    CheckTells(cfg, steps, now);
  }

  /** With a clock that does not step back, what becomes of an intent in terms of the times of the timeouts: it is
      dropped while a cooldown runs, else dropped if it is too old, else sent. */
  lemma VerdictExact(cfg: Config, steps: seq<Step>, s: Step)
    requires ValidConfig(cfg) && s.Intent? && Monotone(steps) && StepsForward(Clock(steps), s)
    ensures VerdictOf(cfg, After(cfg, steps), s) ==
            if Blocked(cfg, Streak(cfg, steps), s.checkedAt) then DroppedActive
            else if TooOld(cfg, s.decidedAt, s.agedAt) then DroppedStale
            else if s.timesOut then TimedOut
            else Sent
  {
    CheckTells(cfg, steps, s.checkedAt);
  }
}
