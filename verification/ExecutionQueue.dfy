/** The execution queue: producers and one worker over the keep-latest lane, with the kill switch gating
    admission and sending. The worker's recovery check, its verdict on an intent and the end of the awaited
    send are steps of their own: producers may be admitted or blocked in between. */
module ExecutionQueue {
  import opened Multisets
  import Lane = KeepLatestLane
  import opened KillSwitch
  import opened Numbers

  /** An order intent waits under its symbol. */
  datatype OrderIntent = OrderIntent(id: nat, decidedAt: int)

  type Message = Lane.Message<string, OrderIntent>

  /** How far the worker is with the intent it holds, and what it read from the clock on the way. */
  datatype Place = Fetched | Recovered(checkedAt: int) | Sending(checkedAt: int, agedAt: int)

  /** `steps`, `sent`, `timedOut` and `rejected` record the run: the iterations the worker has finished and what
      became of their intents. */
  datatype Queue = Queue(
    lane: Lane.Lane<string, OrderIntent>,
    cfg: Config,
    switch: Switch,
    place: Place,
    steps: seq<Step>,
    sent: multiset<Message>,
    timedOut: multiset<Message>,
    rejected: multiset<Message>)

  datatype Event =
    | InLane(e: Lane.Event<string, OrderIntent>)
    | CheckRecovery(now: int)
    | Judge(now: int)                       // drop the intent or start sending it
    | SendEnds(timesOut: bool, now: int)
    | MetricsTick(now: int)

  ghost predicate Enabled(q: Queue, e: Event) {
    match e
    case InLane(le) =>
      && Lane.Enabled(q.lane, le)
      && !le.Finish? && !le.Drain?
      && (le.Admit? ==> !q.switch.active)
      && (le.Block? ==> q.switch.active)
    case CheckRecovery(_) => q.lane.taken.Processing? && q.place.Fetched?
    case Judge(_) => q.lane.taken.Processing? && q.place.Recovered?
    case SendEnds(_, _) => q.lane.taken.Processing? && q.place.Sending?
    case MetricsTick(_) => q.lane.open && q.lane.taken.Nothing?
  }

  function DecidedAt(q: Queue): int
    requires q.lane.taken.Processing?
  {
    q.lane.taken.m.body.decidedAt
  }

  ghost function Reject(q: Queue, now: int): Queue
    requires q.lane.taken.Processing? && q.place.Recovered?
  {
    var agedAt := if q.switch.active then q.place.checkedAt else now;
    q.(lane := Lane.Apply(q.lane, Lane.Finish), place := Fetched,
       steps := q.steps + [Intent(DecidedAt(q), q.place.checkedAt, agedAt, false, agedAt)],
       rejected := q.rejected + multiset{q.lane.taken.m})
  }

  ghost function EndSend(q: Queue, timesOut: bool, now: int): Queue
    requires q.lane.taken.Processing? && q.place.Sending?
  {
    var m := q.lane.taken.m;
    q.(lane := Lane.Apply(q.lane, Lane.Finish), place := Fetched,
       switch := Settle(q.cfg, q.switch, timesOut, now),
       steps := q.steps + [Intent(DecidedAt(q), q.place.checkedAt, q.place.agedAt, timesOut, now)],
       sent := if timesOut then q.sent else q.sent + multiset{m},
       timedOut := if timesOut then q.timedOut + multiset{m} else q.timedOut)
  }

  ghost function Apply(q: Queue, e: Event): Queue
    requires Enabled(q, e)
  {
    match e
    case InLane(le) => q.(lane := Lane.Apply(q.lane, le))
    case CheckRecovery(now) => q.(switch := Recover(q.switch, now), place := Recovered(now))
    case Judge(now) =>
      if Rejects(q.cfg, q.switch, DecidedAt(q), now) then Reject(q, now)
      else q.(place := Sending(q.place.checkedAt, now))
    case SendEnds(timesOut, now) => EndSend(q, timesOut, now)
    case MetricsTick(now) => q.(switch := Recover(q.switch, now), steps := q.steps + [Tick(now)])
  }

  ghost function Init(cap: nat, open: bool, cfg: Config): Queue {
    Queue(Lane.Init(cap, open), cfg, OFF, Fetched, [], multiset{}, multiset{}, multiset{})
  }

  // ---- every reachable state ---------------------------------------------------------------------------------

  /** However the producers interleave with it, the worker's switch is that of its own iterations, run one after
      the other, and a send under way was judged with the flag down and the intent fresh. */
  predicate InStep(q: Queue) {
    && (!q.lane.taken.Processing? ==> q.place.Fetched?)
    && match q.place
       case Fetched => q.switch == After(q.cfg, q.steps)
       case Recovered(checkedAt) => q.switch == Recover(After(q.cfg, q.steps), checkedAt)
       case Sending(checkedAt, agedAt) =>
         && q.switch == Recover(After(q.cfg, q.steps), checkedAt)
         && q.lane.taken.Processing? && !Rejects(q.cfg, q.switch, DecidedAt(q), agedAt)
  }

  /** The iterations recorded are those that sent, timed out and dropped the intents. */
  ghost predicate Recorded(q: Queue) {
    && |q.sent| == Ended(q.cfg, q.steps, Sent)
    && |q.timedOut| == Ended(q.cfg, q.steps, TimedOut)
    && |q.rejected| == Ended(q.cfg, q.steps, DroppedActive) + Ended(q.cfg, q.steps, DroppedStale)
  }

  ghost predicate Inv(q: Queue) {
    && ValidConfig(q.cfg)
    && Lane.Inv(q.lane)
    && InStep(q)
    && Recorded(q)
    && q.lane.delivered == q.sent + q.timedOut + q.rejected
  }

  lemma StepDone(cfg: Config, steps: seq<Step>, s: Step)
    ensures After(cfg, steps + [s]) == Next(cfg, After(cfg, steps), s)
    ensures forall v :: Ended(cfg, steps + [s], v) ==
                        Ended(cfg, steps, v) + if s.Intent? && VerdictOf(cfg, After(cfg, steps), s) == v then 1 else 0
  {
    assert (steps + [s])[..|steps|] == steps;
  }

  lemma LaneKeeps(q: Queue, e: Lane.Event<string, OrderIntent>)
    requires Inv(q) && Enabled(q, InLane(e))
    ensures Inv(Apply(q, InLane(e)))
  {
    Lane.InvKept(q.lane, e);
  }

  lemma RejectKeeps(q: Queue, now: int)
    requires Inv(q) && Enabled(q, Judge(now)) && Rejects(q.cfg, q.switch, DecidedAt(q), now)
    ensures Inv(Reject(q, now))
  {
    Lane.InvKept(q.lane, Lane.Finish);
    StepDone(q.cfg, q.steps, Reject(q, now).steps[|q.steps|]);
  }

  lemma EndSendKeeps(q: Queue, timesOut: bool, now: int)
    requires Inv(q) && Enabled(q, SendEnds(timesOut, now))
    ensures Inv(EndSend(q, timesOut, now))
  {
    Lane.InvKept(q.lane, Lane.Finish);
    StepDone(q.cfg, q.steps, EndSend(q, timesOut, now).steps[|q.steps|]);
  }

  lemma InvKept(q: Queue, e: Event)
    requires Inv(q) && Enabled(q, e)
    ensures Inv(Apply(q, e))
  {
    if e.InLane? {
      LaneKeeps(q, e.e);
    } else if e.Judge? && Rejects(q.cfg, q.switch, DecidedAt(q), e.now) {
      RejectKeeps(q, e.now);
    } else if e.SendEnds? {
      EndSendKeeps(q, e.timesOut, e.now);
    } else if e.MetricsTick? {
      StepDone(q.cfg, q.steps, Tick(e.now));
    }
  }

  ghost predicate Runnable(q: Queue, es: seq<Event>)
    decreases |es|
  {
    es == [] || (Enabled(q, es[0]) && Runnable(Apply(q, es[0]), es[1..]))
  }

  ghost function Run(q: Queue, es: seq<Event>): Queue
    requires Runnable(q, es)
    decreases |es|
  {
    if es == [] then q else Run(Apply(q, es[0]), es[1..])
  }

  lemma {:induction false} InvRun(q: Queue, es: seq<Event>)
    requires Inv(q) && Runnable(q, es)
    ensures Inv(Run(q, es)) && Run(q, es).cfg == q.cfg
    decreases |es|
  {
    if es != [] {
      InvKept(q, es[0]);
      InvRun(Apply(q, es[0]), es[1..]);
    }
  }

  /** `q` is reachable from an empty queue. */
  ghost predicate ReachableBy(cap: nat, open: bool, cfg: Config, es: seq<Event>, q: Queue) {
    ValidConfig(cfg) && Runnable(Init(cap, open, cfg), es) && q == Run(Init(cap, open, cfg), es)
  }

  lemma ReachableIsSound(cap: nat, open: bool, cfg: Config, es: seq<Event>, q: Queue)
    requires ReachableBy(cap, open, cfg, es, q)
    ensures Inv(q) && q.cfg == cfg
  {
    Lane.InvInit<string, OrderIntent>(cap, open);
    InvRun(Init(cap, open, cfg), es);
  }

  /** In every reachable state every intent offered is accounted for exactly once: sent, timed out, dropped
      by the worker, dropped by a producer, queued, in the overflow map, in the worker's hand or in a call. */
  lemma IntentsConserved(cap: nat, open: bool, cfg: Config, es: seq<Event>, q: Queue, m: Message)
    requires ReachableBy(cap, open, cfg, es, q)
    ensures Recorded(q)
    ensures q.lane.offered[m] == q.sent[m] + q.timedOut[m] + q.rejected[m] + q.lane.dropped[m]
                               + multiset(q.lane.channel)[m] + Values(q.lane.overflow)[m]
                               + Lane.HeldByWorker(q.lane.taken)[m] + Lane.InCalls(q.lane)[m]
  {
    ReachableIsSound(cap, open, cfg, es, q);
    assert Lane.Copies(q.lane, m) == q.lane.offered[m];
  }

  /** In every reachable state, whatever the clock did, the depth counter is exact and the flag is raised
      exactly while the worker has a recovery time. */
  lemma DepthAndFlagExact(cap: nat, open: bool, cfg: Config, es: seq<Event>, q: Queue)
    requires ReachableBy(cap, open, cfg, es, q)
    ensures q.lane.depth == |q.lane.channel| + Total(q.lane.producers, Lane.Reservation)
                            + (if q.lane.taken.Received? then 1 else 0)
    ensures |q.lane.channel| <= q.lane.cap
    ensures q.switch.active <==> q.switch.recoverAt.Some?
  {
    ReachableIsSound(cap, open, cfg, es, q);
    RunAgrees(cfg, q.steps);
  }

  /** Throughout every send, from the verdict to its end, the flag is down, so producers are admitted, and the
      intent was fresh when it was judged. */
  lemma NoSendWhileActive(cap: nat, open: bool, cfg: Config, es: seq<Event>, q: Queue)
    requires ReachableBy(cap, open, cfg, es, q) && q.place.Sending?
    ensures !q.switch.active && q.lane.taken.Processing?
    ensures DecidedAt(q) > 0 ==> q.place.agedAt - DecidedAt(q) <= cfg.maxIntentAgeMs * 1_000_000
    ensures forall p :: 0 <= p < |q.lane.producers| && q.lane.producers[p].Entered? ==>
                          Enabled(q, InLane(Lane.Admit(p))) && !Enabled(q, InLane(Lane.Block(p)))
  {
    ReachableIsSound(cap, open, cfg, es, q);
  }

  /** With a clock that does not step back, in every reachable state: of the timeouts since the last successful
      send the j-th after a trip came at least j cooldowns after it. */
  lemma TimeoutRateBound(cap: nat, open: bool, cfg: Config, es: seq<Event>, q: Queue, i: nat, j: nat)
    requires ReachableBy(cap, open, cfg, es, q) && Monotone(q.steps)
    requires cfg.timeoutStreak - 1 <= i <= j < |Streak(cfg, q.steps)|
    ensures Streak(cfg, q.steps)[j] >= Min(Streak(cfg, q.steps)[i] + (j - i) * CooldownNs(cfg), I64_MAX)
  {
    RateBound(cfg, q.steps, i, j);
  }

  // ---- recovery and verdicts in numbers -------------------------------------------------------------------------

  /** In every reachable state, whatever the clock did: a recovery check or a metrics tick lowers the flag and clears
      the recovery time as soon as that has come; an earlier one, or one when none is set, changes nothing. */
  lemma RecoveryExact(cap: nat, open: bool, cfg: Config, es: seq<Event>, q: Queue, e: Event)
    requires ReachableBy(cap, open, cfg, es, q) && Enabled(q, e) && (e.CheckRecovery? || e.MetricsTick?)
    ensures var due, now := q.switch.recoverAt, Apply(q, e).switch;
            && now.consecutive == q.switch.consecutive
            && (q.switch.active <==> due.Some?)
            && (due.Some? && due.value <= e.now ==> !now.active && now.recoverAt.None?)
            && (due.Some? && e.now < due.value ==> now.active && now.recoverAt == due)
            && (due.None? ==> !now.active && now.recoverAt.None?)
  {
    DepthAndFlagExact(cap, open, cfg, es, q);
  }

  /** In every reachable state whose clock did not step back, the verdict on an intent: dropped while the cooldown of
      the last of enough timeouts runs, else dropped if too old, else its send begins, with the flag down. */
  lemma JudgeExact(cap: nat, open: bool, cfg: Config, es: seq<Event>, q: Queue, now: int)
    requires ReachableBy(cap, open, cfg, es, q) && Enabled(q, Judge(now))
    requires Monotone(q.steps) && Clock(q.steps) <= q.place.checkedAt
    ensures var t, m := Apply(q, Judge(now)), q.lane.taken.m;
            if Blocked(cfg, Streak(cfg, q.steps), q.place.checkedAt) || TooOld(cfg, m.body.decidedAt, now)
            then t.place == Fetched && t.lane.taken.Nothing? && t.rejected == q.rejected + multiset{m}
            else t.place == Sending(q.place.checkedAt, now) && !t.switch.active
                 && t.lane.taken == q.lane.taken && t.rejected == q.rejected
  {
    ReachableIsSound(cap, open, cfg, es, q);
    CheckTells(cfg, q.steps, q.place.checkedAt);
  }

  /** In every reachable state a producer that has entered is admitted or blocked, by the flag alone: it is blocked
      exactly while a recovery time is set, which takes enough timeouts since the last successful send. */
  lemma AdmissionExact(cap: nat, open: bool, cfg: Config, es: seq<Event>, q: Queue, p: nat)
    requires ReachableBy(cap, open, cfg, es, q) && p < |q.lane.producers| && q.lane.producers[p].Entered?
    ensures Enabled(q, InLane(Lane.Admit(p))) <==> q.switch.recoverAt.None?
    ensures Enabled(q, InLane(Lane.Block(p))) <==> q.switch.recoverAt.Some?
    ensures q.switch.recoverAt.Some? ==> |Streak(cfg, q.steps)| >= cfg.timeoutStreak
  {
    DepthAndFlagExact(cap, open, cfg, es, q);
    ReachableIsSound(cap, open, cfg, es, q);
    RunAgrees(cfg, q.steps);
  }
}
