/** The promises of the portfolio runtime, over whole drains and whole runs of drains, rebalances and changes of
    the portfolio set. */
module PortfolioRuns {
  import opened Numbers
  import opened FleetTrades
  import opened FirstSeenOrder
  import opened DrainedTrades
  import opened Allocation
  import opened GuardMachine
  import opened Ranking
  import opened PortfolioEngine
  import opened PaperLedger

  datatype Event =
    | Drain(trades: seq<FleetTrade>)
    | RebalanceAt(candidates: seq<SymbolStats>, now: int)
    | ChangeIds(ids: seq<string>)

  /** The scheduler ranks one entry per symbol; normalization returns distinct ids, never none. */
  predicate Allowed(e: Event) {
    match e
    case Drain(_) => true
    case RebalanceAt(candidates, _) => DistinctSymbols(candidates)
    case ChangeIds(ids) => ids != [] && AllDistinct(ids)
  }

  ghost function Step(r: Runtime, e: Event): Runtime {
    match e
    case Drain(trades) => CreditAll(r, trades)
    case RebalanceAt(candidates, now) => Rebalance(r, candidates, now)
    case ChangeIds(ids) => SetIds(r, ids)
  }

  ghost function Run(r: Runtime, es: seq<Event>): Runtime
    decreases |es|
  {
    if es == [] then r else Run(Step(r, es[0]), es[1..])
  }

  /** Profit of all trades of the run that have an owner when they are drained. */
  ghost function OwnedInRun(r: Runtime, es: seq<Event>): real
    decreases |es|
  {
    if es == [] then 0.0
    else (if es[0].Drain? then Owned(r, es[0].trades) else 0.0) + OwnedInRun(Step(r, es[0]), es[1..])
  }

  lemma StepKeeps(r: Runtime, e: Event)
    requires Inv(r) && Allowed(e)
    ensures Inv(Step(r, e))
  {
    match e {
      case Drain(trades) => DrainBalances(r, trades);
      case RebalanceAt(candidates, now) => RebalanceKeeps(r, candidates, now);
      case ChangeIds(ids) => SetIdsKeeps(r, ids);
    }
  }

  /** From the defaults, over every run: every account's equity is its realized profit plus the opening
      balance, its wins and losses do not exceed its closed trades, every portfolio has exactly one account
      and every owner has one. */
  lemma {:induction false} LedgerStaysSound(es: seq<Event>, r: Runtime)
    requires Inv(r) && forall e :: e in es ==> Allowed(e)
    ensures Inv(Run(r, es))
    ensures forall id :: id in Run(r, es).paper ==>
              var a := Run(r, es).paper[id];
              && a.equity == INITIAL_EQUITY_USD + a.realized
              && (a.closed < U64_MAX ==> a.profitable + a.losing <= a.closed)
    ensures EnsureSlots(Run(r, es)) == Run(r, es)
    decreases |es|
  {
    if es != [] {
      StepKeeps(r, es[0]);
      assert forall e :: e in es[1..] ==> e in es;
      LedgerStaysSound(es[1..], Step(r, es[0]));
    } else {
      SlotRepairIsNoOp(r);
    }
  }

  lemma DefaultsAreSound()
    ensures Inv(FRESH)
  {
    assert DEFAULT_IDS[0] == "A" && DEFAULT_IDS[1] == "B";
    assert "A"[0] != "B"[0];
  }

  lemma BalanceStep(r: Runtime, e: Event)
    requires Inv(r) && Allowed(e) && !e.ChangeIds?
    ensures var s := Step(r, e);
            Inv(s) && s.ids == r.ids
            && Total(s.paper, s.ids) == Total(r.paper, r.ids) + (if e.Drain? then Owned(r, e.trades) else 0.0)
  {
    match e {
      case Drain(trades) => DrainBalances(r, trades);
      case RebalanceAt(candidates, now) => RebalanceKeeps(r, candidates, now);
    }
  }

  /** Between changes of the portfolio set, the total realized profit grows by exactly the profit of the
      trades that had an owner when they were drained. */
  lemma {:induction false} LedgerBalances(r: Runtime, es: seq<Event>)
    requires Inv(r) && forall e :: e in es ==> Allowed(e) && !e.ChangeIds?
    ensures var s := Run(r, es);
            Inv(s) && s.ids == r.ids && Total(s.paper, s.ids) == Total(r.paper, r.ids) + OwnedInRun(r, es)
    decreases |es|
  {
    if es != [] {
      assert es[0] in es && forall f :: f in es[1..] ==> f in es;
      BalanceStep(r, es[0]);
      LedgerBalances(Step(r, es[0]), es[1..]);
    }
  }

  lemma {:induction false} NothingEarned(ids: seq<string>, all: seq<string>)
    requires forall id :: id in ids ==> id in all
    ensures Total(Opening(all), ids) == 0.0
  {
    if ids != [] {
      assert forall id :: id in ids[1..] ==> id in ids;
      NothingEarned(ids[1..], all);
    }
  }

  /** From the defaults, over every run without a change of the portfolio set: total realized profit is that of the
      trades with an owner, and every account keeps equity - realized at the opening balance. */
  lemma LedgerFromDefaults(es: seq<Event>)
    requires forall e :: e in es ==> Allowed(e) && !e.ChangeIds?
    ensures var s := Run(FRESH, es);
            && Inv(s) && Total(s.paper, s.ids) == OwnedInRun(FRESH, es)
            && forall id :: id in s.paper ==> s.paper[id].equity - s.paper[id].realized == INITIAL_EQUITY_USD
  {
    DefaultsAreSound();
    LedgerBalances(FRESH, es);
    NothingEarned(FRESH.ids, FRESH.ids);
  }

  // ---- one drain ------------------------------------------------------------------------------------------------

  /** The trades of a drain that reach the ledger. */
  function Reaching(drain: seq<FleetTrade>, run: Option<string>): seq<FleetTrade> {
    FilterActiveRun(Cleaned(drain), run)
  }

  /** They are exactly the first trade of each natural key, as far as they belong to the active run. */
  lemma ReachingExact(drain: seq<FleetTrade>, run: Option<string>)
    ensures DistinctKeys(Reaching(drain, run))
    ensures forall t :: t in Reaching(drain, run) <==> t in drain && IsFirst(drain, t) && (run.None? || t.runId == run)
  {
    CleanedExact(drain);
    FilterKeepsDistinct(Cleaned(drain), run);
    forall t ensures t in Cleaned(drain) <==> t in drain && IsFirst(drain, t) {
      CleanedIsFirst(drain, t);
    }
  }

  lemma CleanedIsFirst(drain: seq<FleetTrade>, t: FleetTrade)
    ensures t in Cleaned(drain) <==> t in drain && IsFirst(drain, t)
  {
    CleanedExact(drain);
    if t in Cleaned(drain) {
      ByKeyEmpty(drain, Key(t));
      assert t in ByKey(drain, Key(t));
    }
    if t in drain && IsFirst(drain, t) {
      var r :| r in Cleaned(drain) && Key(r) == Key(t);
      assert IsFirst(drain, r);
    }
  }

  lemma {:induction false} CreditedAreThose(r: Runtime, trades: seq<FleetTrade>, id: string)
    requires DistinctKeys(trades)
    ensures DistinctKeys(CreditedTo(r, trades, id))
    ensures forall t :: t in CreditedTo(r, trades, id) <==> t in trades && CreditTo(r, t) == Some(id)
  {
    if trades != [] {
      var init, t := trades[..|trades| - 1], trades[|trades| - 1];
      CreditedAreThose(r, init, id);
      assert trades == init + [t];
      var before := CreditedTo(r, init, id);
      assert forall k :: 0 <= k < |before| ==> before[k] in before;
      forall u | u in init ensures Key(u) != Key(t) {
        var i :| 0 <= i < |init| && init[i] == u;
        assert trades[i] == u;
      }
    }
  }

  /** A drain as it arrives, in any order and with trades repeated, moves each account by exactly the trades it
      owns, each natural key once, with the values drained first. */
  lemma DrainCreditsEachKeyOnce(r: Runtime, drain: seq<FleetTrade>, run: Option<string>, id: string)
    requires Inv(r) && id in r.paper && r.paper[id].closed + |Reaching(drain, run)| < U64_MAX
    ensures var s, mine := CreditAll(r, Reaching(drain, run)), CreditedTo(r, Reaching(drain, run), id);
            && Inv(s) && id in s.paper && Credited(r.paper[id], mine, s.paper[id])
            && DistinctKeys(mine)
            && forall t :: t in mine <==> t in drain && IsFirst(drain, t) && (run.None? || t.runId == run)
                                          && Earns(r, t, id)
  {
    var trades := Reaching(drain, run);
    forall t ensures Earns(r, t, id) <==> CreditTo(r, t) == Some(id) {
      EarnsExact(r, t, id);
    }
    ReachingExact(drain, run);
    CreditedAreThose(r, trades, id);
    DrainBalances(r, trades);
    AccountsTally(r, trades, id);
  }

  // ---- guards over whole runs -----------------------------------------------------------------------------------

  /** The closed trades of a drain with their symbols. */
  function LogOfDrain(trades: seq<FleetTrade>): seq<(string, Closed)> {
    seq(|trades|, i requires 0 <= i < |trades| => (trades[i].symbol, CloseOf(trades[i])))
  }

  function LogOfEvent(e: Event): seq<(string, Closed)> {
    if e.Drain? then LogOfDrain(e.trades) else []
  }

  /** All trades of a run, in the order they were drained. */
  function LogOf(es: seq<Event>): seq<(string, Closed)>
    decreases |es|
  {
    if es == [] then [] else LogOfEvent(es[0]) + LogOf(es[1..])
  }

  lemma {:induction false} GuardsAppend(guards: Guards, a: seq<(string, Closed)>, b: seq<(string, Closed)>)
    ensures GuardsFrom(guards, a + b) == GuardsFrom(GuardsFrom(guards, a), b)
  {
    if b == [] {
      assert a + b == a;
    } else {
      assert (a + b)[..|a + b| - 1] == a + b[..|b| - 1];
      GuardsAppend(guards, a, b[..|b| - 1]);
    }
  }

  lemma {:induction false} DrainGuards(r: Runtime, trades: seq<FleetTrade>)
    ensures CreditAll(r, trades).guards == GuardsFrom(r.guards, LogOfDrain(trades))
  {
    if trades != [] {
      var init := trades[..|trades| - 1];
      DrainGuards(r, init);
      assert LogOfDrain(trades)[..|trades| - 1] == LogOfDrain(init);
    }
  }

  lemma StepGuards(r: Runtime, e: Event)
    ensures Step(r, e).guards == GuardsFrom(r.guards, LogOfEvent(e))
  {
    if e.Drain? {
      DrainGuards(r, e.trades);
    }
  }

  /** Rebalances and changes of the portfolio set leave the guards alone: after a run they are those of its trades. */
  lemma {:induction false} RunGuards(r: Runtime, es: seq<Event>)
    ensures Run(r, es).guards == GuardsFrom(r.guards, LogOf(es))
    decreases |es|
  {
    if es != [] {
      StepGuards(r, es[0]);
      RunGuards(Step(r, es[0]), es[1..]);
      GuardsAppend(r.guards, LogOfEvent(es[0]), LogOf(es[1..]));
    }
  }

  /** `symbol` is in no list of the assignment. */
  predicate LeftOut(assignment: Assignment, symbol: string) {
    forall id :: id in assignment ==> symbol !in assignment[id].shortlist && symbol !in assignment[id].active
  }

  lemma RebalanceLeavesOut(r: Runtime, candidates: seq<SymbolStats>, now: int, symbol: string)
    requires Inv(r) && DistinctSymbols(candidates) && Due(r, now)
    requires var until := GuardOf(r.guards, symbol).cooldownUntil; until.Some? && now < until.value
    ensures LeftOut(Rebalance(r, candidates, now).assignment, symbol)
  {
    var assignment := Assign(r.ids, Pool(r.guards, candidates, now));
    RebalanceParts(r, candidates, now, assignment);
    CoolingKeepsOut(r.guards, r.ids, candidates, now, symbol);
  }

  /** Trade `k` of the symbol triggered, from `guards` on, and its cooldown is not over at `now`. */
  predicate Cooling(guards: Guards, log: seq<(string, Closed)>, symbol: string, k: nat, now: int) {
    TriggersIn(guards, log, symbol, k) && now < Saturate(HistoryOf(log, symbol)[k].ts + COOLDOWN_MS)
  }

  lemma CooldownAt(t: Runtime, guards: Guards, log: seq<(string, Closed)>, symbol: string, k: nat,
                   candidates: seq<SymbolStats>, now: int)
    requires Inv(t) && t.guards == GuardsFrom(guards, log) && Cooling(guards, log, symbol, k, now)
    requires DistinctSymbols(candidates) && Due(t, now)
    ensures LeftOut(Rebalance(t, candidates, now).assignment, symbol)
  {
    GuardHolds(guards, log, symbol, k);
    RebalanceLeavesOut(t, candidates, now, symbol);
  }

  lemma {:induction false} RunKeeps(r: Runtime, es: seq<Event>)
    requires Inv(r) && forall e :: e in es ==> Allowed(e)
    ensures Inv(Run(r, es))
    decreases |es|
  {
    if es != [] {
      StepKeeps(r, es[0]);
      assert forall e :: e in es[1..] ==> e in es;
      RunKeeps(Step(r, es[0]), es[1..]);
    }
  }

  /** Over every run of drains, rebalances and id changes, from any sound state with whatever guards were restored
      to it: a rebalance that happens before a triggered symbol's cooldown is over leaves the symbol out of every
      shortlist and every active list. */
  lemma {:induction false} CooldownKeepsOutOfRuns(r: Runtime, es: seq<Event>, t: Runtime, symbol: string, k: nat,
                                                  candidates: seq<SymbolStats>, now: int)
    requires Inv(r) && (forall e :: e in es ==> Allowed(e)) && t == Run(r, es)
    requires DistinctSymbols(candidates) && Due(t, now) && Cooling(r.guards, LogOf(es), symbol, k, now)
    ensures LeftOut(Rebalance(t, candidates, now).assignment, symbol)
  {
    RunKeeps(r, es);
    RunGuards(r, es);
    CooldownAt(t, r.guards, LogOf(es), symbol, k, candidates, now);
  }

  // ---- the order within and across drains -----------------------------------------------------------------------

  predicate NonDecreasing(h: seq<Closed>) {
    forall i, j :: 0 <= i < j < |h| ==> h[i].ts <= h[j].ts
  }

  /** The trades of `symbol` come in the order of their exit times. */
  predicate InTime(trades: seq<FleetTrade>, symbol: string) {
    forall i, j :: 0 <= i < j < |trades| && trades[i].symbol == symbol && trades[j].symbol == symbol
                   ==> trades[i].tsMs <= trades[j].tsMs
  }

  /** However a drain arrives, what reaches guards and ledger of it is in order. */
  lemma ReachingInOrder(drain: seq<FleetTrade>, run: Option<string>, symbol: string)
    ensures InOrder(Reaching(drain, run)) && InTime(Reaching(drain, run), symbol)
  {
    CleanedIsInOrder(drain);
    FilterInOrder(Cleaned(drain), run);
    var trades := Reaching(drain, run);
    forall i, j | 0 <= i < j < |trades| && trades[i].symbol == trades[j].symbol
      ensures trades[i].tsMs <= trades[j].tsMs
    {
      SortedIsChronological(trades, i, j);
    }
  }

  lemma {:induction false} HistoryUpTo(trades: seq<FleetTrade>, symbol: string, limit: int)
    requires forall i :: 0 <= i < |trades| && trades[i].symbol == symbol ==> trades[i].tsMs <= limit
    ensures forall c :: c in HistoryOf(LogOfDrain(trades), symbol) ==> c.ts <= limit
  {
    if trades != [] {
      var n := |trades| - 1;
      assert LogOfDrain(trades)[..n] == LogOfDrain(trades[..n]);
      HistoryUpTo(trades[..n], symbol, limit);
    }
  }

  lemma {:induction false} HistoryInTime(trades: seq<FleetTrade>, symbol: string)
    requires InTime(trades, symbol)
    ensures NonDecreasing(HistoryOf(LogOfDrain(trades), symbol))
  {
    if trades != [] {
      var n := |trades| - 1;
      assert LogOfDrain(trades)[..n] == LogOfDrain(trades[..n]);
      HistoryInTime(trades[..n], symbol);
      var before := HistoryOf(LogOfDrain(trades[..n]), symbol);
      if trades[n].symbol == symbol {
        HistoryUpTo(trades[..n], symbol, trades[n].tsMs);
        assert forall k :: 0 <= k < |before| ==> before[k] in before;
      }
    }
  }

  /** The trades of one symbol, in order. */
  function OfSymbol(trades: seq<FleetTrade>, symbol: string): seq<FleetTrade> {
    if trades == [] then []
    else OfSymbol(trades[..|trades| - 1], symbol)
         + if trades[|trades| - 1].symbol == symbol then [trades[|trades| - 1]] else []
  }

  /** What a guard is told of a drain: the profit, the reason and the exit time of each of its symbol's trades. */
  lemma {:induction false} HistoryExact(trades: seq<FleetTrade>, symbol: string)
    ensures var h, mine := HistoryOf(LogOfDrain(trades), symbol), OfSymbol(trades, symbol);
            && |h| == |mine|
            && forall k :: 0 <= k < |h| && k < |mine| ==>
                 h[k].pnlPct == mine[k].pnlPct && h[k].stopLoss == mine[k].stopLoss && h[k].ts == mine[k].tsMs
  {
    if trades != [] {
      var n := |trades| - 1;
      assert LogOfDrain(trades)[..n] == LogOfDrain(trades[..n]);
      HistoryExact(trades[..n], symbol);
    }
  }

  /** The trades of a symbol reach its guard out of one drain in the order of their exit times. */
  lemma DrainIsChronological(drain: seq<FleetTrade>, run: Option<string>, symbol: string)
    ensures NonDecreasing(HistoryOf(LogOfDrain(Reaching(drain, run)), symbol))
  {
    ReachingInOrder(drain, run, symbol);
    HistoryInTime(Reaching(drain, run), symbol);
  }

  /** All trades of a run, in the order they were drained. */
  function Drained(es: seq<Event>): seq<FleetTrade>
    decreases |es|
  {
    if es == [] then [] else (if es[0].Drain? then es[0].trades else []) + Drained(es[1..])
  }

  lemma {:induction false} LogIsDrained(es: seq<Event>)
    ensures LogOf(es) == LogOfDrain(Drained(es))
    decreases |es|
  {
    if es != [] {
      LogIsDrained(es[1..]);
      var first := if es[0].Drain? then es[0].trades else [];
      assert LogOfEvent(es[0]) == LogOfDrain(first);
      assert LogOfDrain(first) + LogOfDrain(Drained(es[1..])) == LogOfDrain(first + Drained(es[1..]));
    }
  }

  /** The drains of the run are as they reach the ledger, and no drain brings a trade of the symbol that left before
      one of an earlier drain. */
  ghost predicate DrainsFollow(es: seq<Event>, symbol: string)
    decreases |es|
  {
    es == []
    || (DrainsFollow(es[1..], symbol)
        && (es[0].Drain? ==> (exists drain, run :: es[0].trades == Reaching(drain, run))
                             && Precede(es[0].trades, Drained(es[1..]), symbol)))
  }

  predicate Precede(first: seq<FleetTrade>, later: seq<FleetTrade>, symbol: string) {
    forall i, j :: 0 <= i < |first| && 0 <= j < |later| && first[i].symbol == symbol && later[j].symbol == symbol
                   ==> first[i].tsMs <= later[j].tsMs
  }

  lemma JoinInTime(first: seq<FleetTrade>, later: seq<FleetTrade>, symbol: string)
    requires InTime(first, symbol) && InTime(later, symbol) && Precede(first, later, symbol)
    ensures InTime(first + later, symbol)
  {
  }

  lemma {:induction false} DrainedInTime(es: seq<Event>, symbol: string)
    requires DrainsFollow(es, symbol)
    ensures InTime(Drained(es), symbol)
    decreases |es|
  {
    if es != [] {
      DrainedInTime(es[1..], symbol);
      if es[0].Drain? {
        var drain, run :| es[0].trades == Reaching(drain, run);
        ReachingInOrder(drain, run, symbol);
        JoinInTime(es[0].trades, Drained(es[1..]), symbol);
      } else {
        assert Drained(es) == Drained(es[1..]);
      }
    }
  }

  /** Over a run whose drains follow one another in time each symbol's history does not go back: within a drain the
      sort sees to it. */
  lemma RunIsChronological(es: seq<Event>, symbol: string)
    requires DrainsFollow(es, symbol)
    ensures NonDecreasing(HistoryOf(LogOf(es), symbol))
  {
    DrainedInTime(es, symbol);
    LogIsDrained(es);
    HistoryInTime(Drained(es), symbol);
  }

  /** Trade `k` of the symbol triggered less than 300,000 ms before `now`. */
  ghost predicate TriggeredLately(guards: Guards, log: seq<(string, Closed)>, symbol: string, k: nat, now: int) {
    var h := HistoryOf(log, symbol);
    && k < |h| && TriggersFrom(GuardOf(guards, symbol), h, k)
    && now < Min(h[k].ts + 300_000, 0x7FFF_FFFF_FFFF_FFFF)
  }

  lemma CoolsFor300Seconds(guards: Guards, log: seq<(string, Closed)>, symbol: string, k: nat, now: int)
    requires NonDecreasing(HistoryOf(log, symbol)) && TriggeredLately(guards, log, symbol, k, now)
    ensures Cooling(guards, log, symbol, k, now)
  {
  }

  /** For drains as they arrive it takes no more than that they follow one another in time: a symbol whose trade
      triggered is left out by every rebalance less than 300,000 ms after it. */
  lemma CooldownKeepsOutOfDrains(r: Runtime, es: seq<Event>, t: Runtime, symbol: string, k: nat,
                                 candidates: seq<SymbolStats>, now: int)
    requires Inv(r) && (forall e :: e in es ==> Allowed(e)) && t == Run(r, es)
    requires DrainsFollow(es, symbol) && DistinctSymbols(candidates) && Due(t, now)
    requires TriggeredLately(r.guards, LogOf(es), symbol, k, now)
    ensures LeftOut(Rebalance(t, candidates, now).assignment, symbol)
  {
    RunIsChronological(es, symbol);
    CoolsFor300Seconds(r.guards, LogOf(es), symbol, k, now);
    CooldownKeepsOutOfRuns(r, es, t, symbol, k, candidates, now);
  }
}
