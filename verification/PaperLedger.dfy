/** The paper-money ledger: one virtual account per portfolio, credited with the closed trades of the
    symbols the portfolio owned. */
module PaperLedger {
  import opened Numbers
  import opened FleetTrades
  import opened GuardMachine
  import opened Ranking
  import opened FirstSeenOrder
  import opened Allocation
  import opened PortfolioEngine

  const INITIAL_EQUITY_USD: real := 10_000.0
  const TRADE_NOTIONAL_USD: real := 100.0
  const REBALANCE_INTERVAL_MS: int := 120_000
  const ASSIGNMENT_HISTORY_CAP: nat := 64

  datatype Account = Account(
    equity: real, realized: real, closed: nat, profitable: nat, losing: nat, lastTradeTs: Option<int>)

  const OPENING: Account := Account(INITIAL_EQUITY_USD, 0.0, 0, 0, 0, None)

  datatype Snapshot = Snapshot(updatedAt: int, assignment: Assignment)

  datatype Runtime = Runtime(
    ids: seq<string>,
    guards: Guards,
    lastRebalance: Option<int>,
    assignment: Assignment,
    history: seq<Snapshot>,
    paper: map<string, Account>)

  function PnlUsd(pnlPct: real): real {
    TRADE_NOTIONAL_USD * (pnlPct / 100.0)
  }

  function Observe(a: Account, pnlPct: real, ts: int): Account {
    Account(
      a.equity + PnlUsd(pnlPct),
      a.realized + PnlUsd(pnlPct),
      Increment(a.closed, U64_MAX),
      if pnlPct > 0.0 then Increment(a.profitable, U64_MAX) else a.profitable,
      if pnlPct < 0.0 then Increment(a.losing, U64_MAX) else a.losing,
      Some(if a.lastTradeTs.Some? && a.lastTradeTs.value > ts then a.lastTradeTs.value else ts))
  }

  function Opening(ids: seq<string>): map<string, Account> {
    map id | id in ids :: OPENING
  }

  // ---- ownership --------------------------------------------------------------------------------------------

  function Owners(a: Assignment, symbol: string): set<string> {
    set id | id in a && symbol in a[id].active
  }

  ghost predicate IsLeast(id: string, ids: set<string>) {
    id in ids && forall other :: other in ids ==> CmpString(id, other) != Greater
  }

  lemma {:induction false} LeastExists(ids: set<string>)
    requires ids != {}
    ensures exists id :: IsLeast(id, ids)
    decreases |ids|
  {
    var x :| x in ids;
    if ids == {x} {
      StringOrder(x, x, x);
      assert IsLeast(x, ids);
    } else {
      var rest := ids - {x};
      LeastExists(rest);
      var y :| IsLeast(y, rest);
      StringOrder(x, y, x);
      StringOrder(y, x, y);
      StringOrder(x, x, x);
      if CmpString(x, y) == Greater {
        assert IsLeast(y, ids);
      } else {
        forall other | other in ids ensures CmpString(x, other) != Greater {
          StringOrder(x, y, other);
        }
        assert IsLeast(x, ids);
      }
    }
  }

  /** The first portfolio, in id order, with the symbol active. */
  ghost function Owner(a: Assignment, symbol: string): Option<string> {
    if Owners(a, symbol) == {} then None
    else
      LeastExists(Owners(a, symbol));
      var id :| IsLeast(id, Owners(a, symbol));
      Some(id)
  }

  lemma LeastIsOwner(a: Assignment, symbol: string, id: string)
    requires IsLeast(id, Owners(a, symbol))
    ensures Owner(a, symbol) == Some(id)
  {
    StringOrder(id, Owner(a, symbol).value, id);
    StringOrder(Owner(a, symbol).value, id, Owner(a, symbol).value);
  }

  /** The owner has the symbol active and the least id, in dictionary order, of all portfolios that have. */
  lemma OwnerExact(a: Assignment, symbol: string)
    ensures Owner(a, symbol).Some? ==>
              var id := Owner(a, symbol).value;
              && id in a && symbol in a[id].active
              && forall other :: other in a && symbol in a[other].active && other != id ==> Precedes(id, other)
    ensures Owner(a, symbol).None? ==> forall id :: id in a ==> symbol !in a[id].active
  {
    if Owner(a, symbol).Some? {
      var id := Owner(a, symbol).value;
      forall other | other in a && symbol in a[other].active && other != id ensures Precedes(id, other) {
        assert other in Owners(a, symbol);
        StringOrder(id, other, id);
        StringOrderExact(id, other);
      }
    } else {
      assert forall id :: id in a && symbol in a[id].active ==> id in Owners(a, symbol);
    }
  }

  /** The owner in the latest snapshot taken by the entry time that has one. */
  ghost function EntryOwner(history: seq<Snapshot>, symbol: string, entryTs: int): Option<string> {
    if history == [] then None
    else
      var last := history[|history| - 1];
      if last.updatedAt <= entryTs && Owner(last.assignment, symbol).Some? then Owner(last.assignment, symbol)
      else EntryOwner(history[..|history| - 1], symbol, entryTs)
  }

  /** The account a trade is credited to, if any: the owner at entry when it has an account, else the
      present owner. */
  ghost function CreditTo(r: Runtime, t: FleetTrade): Option<string> {
    var atEntry := EntryOwner(r.history, t.symbol, t.entryTsMs);
    if atEntry.Some? && atEntry.value in r.paper then atEntry else Owner(r.assignment, t.symbol)
  }

  /** Snapshot `k` was taken by the entry time and names an owner. */
  ghost predicate Names(history: seq<Snapshot>, k: nat, symbol: string, entryTs: int) {
    k < |history| && history[k].updatedAt <= entryTs && Owner(history[k].assignment, symbol).Some?
  }

  ghost predicate NamedLast(history: seq<Snapshot>, k: nat, symbol: string, entryTs: int, owner: Option<string>) {
    && Names(history, k, symbol, entryTs) && Owner(history[k].assignment, symbol) == owner
    && forall j :: k < j < |history| ==> !Names(history, j, symbol, entryTs)
  }

  /** The owner at entry is the one named by the last snapshot that names any, among those taken by then. */
  lemma {:induction false} EntryOwnerExact(history: seq<Snapshot>, symbol: string, entryTs: int)
    ensures var owner := EntryOwner(history, symbol, entryTs);
            if owner.None? then forall k :: 0 <= k < |history| ==> !Names(history, k, symbol, entryTs)
            else exists k :: 0 <= k < |history| && NamedLast(history, k, symbol, entryTs, owner)
  {
    if history != [] {
      var n := |history| - 1;
      var init := history[..n];
      EntryOwnerExact(init, symbol, entryTs);
      assert forall k :: 0 <= k < n ==> Names(init, k, symbol, entryTs) == Names(history, k, symbol, entryTs);
      var owner := EntryOwner(history, symbol, entryTs);
      if Names(history, n, symbol, entryTs) {
        assert NamedLast(history, n, symbol, entryTs, owner);
      } else if owner.Some? {
        var k :| 0 <= k < n && NamedLast(init, k, symbol, entryTs, owner);
        assert NamedLast(history, k, symbol, entryTs, owner);
      }
    }
  }

  // ---- operations as functions ---------------------------------------------------------------------------------

  function EnsureSlots(r: Runtime): Runtime {
    if |r.paper| == |r.ids| && forall id :: id in r.ids ==> id in r.paper then r
    else r.(paper := Opening(r.ids))
  }

  function CloseOf(t: FleetTrade): Closed {
    Closed(t.pnlPct, t.stopLoss, t.tsMs)
  }

  ghost function Credit(r: Runtime, t: FleetTrade): Runtime {
    var to := CreditTo(r, t);
    r.(guards := r.guards[t.symbol := Record(GuardOf(r.guards, t.symbol), CloseOf(t)).guard],
       paper := if to.Some? && to.value in r.paper
                then r.paper[to.value := Observe(r.paper[to.value], t.pnlPct, t.tsMs)] else r.paper)
  }

  ghost function CreditAll(r: Runtime, trades: seq<FleetTrade>): Runtime {
    if trades == [] then r else Credit(CreditAll(r, trades[..|trades| - 1]), trades[|trades| - 1])
  }

  function RecordSnapshot(history: seq<Snapshot>, assignment: Assignment, now: int): seq<Snapshot> {
    if history != [] && history[|history| - 1].updatedAt == now
    then history[|history| - 1 := Snapshot(now, assignment)]
    else
      var longer := history + [Snapshot(now, assignment)];
      if |longer| > ASSIGNMENT_HISTORY_CAP then longer[|longer| - ASSIGNMENT_HISTORY_CAP..] else longer
  }

  function Rebalance(r: Runtime, candidates: seq<SymbolStats>, now: int): Runtime {
    var s := EnsureSlots(r);
    if !Due(r, now) then r
    else
      var assignment := Assign(s.ids, Pool(s.guards, candidates, now));
      s.(assignment := assignment, lastRebalance := Some(now), history := RecordSnapshot(s.history, assignment, now))
  }

  function SetIds(r: Runtime, ids: seq<string>): Runtime {
    r.(ids := ids, assignment := map id | id in ids :: NO_SYMBOLS, paper := Opening(ids), history := [],
       lastRebalance := None)
  }

  const FRESH: Runtime := Runtime(DEFAULT_IDS, map[], None, map[], [], Opening(DEFAULT_IDS))

  // ---- invariant -----------------------------------------------------------------------------------------------

  predicate Sound(a: Account) {
    && a.equity - a.realized == INITIAL_EQUITY_USD
    && a.closed <= U64_MAX && a.profitable <= U64_MAX && a.losing <= U64_MAX
    && (a.closed < U64_MAX ==> a.profitable + a.losing <= a.closed)
  }

  ghost predicate Inv(r: Runtime) {
    && r.ids != [] && AllDistinct(r.ids)
    && r.paper.Keys == (set id | id in r.ids)
    && r.assignment.Keys <= r.paper.Keys
    && (forall k :: 0 <= k < |r.history| ==> r.history[k].assignment.Keys <= r.paper.Keys)
    && |r.history| <= ASSIGNMENT_HISTORY_CAP
    && (forall id :: id in r.paper ==> Sound(r.paper[id]))
  }

  lemma {:induction false} DistinctCount(ids: seq<string>)
    requires AllDistinct(ids)
    ensures |set id | id in ids| == |ids|
  {
    if ids != [] {
      var rest := ids[1..];
      DistinctCount(rest);
      assert (set id | id in ids) == {ids[0]} + (set id | id in rest);
      assert forall k :: 0 <= k < |rest| ==> rest[k] == ids[k + 1];
    }
  }

  /** Repairing the account slots never changes anything. */
  lemma SlotRepairIsNoOp(r: Runtime)
    requires Inv(r)
    ensures EnsureSlots(r) == r
  {
    DistinctCount(r.ids);
    assert |r.paper| == |r.paper.Keys|;
  }

  lemma {:induction false} EntryOwnerIn(history: seq<Snapshot>, symbol: string, entryTs: int, ids: set<string>)
    requires forall k :: 0 <= k < |history| ==> history[k].assignment.Keys <= ids
    ensures EntryOwner(history, symbol, entryTs).Some? ==> EntryOwner(history, symbol, entryTs).value in ids
  {
    if history != [] {
      EntryOwnerIn(history[..|history| - 1], symbol, entryTs, ids);
    }
  }

  /** Every owner has an account, so the lookup that panics on a missing one cannot fail. */
  lemma OwnersHaveAccounts(r: Runtime, t: FleetTrade)
    requires Inv(r)
    ensures CreditTo(r, t).Some? ==> CreditTo(r, t).value in r.paper
    ensures CreditTo(r, t).Some? <==>
              EntryOwner(r.history, t.symbol, t.entryTsMs).Some? || Owner(r.assignment, t.symbol).Some?
  {
    EntryOwnerIn(r.history, t.symbol, t.entryTsMs, r.paper.Keys);
  }

  /** Account `id` earns the trade: it is that of the owner named by the last snapshot that names one, among those
      taken by the entry time; or, if none of them names an owner, that of the present owner. */
  ghost predicate Earns(r: Runtime, t: FleetTrade, id: string) {
    || (exists k: nat :: NamedLast(r.history, k, t.symbol, t.entryTsMs, Some(id)))
    || ((forall k: nat :: !Names(r.history, k, t.symbol, t.entryTsMs)) && Owner(r.assignment, t.symbol) == Some(id))
  }

  lemma EarnsExact(r: Runtime, t: FleetTrade, id: string)
    requires Inv(r)
    ensures Earns(r, t, id) <==> CreditTo(r, t) == Some(id)
  {
    OwnersHaveAccounts(r, t);
    EntryOwnerExact(r.history, t.symbol, t.entryTsMs);
    EntryOwnerIn(r.history, t.symbol, t.entryTsMs, r.paper.Keys);
    var owner := EntryOwner(r.history, t.symbol, t.entryTsMs);
    if owner.Some? {
      var k: nat :| k < |r.history| && NamedLast(r.history, k, t.symbol, t.entryTsMs, owner);
      forall j: nat, other | NamedLast(r.history, j, t.symbol, t.entryTsMs, other) ensures other == owner {
        OneNamesLast(r.history, j, k, t.symbol, t.entryTsMs, other, owner);
      }
    }
  }

  lemma OneNamesLast(history: seq<Snapshot>, j: nat, k: nat, symbol: string, entryTs: int, a: Option<string>,
                     b: Option<string>)
    requires NamedLast(history, j, symbol, entryTs, a) && NamedLast(history, k, symbol, entryTs, b)
    ensures a == b
  {
    assert j < k ==> !Names(history, k, symbol, entryTs);
    assert k < j ==> !Names(history, j, symbol, entryTs);
  }

  /** What one trade makes of an account: a dollar per percent of profit, one closed trade more, a win or a loss by
      the sign, and the later of the two times. */
  ghost predicate Earned(a: Account, t: FleetTrade, b: Account) {
    && b.equity == a.equity + t.pnlPct && b.realized == a.realized + t.pnlPct
    && b.closed == Min(a.closed + 1, 0xFFFF_FFFF_FFFF_FFFF)
    && b.profitable == (if t.pnlPct > 0.0 then Min(a.profitable + 1, 0xFFFF_FFFF_FFFF_FFFF) else a.profitable)
    && b.losing == (if t.pnlPct < 0.0 then Min(a.losing + 1, 0xFFFF_FFFF_FFFF_FFFF) else a.losing)
    && b.lastTradeTs.Some? && b.lastTradeTs.value >= t.tsMs
    && (b.lastTradeTs == Some(t.tsMs) || b.lastTradeTs == a.lastTradeTs)
    && (a.lastTradeTs.Some? ==> b.lastTradeTs.value >= a.lastTradeTs.value)
  }

  /** A trade moves the account that earns it, by what the trade earned, and no other. */
  lemma CreditExact(r: Runtime, t: FleetTrade, id: string)
    requires Inv(r) && id in r.paper
    ensures id in Credit(r, t).paper
    ensures Earns(r, t, id) ==> Earned(r.paper[id], t, Credit(r, t).paper[id])
    ensures !Earns(r, t, id) ==> Credit(r, t).paper[id] == r.paper[id]
  {
    EarnsExact(r, t, id);
    assert Sound(r.paper[id]);
  }

  lemma CreditKeeps(r: Runtime, t: FleetTrade)
    requires Inv(r)
    ensures Inv(Credit(r, t))
    ensures Credit(r, t) == r.(guards := Credit(r, t).guards, paper := Credit(r, t).paper)
    ensures forall u :: CreditTo(Credit(r, t), u) == CreditTo(r, u)
  {
    OwnersHaveAccounts(r, t);
    assert Credit(r, t).paper.Keys == r.paper.Keys;
  }

  lemma RecordedHistory(history: seq<Snapshot>, assignment: Assignment, now: int, ids: set<string>)
    requires forall k :: 0 <= k < |history| ==> history[k].assignment.Keys <= ids
    requires |history| <= ASSIGNMENT_HISTORY_CAP && assignment.Keys <= ids
    ensures var h := RecordSnapshot(history, assignment, now);
            |h| <= ASSIGNMENT_HISTORY_CAP && forall k :: 0 <= k < |h| ==> h[k].assignment.Keys <= ids
  {
  }

  predicate Due(r: Runtime, now: int) {
    r.lastRebalance.Some? ==> Saturate(now - r.lastRebalance.value) >= REBALANCE_INTERVAL_MS
  }

  /** What a rebalance changes, given the assignment it computes. */
  lemma RebalanceParts(r: Runtime, candidates: seq<SymbolStats>, now: int, assignment: Assignment)
    requires Inv(r) && assignment == Assign(r.ids, Pool(r.guards, candidates, now))
    ensures Rebalance(r, candidates, now) ==
            if !Due(r, now) then r
            else r.(assignment := assignment, lastRebalance := Some(now),
                    history := RecordSnapshot(r.history, assignment, now))
  {
    SlotRepairIsNoOp(r);
  }

  lemma RebalanceKeeps(r: Runtime, candidates: seq<SymbolStats>, now: int)
    requires Inv(r)
    ensures Inv(Rebalance(r, candidates, now)) && Rebalance(r, candidates, now).paper == r.paper
  {
    var assignment := Assign(r.ids, Pool(r.guards, candidates, now));
    RebalanceParts(r, candidates, now, assignment);
    assert assignment.Keys == r.paper.Keys;
    RecordedHistory(r.history, assignment, now, r.paper.Keys);
  }

  lemma RecordedLast(history: seq<Snapshot>, assignment: Assignment, now: int)
    ensures var h := RecordSnapshot(history, assignment, now); h != [] && h[|h| - 1] == Snapshot(now, assignment)
  {
  }

  /** The newest 64 snapshots are kept, in the order they were taken; one of the same time gives way to the new one. */
  lemma RecordedExact(history: seq<Snapshot>, assignment: Assignment, now: int)
    requires |history| <= 64
    ensures var n, h := |history|, RecordSnapshot(history, assignment, now);
            var older := if n > 0 && history[n - 1].updatedAt == now then n - 1 else n;
            && |h| == Min(older + 1, 64) && h[|h| - 1] == Snapshot(now, assignment)
            && h[..|h| - 1] == history[older - |h| + 1..older]
  {
  }

  lemma PresentOwnerIsEntryOwner(r: Runtime, now: int, t: FleetTrade)
    requires Inv(r) && r.history != [] && r.history[|r.history| - 1] == Snapshot(now, r.assignment)
    requires t.entryTsMs >= now && Owner(r.assignment, t.symbol).Some?
    ensures CreditTo(r, t) == Owner(r.assignment, t.symbol)
  {
    OwnersHaveAccounts(r, t);
  }

  /** After a rebalance, a trade entered from then on is credited to the owner the new assignment names. */
  lemma CreditFollowsRebalance(r: Runtime, s: Runtime, candidates: seq<SymbolStats>, now: int, t: FleetTrade)
    requires Inv(r) && Due(r, now) && s == Rebalance(r, candidates, now)
    requires t.entryTsMs >= now && Owner(s.assignment, t.symbol).Some?
    ensures CreditTo(s, t) == Owner(s.assignment, t.symbol)
  {
    RebalanceKeeps(r, candidates, now);
    LastSnapshotIsPresent(r, candidates, now);
    PresentOwnerIsEntryOwner(s, now, t);
  }

  lemma LastSnapshotIsPresent(r: Runtime, candidates: seq<SymbolStats>, now: int)
    requires Inv(r) && Due(r, now)
    ensures var s := Rebalance(r, candidates, now);
            s.history != [] && s.history[|s.history| - 1] == Snapshot(now, s.assignment)
  {
    var assignment := Assign(r.ids, Pool(r.guards, candidates, now));
    RebalanceParts(r, candidates, now, assignment);
    RecordedLast(r.history, assignment, now);
  }

  /** A rebalance happens at once if there was none before, and else two minutes after the last one; before that
      nothing changes at all. */
  lemma RebalanceWaits(r: Runtime, candidates: seq<SymbolStats>, now: int)
    requires Inv(r)
    ensures var waits := r.lastRebalance.Some? && now - r.lastRebalance.value < 120_000;
            var s := Rebalance(r, candidates, now);
            if waits then s == r
            else s.lastRebalance == Some(now)
                 && s.history != [] && s.history[|s.history| - 1] == Snapshot(now, s.assignment)
                 && s.paper == r.paper && s.guards == r.guards && s.ids == r.ids
  {
    if Due(r, now) {
      LastSnapshotIsPresent(r, candidates, now);
    }
    SlotRepairIsNoOp(r);
  }

  /** A change of the portfolio set opens one account per id with 10,000 dollars and nothing traded, and forgets the
      assignments; the guards stay. */
  lemma SetIdsExact(r: Runtime, ids: seq<string>, id: string)
    requires id in ids
    ensures var s := SetIds(r, ids);
            && s.ids == ids && s.history == [] && s.lastRebalance.None? && s.guards == r.guards
            && id in s.paper && s.paper[id] == Account(10_000.0, 0.0, 0, 0, 0, None)
            && id in s.assignment && s.assignment[id].active == [] && s.assignment[id].shortlist == []
  {
  }

  lemma SetIdsKeeps(r: Runtime, ids: seq<string>)
    requires ids != [] && AllDistinct(ids)
    ensures Inv(SetIds(r, ids))
  {
  }

  // ---- totals ---------------------------------------------------------------------------------------------------

  /** Realized profit over all accounts. */
  function Total(paper: map<string, Account>, ids: seq<string>): real
    requires forall id :: id in ids ==> id in paper
  {
    if ids == [] then 0.0 else paper[ids[0]].realized + Total(paper, ids[1..])
  }

  lemma {:induction false} TotalCredit(paper: map<string, Account>, ids: seq<string>, id: string, a: Account)
    requires AllDistinct(ids) && forall i :: i in ids ==> i in paper
    ensures id !in ids ==> Total(paper[id := a], ids) == Total(paper, ids)
    ensures id in ids ==> Total(paper[id := a], ids) == Total(paper, ids) + a.realized - paper[id].realized
  {
    if ids != [] {
      assert forall k :: 0 < k < |ids| ==> ids[k] == ids[1..][k - 1];
      TotalCredit(paper, ids[1..], id, a);
      if id == ids[0] {
        assert id !in ids[1..];
      }
    }
  }

  /** Profit of the trades with an owner. */
  ghost function Owned(r: Runtime, trades: seq<FleetTrade>): real {
    if trades == [] then 0.0
    else
      var t := trades[|trades| - 1];
      Owned(r, trades[..|trades| - 1]) + (if CreditTo(r, t).Some? then PnlUsd(t.pnlPct) else 0.0)
  }

  /** A drain moves the total by exactly the profit of the trades that have an owner, each credited once. */
  lemma {:induction false} DrainBalances(r: Runtime, trades: seq<FleetTrade>)
    requires Inv(r)
    ensures var s := CreditAll(r, trades);
            && Inv(s) && s.ids == r.ids
            && (forall u :: CreditTo(s, u) == CreditTo(r, u))
            && Total(s.paper, s.ids) == Total(r.paper, r.ids) + Owned(r, trades)
  {
    if trades != [] {
      var init, t := trades[..|trades| - 1], trades[|trades| - 1];
      DrainBalances(r, init);
      var before := CreditAll(r, init);
      CreditKeeps(before, t);
      OwnersHaveAccounts(before, t);
      var to := CreditTo(before, t);
      if to.Some? {
        TotalCredit(before.paper, before.ids, to.value, Observe(before.paper[to.value], t.pnlPct, t.tsMs));
      }
    }
  }

  // ---- what an account has seen ---------------------------------------------------------------------------------

  /** The trades of a drain that are credited to `id`. */
  ghost function CreditedTo(r: Runtime, trades: seq<FleetTrade>, id: string): seq<FleetTrade> {
    if trades == [] then []
    else
      var before, t := CreditedTo(r, trades[..|trades| - 1], id), trades[|trades| - 1];
      if CreditTo(r, t) == Some(id) then before + [t] else before
  }

  function Wins(trades: seq<FleetTrade>): nat {
    if trades == [] then 0 else Wins(trades[..|trades| - 1]) + if trades[|trades| - 1].pnlPct > 0.0 then 1 else 0
  }

  function Losses(trades: seq<FleetTrade>): nat {
    if trades == [] then 0 else Losses(trades[..|trades| - 1]) + if trades[|trades| - 1].pnlPct < 0.0 then 1 else 0
  }

  function Profit(trades: seq<FleetTrade>): real {
    if trades == [] then 0.0 else Profit(trades[..|trades| - 1]) + PnlUsd(trades[|trades| - 1].pnlPct)
  }

  ghost predicate LastTrade(before: Option<int>, trades: seq<FleetTrade>, now: Option<int>) {
    && (now.None? <==> before.None? && trades == [])
    && (now.Some? ==> (before.Some? && now == before) || exists t :: t in trades && t.tsMs == now.value)
    && (now.Some? && before.Some? ==> before.value <= now.value)
    && (now.Some? ==> forall t :: t in trades ==> t.tsMs <= now.value)
  }

  /** What crediting `trades` makes of account `a`. */
  ghost predicate Credited(a: Account, trades: seq<FleetTrade>, b: Account) {
    && b.closed == a.closed + |trades|
    && b.profitable == a.profitable + Wins(trades)
    && b.losing == a.losing + Losses(trades)
    && b.realized == a.realized + Profit(trades)
    && b.equity == a.equity + Profit(trades)
    && LastTrade(a.lastTradeTs, trades, b.lastTradeTs)
  }

  lemma CreditedOne(a: Account, trades: seq<FleetTrade>, b: Account, t: FleetTrade)
    requires Credited(a, trades, b) && a.closed + |trades| < U64_MAX
    requires b.profitable < U64_MAX && b.losing < U64_MAX
    ensures Credited(a, trades + [t], Observe(b, t.pnlPct, t.tsMs))
  {
    var more := trades + [t];
    assert more[..|more| - 1] == trades && more[|more| - 1] == t;
    assert t in more && forall u :: u in more ==> u in trades || u == t;
    assert forall u :: u in trades ==> u in more;
  }

  lemma {:induction false} CreditedShort(r: Runtime, trades: seq<FleetTrade>, id: string)
    ensures |CreditedTo(r, trades, id)| <= |trades|
  {
    if trades != [] {
      CreditedShort(r, trades[..|trades| - 1], id);
    }
  }

  /** A drain moves each account by exactly the trades credited to it: how many, how many won and lost, their
      profit, and the latest of their times. */
  lemma {:induction false} AccountsTally(r: Runtime, trades: seq<FleetTrade>, id: string)
    requires Inv(r) && id in r.paper && r.paper[id].closed + |trades| < U64_MAX
    requires r.paper[id].closed < U64_MAX
    ensures id in CreditAll(r, trades).paper
    ensures Credited(r.paper[id], CreditedTo(r, trades, id), CreditAll(r, trades).paper[id])
  {
    if trades != [] {
      var init, t := trades[..|trades| - 1], trades[|trades| - 1];
      AccountsTally(r, init, id);
      DrainBalances(r, init);
      var before := CreditAll(r, init);
      OwnersHaveAccounts(before, t);
      CreditedShort(r, init, id);
      assert Sound(before.paper[id]);
      if CreditTo(r, t) == Some(id) {
        CreditedOne(r.paper[id], CreditedTo(r, init, id), before.paper[id], t);
      }
    }
  }
}
