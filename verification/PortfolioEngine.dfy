/** The portfolio engine: guards per symbol, and the assignment of ranked, eligible, cooled-down symbols to
    portfolios. */
module PortfolioEngine {
  import opened Numbers
  import opened FleetTrades
  import opened GuardMachine
  import opened Ranking
  import opened FirstSeenOrder
  import opened Allocation

  datatype PortfolioState = PortfolioState(shortlist: seq<string>, active: seq<string>)

  const NO_SYMBOLS: PortfolioState := PortfolioState([], [])

  type Guards = map<string, Guard>
  type Assignment = map<string, PortfolioState>

  function GuardOf(guards: Guards, symbol: string): Guard {
    if symbol in guards then guards[symbol] else NO_GUARD
  }

  predicate CanReenter(guards: Guards, stats: SymbolStats, now: int) {
    var until := GuardOf(guards, stats.symbol).cooldownUntil;
    !(until.Some? && now < until.value) && Eligible(stats)
  }

  /** The symbols that may be dealt, best first. */
  function PoolOf(guards: Guards, ranked: seq<SymbolStats>, now: int): seq<string> {
    if ranked == [] then []
    else (if CanReenter(guards, ranked[0], now) then [ranked[0].symbol] else []) + PoolOf(guards, ranked[1..], now)
  }

  function Pool(guards: Guards, candidates: seq<SymbolStats>, now: int): seq<string> {
    PoolOf(guards, RankCandidates(candidates), now)
  }

  function IndexOf(ids: seq<string>, id: string): nat
    requires id in ids
    ensures IndexOf(ids, id) < |ids| && ids[IndexOf(ids, id)] == id
  {
    if ids[0] == id then 0 else 1 + IndexOf(ids[1..], id)
  }

  /** The closed form of the assignment. */
  function Assign(ids: seq<string>, pool: seq<string>): Assignment {
    map id | id in ids ::
      var shortlist := Shortlist(pool, |ids|, IndexOf(ids, id));
      PortfolioState(shortlist, Active(shortlist))
  }

  lemma {:induction false} PoolExact(guards: Guards, ranked: seq<SymbolStats>, now: int)
    requires DistinctSymbols(ranked)
    ensures AllDistinct(PoolOf(guards, ranked, now))
    ensures forall s :: s in PoolOf(guards, ranked, now) <==>
                          exists k :: 0 <= k < |ranked| && ranked[k].symbol == s && CanReenter(guards, ranked[k], now)
  {
    if ranked != [] {
      var rest := ranked[1..];
      PoolExact(guards, rest, now);
      forall s ensures s in PoolOf(guards, ranked, now) <==>
                         exists k :: 0 <= k < |ranked| && ranked[k].symbol == s && CanReenter(guards, ranked[k], now)
      {
        if s in PoolOf(guards, rest, now) {
          var k :| 0 <= k < |rest| && rest[k].symbol == s && CanReenter(guards, rest[k], now);
          assert ranked[k + 1] == rest[k];
        }
        if k :| 0 < k < |ranked| && ranked[k].symbol == s && CanReenter(guards, ranked[k], now) {
          assert rest[k - 1] == ranked[k];
        }
      }
      assert forall k :: 0 <= k < |rest| ==> rest[k] == ranked[k + 1];
      assert ranked[0].symbol !in PoolOf(guards, rest, now);
    }
  }

  class Engine {
    var guards: Guards
    var portfolioIds: seq<string>

    constructor ()
      ensures guards == map[] && portfolioIds == DEFAULT_IDS
    {
      guards, portfolioIds := map[], DEFAULT_IDS;
    }

    method SetPortfolioIds(raw: seq<string>)
      modifies this`portfolioIds
      ensures portfolioIds != [] && AllDistinct(portfolioIds)
      ensures portfolioIds == if Named(raw) == [] then DEFAULT_IDS else FirstSeen(Named(raw))
    {
      portfolioIds := NormalizePortfolioIds(raw);
    }

    method RecordClosedTrade(symbol: string, t: Closed) returns (triggered: bool)
      modifies this`guards
      ensures guards == old(guards)[symbol := Record(GuardOf(old(guards), symbol), t).guard]
      ensures triggered == Record(GuardOf(old(guards), symbol), t).triggered
    {
      var guard := GuardOf(guards, symbol);
      triggered := false;
      if t.pnlPct > 0.0 {
        guard := guard.(streakCount := 0, firstStreakTs := None);
      } else if t.stopLoss {
        if guard.streakCount == 0 {
          guard := guard.(firstStreakTs := Some(t.ts));
        }
        guard := guard.(streakCount := guard.streakCount + 1);
        var first := if guard.firstStreakTs.Some? then guard.firstStreakTs.value else t.ts;
        var fast := guard.streakCount >= 5 && Saturate(t.ts - first) <= FAST_STREAK_WINDOW_MS;
        if fast || guard.streakCount >= 6 {
          guard := Guard(0, None, Some(Saturate(t.ts + COOLDOWN_MS)));
          triggered := true;
        }
      }
      guards := guards[symbol := guard];
    }

    /** The rows take the place of all guards; of rows with one symbol the last counts. */
    method ReplaceGuardStates(rows: seq<(string, Guard)>)
      modifies this`guards
      ensures guards == GuardsOfRows(rows)
    {
      guards := map[];
      for n := 0 to |rows|
        invariant guards == GuardsOfRows(rows[..n])
      {
        assert rows[..n + 1][..n] == rows[..n];
        guards := guards[rows[n].0 := rows[n].1];
      }
      assert rows[..|rows|] == rows;
    }

    /** One row per guard, in the order of the symbols. */
    method GuardStates() returns (rows: seq<(string, Guard)>)
      ensures ListsGuards(rows, guards) && InSymbolOrder(rows)
    {
      rows := [];
      var todo := guards.Keys;
      while todo != {}
        invariant todo <= guards.Keys
        invariant ListsGuards(rows, map s | s in guards && s !in todo :: guards[s]) && InSymbolOrder(rows)
        decreases |todo|
      {
        var symbol :| symbol in todo;
        ghost var listed := map s | s in guards && s !in todo :: guards[s];
        InsertRowExact((symbol, guards[symbol]), rows, listed);
        rows := InsertRow((symbol, guards[symbol]), rows);
        todo := todo - {symbol};
        assert (map s | s in guards && s !in todo :: guards[s]) == listed[symbol := guards[symbol]];
      }
      assert (map s | s in guards && s !in todo :: guards[s]) == guards;
    }

    /** The two dealing loops compute the closed form. */
    method AssignWithoutOverlap(candidates: seq<SymbolStats>, now: int) returns (states: Assignment)
      requires AllDistinct(portfolioIds) && DistinctSymbols(candidates)
      ensures states == Assign(portfolioIds, Pool(guards, candidates, now))
    {
      var pool := Pool(guards, candidates, now);
      RankExact(candidates);
      BagKeepsDistinct(candidates, RankCandidates(candidates));
      PoolExact(guards, RankCandidates(candidates), now);
      var shortlists := BuildShortlistsNoOverlap(portfolioIds, pool);
      DealtWithoutOverlap(portfolioIds, shortlists, pool);
      var active := AssignActiveSymbolsNoOverlap(portfolioIds, shortlists);
      StatesAreAssigned(portfolioIds, pool, shortlists, active);
      states := map id | id in portfolioIds :: PortfolioState(shortlists[id], active[id]);
    }
  }

  lemma StatesAreAssigned(ids: seq<string>, pool: seq<string>, shortlists: map<string, seq<string>>,
                          active: map<string, seq<string>>)
    requires DealtTo(ids, shortlists, pool) && active.Keys == (set id | id in ids)
    requires forall i :: 0 <= i < |ids| ==> active[ids[i]] == Active(shortlists[ids[i]])
    ensures (map id | id in ids :: PortfolioState(shortlists[id], active[id])) == Assign(ids, pool)
  {
    forall id | id in ids ensures PortfolioState(shortlists[id], active[id]) == Assign(ids, pool)[id] {
      var i := IndexOf(ids, id);
      assert shortlists[ids[i]] == Shortlist(pool, |ids|, i);
    }
  }

  // ---- what the assignment promises -----------------------------------------------------------------------

  /** The assignment does not depend on the order of the candidates. */
  lemma AssignIgnoresOrder(guards: Guards, ids: seq<string>, c: seq<SymbolStats>, d: seq<SymbolStats>, now: int)
    requires multiset(c) == multiset(d) && DistinctSymbols(c)
    ensures Assign(ids, Pool(guards, c, now)) == Assign(ids, Pool(guards, d, now))
  {
    RankIgnoresOrder(c, d);
  }

  lemma PooledIsCandidate(guards: Guards, candidates: seq<SymbolStats>, now: int, symbol: string)
    requires DistinctSymbols(candidates) && symbol in Pool(guards, candidates, now)
    ensures exists s :: s in candidates && s.symbol == symbol && CanReenter(guards, s, now)
    ensures AllDistinct(Pool(guards, candidates, now))
  {
    var ranked := RankCandidates(candidates);
    RankExact(candidates);
    BagKeepsDistinct(candidates, ranked);
    PoolExact(guards, ranked, now);
    var k :| 0 <= k < |ranked| && ranked[k].symbol == symbol && CanReenter(guards, ranked[k], now);
    assert ranked[k] in multiset(ranked);
    assert ranked[k] in candidates;
  }

  /** The pool keeps the ranked order. */
  lemma {:induction false} PoolInOrder(guards: Guards, ranked: seq<SymbolStats>, now: int, a: nat, b: nat)
    returns (i: nat, j: nat)
    requires a <= b < |PoolOf(guards, ranked, now)|
    ensures i <= j < |ranked| && (a < b ==> i < j)
    ensures ranked[i].symbol == PoolOf(guards, ranked, now)[a] && ranked[j].symbol == PoolOf(guards, ranked, now)[b]
  {
    var first := if CanReenter(guards, ranked[0], now) then 1 else 0;
    if a >= first {
      i, j := PoolInOrder(guards, ranked[1..], now, a - first, b - first);
      i, j := i + 1, j + 1;
    } else if b > a {
      i, j := PoolInOrder(guards, ranked[1..], now, b - 1, b - 1);
      i, j := 0, j + 1;
    } else {
      i, j := 0, 0;
    }
  }

  /** Of two candidates in the pool, the one that is dealt first may lead the other. */
  lemma PoolBestFirst(guards: Guards, candidates: seq<SymbolStats>, now: int, a: nat, b: nat)
    returns (x: SymbolStats, y: SymbolStats)
    requires a < b < |Pool(guards, candidates, now)|
    ensures x in candidates && x.symbol == Pool(guards, candidates, now)[a]
    ensures y in candidates && y.symbol == Pool(guards, candidates, now)[b]
    ensures MayLead(x, y)
  {
    var ranked := RankCandidates(candidates);
    var i, j := PoolInOrder(guards, ranked, now, a, b);
    x, y := ranked[i], ranked[j];
    RankExact(candidates);
    assert x in multiset(ranked) && y in multiset(ranked);
    BestFirst(candidates, i, j);
  }

  /** A symbol's guard lets it in: it has none, or none with a cooldown, or the cooldown is over. */
  predicate OutOfCooldown(guards: Guards, symbol: string, now: int) {
    symbol in guards && guards[symbol].cooldownUntil.Some? ==> guards[symbol].cooldownUntil.value <= now
  }

  /** In the pool is exactly who may be: at least six minutes old with at least six closed trades, three winners in
      ten, no mean loss, and not in cooldown. */
  lemma PoolMembers(guards: Guards, candidates: seq<SymbolStats>, now: int, s: SymbolStats)
    requires DistinctSymbols(candidates) && s in candidates
    ensures s.symbol in Pool(guards, candidates, now) <==>
            && s.ageMinutes >= 6 && s.closedTrades >= 6 && 10 * s.profitableTrades >= 3 * s.closedTrades
            && s.avgPnlPct >= 0.0 && OutOfCooldown(guards, s.symbol, now)
  {
    var ranked := RankCandidates(candidates);
    RankExact(candidates);
    BagKeepsDistinct(candidates, ranked);
    PoolExact(guards, ranked, now);
    EligibleExact(s);
    assert s in multiset(ranked);
    var k :| 0 <= k < |ranked| && ranked[k] == s;
  }

  /** Shortlist entries are dealt best first: round by round, and within a round in the order of the portfolios. */
  lemma DealtBestFirst(guards: Guards, ids: seq<string>, candidates: seq<SymbolStats>, now: int,
                       i: nat, r: nat, j: nat, q: nat) returns (x: SymbolStats, y: SymbolStats)
    requires AllDistinct(ids) && i < |ids| && j < |ids| && (r < q || (r == q && i < j))
    requires var states := Assign(ids, Pool(guards, candidates, now));
             r < |states[ids[i]].shortlist| && q < |states[ids[j]].shortlist|
    ensures var states := Assign(ids, Pool(guards, candidates, now));
            && x in candidates && x.symbol == states[ids[i]].shortlist[r]
            && y in candidates && y.symbol == states[ids[j]].shortlist[q]
            && MayLead(x, y)
  {
    var pool, n := Pool(guards, candidates, now), |ids|;
    PlaceInIds(ids, i);
    PlaceInIds(ids, j);
    ShortlistClosedForm(pool, n, i, r);
    ShortlistClosedForm(pool, n, j, q);
    Rows(n, r, q);
    x, y := PoolBestFirst(guards, candidates, now, r * n + i, q * n + j);
  }

  lemma PlaceInIds(ids: seq<string>, i: nat)
    requires AllDistinct(ids) && i < |ids|
    ensures IndexOf(ids, ids[i]) == i
  {
    assert ids[IndexOf(ids, ids[i])] == ids[i];
  }

  lemma ListedIsPooled(pool: seq<string>, p: nat, i: nat, symbol: string) returns (a: nat)
    requires i < p && symbol in Shortlist(pool, p, i)
    ensures a < |Shortlist(pool, p, i)| && Shortlist(pool, p, i)[a] == symbol && symbol in pool
  {
    ColumnExact(pool, p, i, SHORTLIST_SIZE);
    a :| a < |Shortlist(pool, p, i)| && Shortlist(pool, p, i)[a] == symbol;
  }

  /** No symbol is listed by two portfolios, and what is listed is eligible and out of cooldown. */
  lemma {:induction false} AssignExact(guards: Guards, ids: seq<string>, candidates: seq<SymbolStats>, now: int,
                                       id: string, symbol: string)
    requires AllDistinct(ids) && DistinctSymbols(candidates) && id in ids
    requires var state := Assign(ids, Pool(guards, candidates, now))[id]; symbol in state.shortlist
    ensures exists s :: s in candidates && s.symbol == symbol && CanReenter(guards, s, now)
    ensures forall other :: other in ids && other != id ==>
                              symbol !in Assign(ids, Pool(guards, candidates, now))[other].shortlist
  {
    var pool := Pool(guards, candidates, now);
    var i := IndexOf(ids, id);
    var a := ListedIsPooled(pool, |ids|, i, symbol);
    PooledIsCandidate(guards, candidates, now, symbol);
    forall other | other in ids && other != id ensures symbol !in Assign(ids, pool)[other].shortlist {
      NotShared(pool, ids, i, a, IndexOf(ids, other));
    }
  }

  lemma NotShared(pool: seq<string>, ids: seq<string>, i: nat, a: nat, j: nat)
    requires AllDistinct(pool) && i < |ids| && j < |ids| && i != j && a < |Shortlist(pool, |ids|, i)|
    ensures Shortlist(pool, |ids|, i)[a] !in Shortlist(pool, |ids|, j)
  {
    forall b | 0 <= b < |Shortlist(pool, |ids|, j)|
      ensures Shortlist(pool, |ids|, j)[b] != Shortlist(pool, |ids|, i)[a]
    {
      CellsDiffer(pool, |ids|, i, a, j, b);
    }
  }

  // ---- guards over the history of all symbols ---------------------------------------------------------------

  /** A trade log: every closed trade with its symbol. */
  function HistoryOf(log: seq<(string, Closed)>, symbol: string): seq<Closed> {
    if log == [] then []
    else HistoryOf(log[..|log| - 1], symbol) + (if log[|log| - 1].0 == symbol then [log[|log| - 1].1] else [])
  }

  function GuardsFrom(guards: Guards, log: seq<(string, Closed)>): Guards {
    if log == [] then guards
    else
      var before, last := GuardsFrom(guards, log[..|log| - 1]), log[|log| - 1];
      before[last.0 := Record(GuardOf(before, last.0), last.1).guard]
  }

  /** Each symbol's guard is the fold over that symbol's own trades, from whatever its guard was. */
  lemma {:induction false} GuardsAreIndependent(guards: Guards, log: seq<(string, Closed)>, symbol: string)
    ensures GuardOf(GuardsFrom(guards, log), symbol) == GuardFrom(GuardOf(guards, symbol), HistoryOf(log, symbol))
  {
    if log != [] {
      var init := log[..|log| - 1];
      GuardsAreIndependent(guards, init, symbol);
      if log[|log| - 1].0 == symbol {
        var h := HistoryOf(log, symbol);
        assert h[..|h| - 1] == HistoryOf(init, symbol);
      } else {
        assert HistoryOf(log, symbol) == HistoryOf(init, symbol);
      }
    }
  }

  lemma CoolingKeepsOut(guards: Guards, ids: seq<string>, candidates: seq<SymbolStats>, now: int, symbol: string)
    requires AllDistinct(ids) && DistinctSymbols(candidates)
    requires var until := GuardOf(guards, symbol).cooldownUntil; until.Some? && now < until.value
    ensures forall id :: id in ids ==>
              symbol !in Assign(ids, Pool(guards, candidates, now))[id].shortlist
              && symbol !in Assign(ids, Pool(guards, candidates, now))[id].active
  {
    forall id | id in ids
      ensures symbol !in Assign(ids, Pool(guards, candidates, now))[id].shortlist
      ensures symbol !in Assign(ids, Pool(guards, candidates, now))[id].active
    {
      var state := Assign(ids, Pool(guards, candidates, now))[id];
      assert forall s :: s in state.active ==> s in state.shortlist;
      if symbol in state.shortlist {
        AssignExact(guards, ids, candidates, now, id, symbol);
      }
    }
  }

  /** In a log whose timestamps for `symbol` do not decrease, its trade number `k` triggers, from `guards` on. */
  predicate TriggersIn(guards: Guards, log: seq<(string, Closed)>, symbol: string, k: nat) {
    var h := HistoryOf(log, symbol);
    && k < |h| && TriggersFrom(GuardOf(guards, symbol), h, k)
    && forall i, j :: 0 <= i < j < |h| ==> h[i].ts <= h[j].ts
  }

  lemma GuardHolds(guards: Guards, log: seq<(string, Closed)>, symbol: string, k: nat)
    requires TriggersIn(guards, log, symbol, k)
    ensures var until := GuardOf(GuardsFrom(guards, log), symbol).cooldownUntil;
            until.Some? && until.value >= Saturate(HistoryOf(log, symbol)[k].ts + COOLDOWN_MS)
  {
    GuardsAreIndependent(guards, log, symbol);
    CooldownHolds(GuardOf(guards, symbol), HistoryOf(log, symbol), k);
  }

  /** A symbol whose trade triggered is in no assignment made before the trigger's time plus the cooldown,
      whatever is traded in between and whatever guards were restored before, as long as its timestamps do not
      decrease. */
  lemma CooldownKeepsOut(guards: Guards, log: seq<(string, Closed)>, symbol: string, k: nat,
                         ids: seq<string>, candidates: seq<SymbolStats>, now: int)
    requires AllDistinct(ids) && DistinctSymbols(candidates) && TriggersIn(guards, log, symbol, k)
    requires now < Saturate(HistoryOf(log, symbol)[k].ts + COOLDOWN_MS)
    ensures forall id :: id in ids ==>
              symbol !in Assign(ids, Pool(GuardsFrom(guards, log), candidates, now))[id].shortlist
              && symbol !in Assign(ids, Pool(GuardsFrom(guards, log), candidates, now))[id].active
  {
    GuardHolds(guards, log, symbol, k);
    CoolingKeepsOut(GuardsFrom(guards, log), ids, candidates, now, symbol);
  }

  // ---- guards as rows ---------------------------------------------------------------------------------------

  function GuardsOfRows(rows: seq<(string, Guard)>): Guards {
    if rows == [] then map[]
    else GuardsOfRows(rows[..|rows| - 1])[rows[|rows| - 1].0 := rows[|rows| - 1].1]
  }

  ghost predicate ListsGuards(rows: seq<(string, Guard)>, guards: Guards) {
    && (forall i, j :: 0 <= i < j < |rows| ==> rows[i].0 != rows[j].0)
    && (forall row :: row in rows ==> row.0 in guards && guards[row.0] == row.1)
    && (forall s :: s in guards ==> (s, guards[s]) in rows)
  }

  predicate InSymbolOrder(rows: seq<(string, Guard)>) {
    forall i, j :: 0 <= i < j < |rows| ==> CmpString(rows[i].0, rows[j].0) != Greater
  }

  function InsertRow(row: (string, Guard), rows: seq<(string, Guard)>): seq<(string, Guard)> {
    if rows == [] || CmpString(row.0, rows[0].0) != Greater then [row] + rows
    else [rows[0]] + InsertRow(row, rows[1..])
  }

  lemma {:induction false} InsertRowKeeps(row: (string, Guard), rows: seq<(string, Guard)>)
    ensures forall r :: r in InsertRow(row, rows) <==> r == row || r in rows
    ensures |InsertRow(row, rows)| == |rows| + 1
  {
    if rows != [] && CmpString(row.0, rows[0].0) == Greater {
      InsertRowKeeps(row, rows[1..]);
      assert rows == [rows[0]] + rows[1..];
    }
  }

  lemma {:induction false} InsertRowOrder(row: (string, Guard), rows: seq<(string, Guard)>)
    requires InSymbolOrder(rows)
    ensures InSymbolOrder(InsertRow(row, rows))
  {
    if rows == [] {
    } else if CmpString(row.0, rows[0].0) != Greater {
      forall j | 0 <= j < |rows| ensures CmpString(row.0, rows[j].0) != Greater {
        StringOrder(row.0, rows[0].0, rows[j].0);
      }
    } else {
      var rest := InsertRow(row, rows[1..]);
      InsertRowOrder(row, rows[1..]);
      InsertRowKeeps(row, rows[1..]);
      StringOrder(rows[0].0, row.0, rows[0].0);
      StringOrder(row.0, rows[0].0, row.0);
      forall j | 0 <= j < |rest| ensures CmpString(rows[0].0, rest[j].0) != Greater {
        assert rest[j] in rest;
        if rest[j] in rows[1..] {
          var i :| 0 <= i < |rows[1..]| && rows[1..][i] == rest[j];
          assert rows[i + 1] == rest[j];
        }
      }
    }
  }

  lemma {:induction false} InsertRowDistinct(row: (string, Guard), rows: seq<(string, Guard)>)
    requires forall i, j :: 0 <= i < j < |rows| ==> rows[i].0 != rows[j].0
    requires forall r :: r in rows ==> r.0 != row.0
    ensures var all := InsertRow(row, rows); forall i, j :: 0 <= i < j < |all| ==> all[i].0 != all[j].0
  {
    if rows != [] && CmpString(row.0, rows[0].0) == Greater {
      var rest := InsertRow(row, rows[1..]);
      assert rows == [rows[0]] + rows[1..];
      InsertRowDistinct(row, rows[1..]);
      InsertRowKeeps(row, rows[1..]);
      forall j | 0 <= j < |rest| ensures rest[j].0 != rows[0].0 {
        assert rest[j] in rest;
        if rest[j] in rows[1..] {
          var i :| 0 <= i < |rows[1..]| && rows[1..][i] == rest[j];
          assert rows[i + 1] == rest[j];
        }
      }
    }
  }

  lemma InsertRowExact(row: (string, Guard), rows: seq<(string, Guard)>, guards: Guards)
    requires ListsGuards(rows, guards) && InSymbolOrder(rows) && row.0 !in guards
    ensures ListsGuards(InsertRow(row, rows), guards[row.0 := row.1]) && InSymbolOrder(InsertRow(row, rows))
  {
    InsertRowKeeps(row, rows);
    InsertRowOrder(row, rows);
    InsertRowDistinct(row, rows);
  }

  lemma {:induction false} RowsMean(rows: seq<(string, Guard)>, symbol: string)
    ensures symbol in GuardsOfRows(rows) <==> exists r :: r in rows && r.0 == symbol
    ensures symbol in GuardsOfRows(rows) ==> (symbol, GuardsOfRows(rows)[symbol]) in rows
  {
    if rows != [] {
      var init, last := rows[..|rows| - 1], rows[|rows| - 1];
      RowsMean(init, symbol);
      assert rows == init + [last];
      assert last in rows;
    }
  }

  /** Writing the guards out as rows and replacing them by those rows changes nothing, in whatever order the rows
      come: every symbol keeps its streak and its cooldown. */
  lemma ReplacedByItsRows(rows: seq<(string, Guard)>, guards: Guards)
    requires ListsGuards(rows, guards)
    ensures GuardsOfRows(rows) == guards
  {
    forall s: string
      ensures s in GuardsOfRows(rows) <==> s in guards
      ensures s in guards ==> GuardsOfRows(rows)[s] == guards[s]
    {
      RowsMean(rows, s);
    }
  }
}
