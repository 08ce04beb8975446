/** Candidate statistics kept while the process runs: trades with the same symbol and exit time are collapsed
    into one event, and every event is folded into its symbol's accumulator. */
module CandidateEvents {
  import opened Numbers
  import opened FleetTrades
  import opened DrainedTrades

  type u32 = n: int | 0 <= n <= U32_MAX

  datatype Group = Group(symbol: string, tsMs: int)

  datatype CandidateEvent = CandidateEvent(symbol: string, eventTsMs: int, pnlPct: real, firstObservedTsMs: int)

  /** The collapse map's value: running sum, number of trades and earliest entry. */
  datatype Entry = Entry(pnlSum: real, count: nat, first: int)

  function GroupOf(t: FleetTrade): Group {
    Group(t.symbol, t.tsMs)
  }

  // ---- sums and minima of sets -----------------------------------------------------------------------------

  ghost function SumOf<T>(s: set<T>, f: T -> real): real {
    if s == {} then 0.0 else
      var x :| x in s;
      f(x) + SumOf(s - {x}, f)
  }

  /** Any element may be taken out first. */
  lemma {:induction false} SumRemove<T>(s: set<T>, f: T -> real, x: T)
    requires x in s
    ensures SumOf(s, f) == f(x) + SumOf(s - {x}, f)
    decreases |s|
  {
    var y :| y in s && SumOf(s, f) == f(y) + SumOf(s - {y}, f);
    if y != x {
      assert s - {x} - {y} == s - {y} - {x};
      SumRemove(s - {y}, f, x);
      SumRemove(s - {x}, f, y);
    }
  }

  lemma SumAdd<T>(s: set<T>, f: T -> real, x: T)
    requires x !in s
    ensures SumOf(s + {x}, f) == SumOf(s, f) + f(x)
  {
    SumRemove(s + {x}, f, x);
    assert s + {x} - {x} == s;
  }

  ghost function Pick<T>(s: set<T>): (x: T)
    requires s != {}
    ensures x in s
  {
    var x :| x in s;
    x
  }

  ghost function MinOf(s: set<int>): (m: int)
    requires s != {}
    ensures m in s && forall x :: x in s ==> m <= x
  {
    var x := Pick(s);
    if s == {x} then x else
      assert s == {x} + (s - {x});
      Min(x, MinOf(s - {x}))
  }

  ghost function Image<A, B>(s: set<A>, f: A -> B): set<B> {
    set x | x in s :: f(x)
  }

  lemma {:induction false} ImageSize<A, B>(s: set<A>, f: A -> B)
    requires forall x, y :: x in s && y in s && f(x) == f(y) ==> x == y
    ensures |Image(s, f)| == |s|
  {
    if s != {} {
      var x :| x in s;
      ImageSize(s - {x}, f);
      assert Image(s, f) == Image(s - {x}, f) + {f(x)};
    }
  }

  // ---- collapsing ------------------------------------------------------------------------------------------

  function TallyOne(tally: map<Group, Entry>, t: FleetTrade): map<Group, Entry> {
    var g := GroupOf(t);
    var e := if g in tally then tally[g] else Entry(0.0, 0, t.entryTsMs);
    tally[g := Entry(e.pnlSum + t.pnlPct, e.count + 1, Min(e.first, t.entryTsMs))]
  }

  function Tally(rows: seq<FleetTrade>): map<Group, Entry> {
    if rows == [] then map[] else TallyOne(Tally(rows[..|rows| - 1]), rows[|rows| - 1])
  }

  function Event(g: Group, e: Entry): CandidateEvent
    requires e.count > 0
  {
    CandidateEvent(g.symbol, g.tsMs, e.pnlSum / e.count as real, e.first)
  }

  ghost function EventsFrom(tally: map<Group, Entry>, groups: set<Group>): set<CandidateEvent> {
    set g | g in groups && g in tally && tally[g].count > 0 :: Event(g, tally[g])
  }

  ghost function Elements<T>(s: seq<T>): set<T> {
    set x | x in s
  }

  /** `events` lists the set `all`, each member once. */
  ghost predicate Lists<T(!new)>(events: seq<T>, all: set<T>) {
    && (forall i, j :: 0 <= i < j < |events| ==> events[i] != events[j])
    && (forall e :: e in events <==> e in all)
  }

  method CollapseCandidateEvents(rows: seq<FleetTrade>) returns (events: seq<CandidateEvent>)
    ensures Lists(events, EventsFrom(Tally(rows), Tally(rows).Keys))
  {
    var tally: map<Group, Entry> := map[];
    for n := 0 to |rows|
      invariant tally == Tally(rows[..n])
    {
      assert rows[..n + 1][..n] == rows[..n];
      var t := rows[n];
      var entry := if GroupOf(t) in tally then tally[GroupOf(t)] else Entry(0.0, 0, t.entryTsMs);
      entry := entry.(pnlSum := entry.pnlSum + t.pnlPct);
      entry := entry.(count := entry.count + 1);
      entry := entry.(first := Min(entry.first, t.entryTsMs));
      tally := tally[GroupOf(t) := entry];
    }
    assert rows[..|rows|] == rows;
    events := [];
    var todo := tally.Keys;
    while todo != {}
      invariant todo <= tally.Keys
      invariant Lists(events, EventsFrom(tally, tally.Keys - todo))
      decreases |todo|
    {
      var g :| g in todo;
      ghost var done := tally.Keys - todo;
      todo := todo - {g};
      assert tally.Keys - todo == done + {g};
      if tally[g].count != 0 {
        assert EventsFrom(tally, done + {g}) == EventsFrom(tally, done) + {Event(g, tally[g])};
        events := events + [Event(g, tally[g])];
      } else {
        assert EventsFrom(tally, done + {g}) == EventsFrom(tally, done);
      }
    }
    assert tally.Keys - todo == tally.Keys;
  }

  // ---- what collapsing means: one event per group, its mean profit and its earliest entry -------------------

  ghost function Groups(rows: set<FleetTrade>): set<Group> {
    set t | t in rows :: GroupOf(t)
  }

  ghost function Members(rows: set<FleetTrade>, g: Group): set<FleetTrade> {
    set t | t in rows && GroupOf(t) == g
  }

  function Pnl(t: FleetTrade): real {
    t.pnlPct
  }

  ghost function EntryTimes(rows: set<FleetTrade>): set<int> {
    set t | t in rows :: t.entryTsMs
  }

  /** `SELECT AVG(pnl_pct), MIN(entry_ts_ms) … GROUP BY symbol, exit_ts_ms`, for one group. */
  ghost function EventOf(rows: set<FleetTrade>, g: Group): (e: CandidateEvent)
    requires g in Groups(rows)
    ensures e.symbol == g.symbol && e.eventTsMs == g.tsMs
  {
    var members := Members(rows, g);
    var t :| t in rows && GroupOf(t) == g;
    assert t in members && t.entryTsMs in EntryTimes(members);
    CandidateEvent(g.symbol, g.tsMs, SumOf(members, Pnl) / |members| as real, MinOf(EntryTimes(members)))
  }

  ghost function EventsOf(rows: set<FleetTrade>): set<CandidateEvent> {
    set g | g in Groups(rows) :: EventOf(rows, g)
  }

  ghost predicate Summarizes(e: Entry, members: set<FleetTrade>) {
    && e.count == |members| > 0
    && e.pnlSum == SumOf(members, Pnl)
    && e.first in EntryTimes(members)
    && (forall x :: x in EntryTimes(members) ==> e.first <= x)
  }

  ghost predicate Tallies(tally: map<Group, Entry>, rows: set<FleetTrade>) {
    && (forall g :: g in tally <==> g in Groups(rows))
    && (forall g :: g in tally ==> Summarizes(tally[g], Members(rows, g)))
  }

  lemma OneMore(e: Entry, members: set<FleetTrade>, t: FleetTrade)
    requires members != {} ==> Summarizes(e, members)
    requires members == {} ==> e == Entry(0.0, 0, t.entryTsMs)
    requires t !in members
    ensures Summarizes(Entry(e.pnlSum + t.pnlPct, e.count + 1, Min(e.first, t.entryTsMs)), members + {t})
  {
    SumAdd(members, Pnl, t);
    var times := EntryTimes(members + {t});
    assert times == EntryTimes(members) + {t.entryTsMs};
  }

  lemma MembersStep(rows: set<FleetTrade>, t: FleetTrade, g: Group)
    ensures Members(rows + {t}, g) == if GroupOf(t) == g then Members(rows, g) + {t} else Members(rows, g)
    ensures g in Groups(rows + {t}) <==> g in Groups(rows) || GroupOf(t) == g
    ensures g in Groups(rows) <==> Members(rows, g) != {}
  {
    if g in Groups(rows) {
      var u :| u in rows && GroupOf(u) == g;
      assert u in Members(rows, g) && u in rows + {t};
    }
    if Members(rows, g) != {} {
      var u :| u in Members(rows, g);
    }
    assert t in rows + {t};
  }

  lemma TallyStep(tally: map<Group, Entry>, rows: set<FleetTrade>, t: FleetTrade)
    requires Tallies(tally, rows) && t !in rows
    ensures Tallies(TallyOne(tally, t), rows + {t})
  {
    var g := GroupOf(t);
    var e := if g in tally then tally[g] else Entry(0.0, 0, t.entryTsMs);
    MembersStep(rows, t, g);
    OneMore(e, Members(rows, g), t);
    forall h ensures h in TallyOne(tally, t) <==> h in Groups(rows + {t}) {
      MembersStep(rows, t, h);
    }
    forall h | h in TallyOne(tally, t) ensures Summarizes(TallyOne(tally, t)[h], Members(rows + {t}, h)) {
      MembersStep(rows, t, h);
    }
  }

  lemma {:induction false} TallyExact(s: seq<FleetTrade>)
    requires DistinctKeys(s)
    ensures Tallies(Tally(s), Elements(s))
  {
    if s != [] {
      var init, t := s[..|s| - 1], s[|s| - 1];
      TallyExact(init);
      assert s == init + [t];
      assert Elements(s) == Elements(init) + {t};
      TallyStep(Tally(init), Elements(init), t);
    }
  }

  /** On trades with distinct natural keys, collapsing yields exactly one event per group: the mean profit of
      the group's trades at their earliest entry. */
  lemma CollapseExact(s: seq<FleetTrade>)
    requires DistinctKeys(s)
    ensures EventsFrom(Tally(s), Tally(s).Keys) == EventsOf(Elements(s))
  {
    TallyExact(s);
    var tally, rows := Tally(s), Elements(s);
    forall g | g in tally ensures tally[g].count > 0 && Event(g, tally[g]) == EventOf(rows, g) {
      assert Summarizes(tally[g], Members(rows, g));
    }
  }

  // ---- accumulating ----------------------------------------------------------------------------------------

  datatype Accumulator = Accumulator(
    closed: u32, profitable: u32, losing: u32, pnlSum: real, first: Option<int>)

  const FRESH := Accumulator(0, 0, 0, 0.0, None)

  function ObserveEvent(a: Accumulator, e: CandidateEvent): Accumulator {
    Accumulator(
      Increment(a.closed, U32_MAX),
      if e.pnlPct > 0.0 then Increment(a.profitable, U32_MAX) else a.profitable,
      if e.pnlPct < 0.0 then Increment(a.losing, U32_MAX) else a.losing,
      a.pnlSum + e.pnlPct,
      Some(if a.first.Some? then Min(a.first.value, e.firstObservedTsMs) else e.firstObservedTsMs))
  }

  type Accumulators = map<string, Accumulator>

  function ObserveOne(accs: Accumulators, e: CandidateEvent): Accumulators {
    accs[e.symbol := ObserveEvent(if e.symbol in accs then accs[e.symbol] else FRESH, e)]
  }

  /** The accumulators after a set of events, in whatever order they are folded in. */
  ghost function Observed(accs: Accumulators, events: set<CandidateEvent>): Accumulators {
    if events == {} then accs else
      var e :| e in events;
      ObserveOne(Observed(accs, events - {e}), e)
  }

  lemma ObserveSwap(accs: Accumulators, e: CandidateEvent, f: CandidateEvent)
    ensures ObserveOne(ObserveOne(accs, e), f) == ObserveOne(ObserveOne(accs, f), e)
  {
    assert ObserveOne(ObserveOne(accs, e), f).Keys == ObserveOne(ObserveOne(accs, f), e).Keys;
  }

  /** Any event may be folded in last. */
  lemma {:induction false} ObservedRemove(accs: Accumulators, events: set<CandidateEvent>, e: CandidateEvent)
    requires e in events
    ensures Observed(accs, events) == ObserveOne(Observed(accs, events - {e}), e)
    decreases |events|
  {
    var f :| f in events && Observed(accs, events) == ObserveOne(Observed(accs, events - {f}), f);
    if f != e {
      assert events - {e} - {f} == events - {f} - {e};
      ObservedRemove(accs, events - {f}, e);
      ObservedRemove(accs, events - {e}, f);
      ObserveSwap(Observed(accs, events - {e} - {f}), e, f);
    }
  }

  lemma {:induction false} ObservedUnion(accs: Accumulators, a: set<CandidateEvent>, b: set<CandidateEvent>)
    requires a !! b
    ensures Observed(accs, a + b) == Observed(Observed(accs, a), b)
    decreases |b|
  {
    if b == {} {
      assert a + b == a;
    } else {
      var e :| e in b;
      ObservedUnion(accs, a, b - {e});
      assert a + b - {e} == a + (b - {e});
      ObservedRemove(accs, a + b, e);
      ObservedRemove(Observed(accs, a), b, e);
    }
  }

  /** The history aggregate's row for one symbol. */
  datatype HistoryRow = HistoryRow(
    symbol: string, closed: u32, profitable: u32, losing: u32, pnlSum: real, first: Option<int>)

  function FromRow(row: HistoryRow): Accumulator {
    Accumulator(row.closed, Min(row.profitable, row.closed), Min(row.losing, row.closed), row.pnlSum, row.first)
  }

  function RestoreRows(rows: seq<HistoryRow>): Accumulators {
    if rows == [] then map[]
    else
      var n := |rows| - 1;
      var accs := RestoreRows(rows[..n]);
      if rows[n].closed == 0 then accs else accs[rows[n].symbol := FromRow(rows[n])]
  }

  /** Whatever the rows say, no restored symbol has more wins or more losses than closed events, and none has no
      closed event; what the rows say otherwise is kept. */
  lemma {:induction false} RestoredIsClamped(rows: seq<HistoryRow>, symbol: string) returns (row: HistoryRow)
    requires symbol in RestoreRows(rows)
    ensures row in rows && row.symbol == symbol && row.closed > 0
    ensures var a := RestoreRows(rows)[symbol];
            && a.closed == row.closed && a.pnlSum == row.pnlSum && a.first == row.first
            && a.profitable == (if row.profitable <= row.closed then row.profitable else row.closed)
            && a.losing == (if row.losing <= row.closed then row.losing else row.closed)
  {
    var n := |rows| - 1;
    if rows[n].closed > 0 && rows[n].symbol == symbol {
      row := rows[n];
    } else {
      row := RestoredIsClamped(rows[..n], symbol);
      assert row in rows[..n];
    }
  }

  /** The screener's per-symbol candidate statistics. */
  class CandidateStats {
    var accumulators: Accumulators

    constructor ()
      ensures accumulators == map[]
    {
      accumulators := map[];
    }

    method ObserveEvents(events: seq<CandidateEvent>)
      requires forall i, j :: 0 <= i < j < |events| ==> events[i] != events[j]
      modifies this
      ensures accumulators == Observed(old(accumulators), Elements(events))
    {
      for n := 0 to |events|
        invariant accumulators == Observed(old(accumulators), Elements(events[..n]))
      {
        assert events[..n + 1] == events[..n] + [events[n]];
        assert Elements(events[..n + 1]) - {events[n]} == Elements(events[..n]);
        ObservedRemove(old(accumulators), Elements(events[..n + 1]), events[n]);
        var e := events[n];
        var slot := if e.symbol in accumulators then accumulators[e.symbol] else FRESH;
        accumulators := accumulators[e.symbol := ObserveEvent(slot, e)];
      }
      assert events[..|events|] == events;
    }

    /** The statistics part of handling a drain. */
    method ObserveDrain(drained: seq<FleetTrade>, activeRun: Option<string>)
      modifies this
      ensures accumulators ==
              Observed(old(accumulators), EventsOf(Elements(FilterActiveRun(Cleaned(drained), activeRun))))
    {
      var deduped := DedupeDrainedTrades(SortDrain(drained));
      var active := FilterActiveRun(deduped, activeRun);
      CleanedExact(drained);
      FilterKeepsDistinct(deduped, activeRun);
      CollapseExact(active);
      var events := CollapseCandidateEvents(active);
      assert Elements(events) == EventsOf(Elements(active));
      ObserveEvents(events);
    }

    /** Replace the statistics by those of the stored history. */
    method RestoreHistory(rows: seq<HistoryRow>)
      modifies this
      ensures accumulators == RestoreRows(rows)
    {
      accumulators := map[];
      for n := 0 to |rows|
        invariant accumulators == RestoreRows(rows[..n])
      {
        assert rows[..n + 1][..n] == rows[..n];
        if rows[n].closed == 0 { continue; }
        accumulators := accumulators[rows[n].symbol := FromRow(rows[n])];
      }
      assert rows[..|rows|] == rows;
    }
  }
}
