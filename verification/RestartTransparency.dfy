/** Statistics folded in drain by drain, against those recomputed from the trades table after a restart. */
module RestartTransparency {
  import opened Numbers
  import opened FleetTrades
  import opened DrainedTrades
  import opened CandidateEvents

  // ---- the history aggregate -------------------------------------------------------------------------------

  ghost function OfSymbol(events: set<CandidateEvent>, symbol: string): set<CandidateEvent> {
    set e | e in events && e.symbol == symbol
  }

  ghost function Symbols(events: set<CandidateEvent>): set<string> {
    set e | e in events :: e.symbol
  }

  function EventPnl(e: CandidateEvent): real {
    e.pnlPct
  }

  ghost function Winners(events: set<CandidateEvent>): set<CandidateEvent> {
    set e | e in events && e.pnlPct > 0.0
  }

  ghost function Losers(events: set<CandidateEvent>): set<CandidateEvent> {
    set e | e in events && e.pnlPct < 0.0
  }

  ghost function FirstTimes(events: set<CandidateEvent>): set<int> {
    set e | e in events :: e.firstObservedTsMs
  }

  ghost predicate Earliest(first: int, events: set<CandidateEvent>) {
    first in FirstTimes(events) && forall x :: x in FirstTimes(events) ==> first <= x
  }

  /** `as u32`: the low 32 bits. */
  function Truncate(n: nat): u32 {
    n % 0x1_0000_0000
  }

  /** `COUNT(*)`, the two conditional sums, `SUM(event_pnl_pct)` and `MIN(first_entry_ts_ms)` of a symbol. */
  ghost predicate Aggregates(row: HistoryRow, events: set<CandidateEvent>) {
    && row.closed == Truncate(|events|)
    && row.profitable == Truncate(|Winners(events)|)
    && row.losing == Truncate(|Losers(events)|)
    && row.pnlSum == SumOf(events, EventPnl)
    && row.first.Some?
    && Earliest(row.first.value, events)
  }

  /** `rows` holds the row of each of `symbols`, once. */
  ghost predicate RowsOf(rows: seq<HistoryRow>, symbols: set<string>, events: set<CandidateEvent>) {
    && (forall i, j :: 0 <= i < j < |rows| ==> rows[i].symbol != rows[j].symbol)
    && (forall row :: row in rows ==> row.symbol in symbols && Aggregates(row, OfSymbol(events, row.symbol)))
    && (forall symbol :: symbol in symbols ==> exists row :: row in rows && row.symbol == symbol)
  }

  /** `rows` is the answer to the history query: one row for each symbol that has events. */
  ghost predicate AnswersQuery(rows: seq<HistoryRow>, events: set<CandidateEvent>) {
    RowsOf(rows, Symbols(events), events)
  }

  // ---- folding events in one at a time computes the aggregate ----------------------------------------------

  ghost predicate Sums(a: Accumulator, events: set<CandidateEvent>) {
    && a.closed == |events|
    && a.profitable == |Winners(events)|
    && a.losing == |Losers(events)|
    && a.pnlSum == SumOf(events, EventPnl)
    && a.first.Some?
    && Earliest(a.first.value, events)
  }

  lemma CountsStep(events: set<CandidateEvent>, e: CandidateEvent)
    requires e !in events
    ensures |Winners(events + {e})| == |Winners(events)| + if e.pnlPct > 0.0 then 1 else 0
    ensures |Losers(events + {e})| == |Losers(events)| + if e.pnlPct < 0.0 then 1 else 0
  {
    assert Winners(events + {e}) == if e.pnlPct > 0.0 then Winners(events) + {e} else Winners(events);
    assert Losers(events + {e}) == if e.pnlPct < 0.0 then Losers(events) + {e} else Losers(events);
  }

  lemma FirstStep(first: Option<int>, events: set<CandidateEvent>, e: CandidateEvent)
    requires if events == {} then first == None else first.Some? && Earliest(first.value, events)
    ensures Earliest(if first.Some? then Min(first.value, e.firstObservedTsMs) else e.firstObservedTsMs, events + {e})
  {
    assert FirstTimes(events + {e}) == FirstTimes(events) + {e.firstObservedTsMs};
  }

  lemma SumsStep(a: Accumulator, events: set<CandidateEvent>, e: CandidateEvent)
    requires if events == {} then a == FRESH else Sums(a, events)
    requires e !in events && |events| < U32_MAX
    ensures Sums(ObserveEvent(a, e), events + {e})
  {
    SumAdd(events, EventPnl, e);
    PartsAreSmaller(events);
    CountsStep(events, e);
    FirstStep(a.first, events, e);
  }

  lemma SubsetSize<T>(a: set<T>, b: set<T>)
    requires a <= b
    ensures |a| <= |b|
  {
    assert b == a + (b - a);
  }

  lemma PartsAreSmaller(events: set<CandidateEvent>)
    ensures |Winners(events)| <= |events| && |Losers(events)| <= |events|
    ensures events == {} ==> Winners(events) == {} && Losers(events) == {} && FirstTimes(events) == {}
  {
    SubsetSize(Winners(events), events);
    SubsetSize(Losers(events), events);
  }

  ghost predicate Small(events: set<CandidateEvent>) {
    forall symbol :: symbol in Symbols(events) ==> |OfSymbol(events, symbol)| <= U32_MAX
  }

  ghost predicate AllSum(accs: Accumulators, events: set<CandidateEvent>) {
    && (forall symbol :: symbol in accs <==> symbol in Symbols(events))
    && (forall symbol :: symbol in accs ==> Sums(accs[symbol], OfSymbol(events, symbol)))
  }

  lemma OfSymbolStep(events: set<CandidateEvent>, e: CandidateEvent, symbol: string)
    requires e in events
    ensures OfSymbol(events, symbol) ==
            if e.symbol == symbol then OfSymbol(events - {e}, symbol) + {e} else OfSymbol(events - {e}, symbol)
    ensures symbol in Symbols(events) <==> symbol == e.symbol || symbol in Symbols(events - {e})
    ensures symbol in Symbols(events) <==> OfSymbol(events, symbol) != {}
    ensures symbol in Symbols(events - {e}) <==> OfSymbol(events - {e}, symbol) != {}
  {
    HasEvents(events, symbol);
    HasEvents(events - {e}, symbol);
    if symbol in Symbols(events) && symbol != e.symbol {
      var f :| f in events && f.symbol == symbol;
      assert f in events - {e};
    }
  }

  lemma HasEvents(events: set<CandidateEvent>, symbol: string)
    ensures symbol in Symbols(events) <==> OfSymbol(events, symbol) != {}
  {
    if symbol in Symbols(events) {
      var f :| f in events && f.symbol == symbol;
      assert f in OfSymbol(events, symbol);
    }
  }

  lemma AllSumStep(accs: Accumulators, events: set<CandidateEvent>, e: CandidateEvent)
    requires e in events && Small(events) && AllSum(accs, events - {e})
    ensures AllSum(ObserveOne(accs, e), events)
  {
    var rest := events - {e};
    forall symbol ensures symbol in ObserveOne(accs, e) <==> symbol in Symbols(events) {
      OfSymbolStep(events, e, symbol);
    }
    OfSymbolStep(events, e, e.symbol);
    SumsStep(if e.symbol in accs then accs[e.symbol] else FRESH, OfSymbol(rest, e.symbol), e);
    forall symbol | symbol in accs && symbol != e.symbol ensures Sums(accs[symbol], OfSymbol(events, symbol)) {
      OfSymbolStep(events, e, symbol);
    }
  }

  lemma SmallerStaysSmall(events: set<CandidateEvent>, e: CandidateEvent)
    requires e in events && Small(events)
    ensures Small(events - {e})
  {
    forall symbol | symbol in Symbols(events - {e}) ensures |OfSymbol(events - {e}, symbol)| <= U32_MAX {
      OfSymbolStep(events, e, symbol);
    }
  }

  /** One event at a time, from nothing, the accumulators reach the aggregate of all the events. */
  lemma {:induction false} IncrementalIsAggregate(events: set<CandidateEvent>)
    requires Small(events)
    ensures AllSum(Observed(map[], events), events)
  {
    if events != {} {
      var e :| e in events;
      ObservedRemove(map[], events, e);
      SmallerStaysSmall(events, e);
      IncrementalIsAggregate(events - {e});
      AllSumStep(Observed(map[], events - {e}), events, e);
    }
  }

  // ---- restoring the aggregate ------------------------------------------------------------------------------

  lemma {:induction false} RestoreKeepsRows(rows: seq<HistoryRow>)
    requires forall i, j :: 0 <= i < j < |rows| ==> rows[i].symbol != rows[j].symbol
    requires forall row :: row in rows ==> row.closed > 0
    ensures forall symbol :: symbol in RestoreRows(rows) <==> exists row :: row in rows && row.symbol == symbol
    ensures forall row :: row in rows ==>
                            row.symbol in RestoreRows(rows) && RestoreRows(rows)[row.symbol] == FromRow(row)
  {
    if rows != [] {
      var init, last := rows[..|rows| - 1], rows[|rows| - 1];
      RestoreKeepsRows(init);
      assert rows == init + [last];
      assert last in rows;
      forall row | row in init ensures row.symbol != last.symbol {
      }
    }
  }

  lemma RowSums(row: HistoryRow, events: set<CandidateEvent>)
    requires Aggregates(row, events) && events != {} && |events| <= U32_MAX
    ensures row.closed > 0 && Sums(FromRow(row), events)
  {
    PartsAreSmaller(events);
  }

  /** Restoring the history query's answer yields the aggregate of the stored events. */
  lemma RestoreIsAggregate(rows: seq<HistoryRow>, events: set<CandidateEvent>)
    requires AnswersQuery(rows, events) && Small(events)
    ensures AllSum(RestoreRows(rows), events)
  {
    forall row | row in rows ensures row.closed > 0 && Sums(FromRow(row), OfSymbol(events, row.symbol)) {
      HasEvents(events, row.symbol);
      RowSums(row, OfSymbol(events, row.symbol));
    }
    RestoreKeepsRows(rows);
  }

  lemma AggregateIsUnique(a: Accumulators, b: Accumulators, events: set<CandidateEvent>)
    requires AllSum(a, events) && AllSum(b, events)
    ensures a == b
  {
    forall symbol | symbol in a ensures symbol in b && a[symbol] == b[symbol] {
      assert Sums(a[symbol], OfSymbol(events, symbol)) && Sums(b[symbol], OfSymbol(events, symbol));
    }
    assert a.Keys == b.Keys;
  }

  // ---- drains and the table they are written to -------------------------------------------------------------

  /** The accumulators of a process that has handled `drains` without a run filter. */
  ghost function InProcess(drains: seq<seq<FleetTrade>>): Accumulators {
    if drains == [] then map[]
    else Observed(InProcess(drains[..|drains| - 1]), EventsOf(Elements(Cleaned(drains[|drains| - 1]))))
  }

  /** The trades table once every drain has been written. */
  function Persisted(drains: seq<seq<FleetTrade>>): Table {
    if drains == [] then map[]
    else Insert(Persisted(drains[..|drains| - 1]), Cleaned(drains[|drains| - 1]))
  }

  ghost predicate NoGroupIsSplit(drains: seq<seq<FleetTrade>>) {
    forall i, j, t, u :: 0 <= i < j < |drains| && t in drains[i] && u in drains[j] ==> GroupOf(t) != GroupOf(u)
  }

  /** The groups of every trade drained so far. */
  ghost function AllGroups(drains: seq<seq<FleetTrade>>): set<Group> {
    if drains == [] then {} else AllGroups(drains[..|drains| - 1]) + Groups(Elements(drains[|drains| - 1]))
  }

  ghost predicate Keyed(table: Table) {
    forall k :: k in table ==> Key(table[k]) == k
  }

  lemma CleanedGroups(drain: seq<FleetTrade>)
    ensures Groups(Elements(Cleaned(drain))) == Groups(Elements(drain))
    ensures DistinctKeys(Cleaned(drain))
  {
    var cleaned := Cleaned(drain);
    CleanedExact(drain);
    forall t | t in cleaned ensures t in drain {
      assert IsFirst(drain, t);
      ByKeyEmpty(drain, Key(t));
      assert t in ByKey(drain, Key(t));
    }
    forall g | g in Groups(Elements(drain)) ensures g in Groups(Elements(cleaned)) {
      var t :| t in drain && GroupOf(t) == g;
      var r :| r in cleaned && Key(r) == Key(t);
      assert GroupOf(r) == g && r in Elements(cleaned);
    }
  }

  lemma {:induction false} InsertGroups(table: Table, s: seq<FleetTrade>)
    requires Keyed(table)
    ensures Keyed(Insert(table, s))
    ensures Groups(Insert(table, s).Values) == Groups(table.Values) + Groups(Elements(s))
  {
    if s != [] {
      var init, t := s[..|s| - 1], s[|s| - 1];
      InsertGroups(table, init);
      assert s == init + [t];
      assert Elements(s) == Elements(init) + {t};
      InsertOneGroups(Insert(table, init), t);
    }
  }

  lemma InsertOneGroups(table: Table, t: FleetTrade)
    requires Keyed(table)
    ensures Keyed(InsertOne(table, t))
    ensures Groups(InsertOne(table, t).Values) == Groups(table.Values) + {GroupOf(t)}
  {
    if Key(t) in table {
      assert GroupOf(table[Key(t)]) == GroupOf(t);
    } else {
      assert InsertOne(table, t).Values == table.Values + {t} by {
        assert InsertOne(table, t)[Key(t)] == t;
        forall k | k in table ensures InsertOne(table, t)[k] == table[k] {
        }
      }
    }
  }

  lemma FreshKey(table: Table, init: seq<FleetTrade>, t: FleetTrade)
    requires Keyed(table) && DistinctKeys(init + [t]) && GroupOf(t) !in Groups(table.Values)
    ensures Key(t) !in Insert(table, init)
  {
    InsertStores(table, init);
    forall u | u in init ensures Key(u) != Key(t) {
      var i :| 0 <= i < |init| && init[i] == u;
      assert (init + [t])[i] == u && (init + [t])[|init|] == t;
    }
    forall k | k in table ensures k != Key(t) {
      assert GroupOf(table[k]) in Groups(table.Values);
    }
  }

  /** Rows whose groups are new are all stored. */
  lemma {:induction false} InsertFresh(table: Table, s: seq<FleetTrade>)
    requires Keyed(table) && DistinctKeys(s)
    requires Groups(table.Values) !! Groups(Elements(s))
    ensures Insert(table, s).Values == table.Values + Elements(s)
  {
    if s != [] {
      var init, t := s[..|s| - 1], s[|s| - 1];
      assert s == init + [t];
      assert Elements(s) == Elements(init) + {t};
      assert Groups(Elements(init)) <= Groups(Elements(s));
      InsertFresh(table, init);
      FreshKey(table, init, t);
      var stored := Insert(table, init);
      assert Insert(table, s) == stored[Key(t) := t];
      FreshValue(stored, Key(t), t);
    }
  }

  lemma FreshValue<K, V>(m: map<K, V>, k: K, v: V)
    requires k !in m
    ensures m[k := v].Values == m.Values + {v}
  {
    var n := m[k := v];
    assert n[k] == v;
    forall x | x in m ensures n[x] == m[x] {
    }
  }

  /** Groups that do not meet collapse separately. */
  lemma EventsOfUnion(a: set<FleetTrade>, b: set<FleetTrade>)
    requires Groups(a) !! Groups(b)
    ensures EventsOf(a + b) == EventsOf(a) + EventsOf(b)
    ensures EventsOf(a) !! EventsOf(b)
  {
    assert Groups(a + b) == Groups(a) + Groups(b);
    forall g | g in Groups(a) ensures EventOf(a + b, g) == EventOf(a, g) {
      MembersApart(a, b, g);
    }
    forall g | g in Groups(b) ensures EventOf(a + b, g) == EventOf(b, g) {
      MembersApart(b, a, g);
      assert a + b == b + a;
    }
  }

  lemma MembersApart(a: set<FleetTrade>, b: set<FleetTrade>, g: Group)
    requires Groups(a) !! Groups(b) && g in Groups(a)
    ensures Members(a + b, g) == Members(a, g)
  {
    forall t | t in b ensures GroupOf(t) != g {
      assert GroupOf(t) in Groups(b);
    }
  }

  lemma {:induction false} PersistedGroups(drains: seq<seq<FleetTrade>>)
    ensures Keyed(Persisted(drains)) && Groups(Persisted(drains).Values) == AllGroups(drains)
  {
    if drains != [] {
      var init, last := drains[..|drains| - 1], drains[|drains| - 1];
      PersistedGroups(init);
      CleanedGroups(last);
      InsertGroups(Persisted(init), Cleaned(last));
    }
  }

  lemma {:induction false} AllGroupsExact(drains: seq<seq<FleetTrade>>, g: Group)
    ensures g in AllGroups(drains) <==> exists i, t :: 0 <= i < |drains| && t in drains[i] && GroupOf(t) == g
  {
    if drains != [] {
      var n := |drains| - 1;
      AllGroupsExact(drains[..n], g);
      if g in AllGroups(drains[..n]) {
        var i, t :| 0 <= i < n && t in drains[..n][i] && GroupOf(t) == g;
        assert t in drains[i];
      } else if g in Groups(Elements(drains[n])) {
        var t :| t in drains[n] && GroupOf(t) == g;
      }
      if i, t :| 0 <= i < |drains| && t in drains[i] && GroupOf(t) == g {
        if i < n {
          assert t in drains[..n][i];
        } else {
          assert t in Elements(drains[n]);
        }
      }
    }
  }

  lemma LastIsApart(drains: seq<seq<FleetTrade>>)
    requires drains != []
    ensures NoGroupIsSplit(drains) <==>
            NoGroupIsSplit(drains[..|drains| - 1]) &&
            AllGroups(drains[..|drains| - 1]) !! Groups(Elements(drains[|drains| - 1]))
  {
    var n := |drains| - 1;
    var init, last := drains[..n], drains[n];
    if NoGroupIsSplit(drains) {
      forall g | g in AllGroups(init) ensures g !in Groups(Elements(last)) {
        AllGroupsExact(init, g);
        var i, t :| 0 <= i < |init| && t in init[i] && GroupOf(t) == g;
        assert t in drains[i];
        forall u | u in last ensures GroupOf(u) != g {
          assert u in drains[n];
        }
      }
    }
    if NoGroupIsSplit(init) && AllGroups(init) !! Groups(Elements(last)) {
      forall i, j, t, u | 0 <= i < j < |drains| && t in drains[i] && u in drains[j] ensures GroupOf(t) != GroupOf(u) {
        if j < n {
          assert t in init[i] && u in init[j];
        } else {
          AllGroupsExact(init, GroupOf(t));
          assert t in init[i] && u in Elements(last);
        }
      }
    }
  }

  // ---- the theorem --------------------------------------------------------------------------------------------

  /** With no group split, drain by drain and all at once see the same events. */
  lemma {:induction false} UnsplitFolds(drains: seq<seq<FleetTrade>>)
    requires NoGroupIsSplit(drains)
    ensures InProcess(drains) == Observed(map[], EventsOf(Persisted(drains).Values))
  {
    if drains == [] {
      assert Groups(Persisted(drains).Values) == {};
    } else {
      var init, last := drains[..|drains| - 1], drains[|drains| - 1];
      LastIsApart(drains);
      UnsplitFolds(init);
      CleanedGroups(last);
      PersistedGroups(init);
      InsertFresh(Persisted(init), Cleaned(last));
      EventsOfUnion(Persisted(init).Values, Elements(Cleaned(last)));
      ObservedUnion(map[], EventsOf(Persisted(init).Values), EventsOf(Elements(Cleaned(last))));
    }
  }

  ghost function GroupsOfSymbol(groups: set<Group>, symbol: string): set<Group> {
    set g | g in groups && g.symbol == symbol
  }

  /** How many events the running process folds in for a symbol. */
  ghost function Counted(drains: seq<seq<FleetTrade>>, symbol: string): nat {
    if drains == [] then 0
    else Counted(drains[..|drains| - 1], symbol) + |GroupsOfSymbol(Groups(Elements(drains[|drains| - 1])), symbol)|
  }

  function Stamp(e: CandidateEvent): Group {
    Group(e.symbol, e.eventTsMs)
  }

  lemma EventsPerSymbol(rows: set<FleetTrade>, symbol: string)
    ensures |OfSymbol(EventsOf(rows), symbol)| == |GroupsOfSymbol(Groups(rows), symbol)|
    ensures symbol in Symbols(EventsOf(rows)) <==> GroupsOfSymbol(Groups(rows), symbol) != {}
  {
    var events := OfSymbol(EventsOf(rows), symbol);
    HasEvents(EventsOf(rows), symbol);
    forall e | e in EventsOf(rows) ensures Stamp(e) in Groups(rows) && e == EventOf(rows, Stamp(e)) {
      var g :| g in Groups(rows) && e == EventOf(rows, g);
    }
    ImageSize(events, Stamp);
    var stamps := Image(events, Stamp);
    forall g | g in GroupsOfSymbol(Groups(rows), symbol) ensures g in stamps {
      var e := EventOf(rows, g);
      assert e in EventsOf(rows) && Stamp(e) == g;
      assert e in events;
    }
    assert stamps == GroupsOfSymbol(Groups(rows), symbol);
  }

  function ClosedOf(accs: Accumulators, symbol: string): nat {
    if symbol in accs then accs[symbol].closed else 0
  }

  lemma {:induction false} ClosedGrows(accs: Accumulators, events: set<CandidateEvent>, symbol: string)
    requires ClosedOf(accs, symbol) + |OfSymbol(events, symbol)| <= U32_MAX
    ensures ClosedOf(Observed(accs, events), symbol) == ClosedOf(accs, symbol) + |OfSymbol(events, symbol)|
    decreases |events|
  {
    if events == {} {
      assert OfSymbol(events, symbol) == {};
    } else {
      var e :| e in events;
      OfSymbolStep(events, e, symbol);
      ObservedRemove(accs, events, e);
      ClosedGrows(accs, events - {e}, symbol);
    }
  }

  lemma {:induction false} InProcessCounts(drains: seq<seq<FleetTrade>>, symbol: string)
    requires Counted(drains, symbol) <= U32_MAX
    ensures ClosedOf(InProcess(drains), symbol) == Counted(drains, symbol)
  {
    if drains != [] {
      var init, last := drains[..|drains| - 1], drains[|drains| - 1];
      InProcessCounts(init, symbol);
      CleanedGroups(last);
      EventsPerSymbol(Elements(Cleaned(last)), symbol);
      ClosedGrows(InProcess(init), EventsOf(Elements(Cleaned(last))), symbol);
    }
  }

  /** The process never counts fewer events than there are groups, and counts as many only if none is split. */
  lemma {:induction false} CountsCoverGroups(drains: seq<seq<FleetTrade>>, symbol: string)
    ensures Counted(drains, symbol) >= |GroupsOfSymbol(AllGroups(drains), symbol)|
  {
    if drains == [] {
      assert GroupsOfSymbol({}, symbol) == {};
    } else {
      CountsCoverGroups(drains[..|drains| - 1], symbol);
      UnionSize(drains, symbol);
    }
  }

  lemma UnionSize(drains: seq<seq<FleetTrade>>, symbol: string)
    requires drains != []
    ensures var before := GroupsOfSymbol(AllGroups(drains[..|drains| - 1]), symbol);
            var now := GroupsOfSymbol(Groups(Elements(drains[|drains| - 1])), symbol);
            |GroupsOfSymbol(AllGroups(drains), symbol)| == |before| + |now| - |before * now|
  {
    var before := GroupsOfSymbol(AllGroups(drains[..|drains| - 1]), symbol);
    var now := GroupsOfSymbol(Groups(Elements(drains[|drains| - 1])), symbol);
    assert GroupsOfSymbol(AllGroups(drains), symbol) == before + now;
  }

  /** A split group is counted more than once. */
  lemma {:induction false} SplitIsOvercounted(drains: seq<seq<FleetTrade>>) returns (symbol: string)
    requires !NoGroupIsSplit(drains)
    ensures Counted(drains, symbol) > |GroupsOfSymbol(AllGroups(drains), symbol)|
  {
    var init, last := drains[..|drains| - 1], drains[|drains| - 1];
    LastIsApart(drains);
    if !NoGroupIsSplit(init) {
      symbol := SplitIsOvercounted(init);
      UnionSize(drains, symbol);
    } else {
      var g :| g in AllGroups(init) && g in Groups(Elements(last));
      symbol := g.symbol;
      CountsCoverGroups(init, symbol);
      UnionSize(drains, symbol);
      assert g in GroupsOfSymbol(AllGroups(init), symbol) * GroupsOfSymbol(Groups(Elements(last)), symbol);
    }
  }

  lemma StoredIsSmall(drains: seq<seq<FleetTrade>>)
    requires forall symbol :: Counted(drains, symbol) <= U32_MAX
    ensures Small(EventsOf(Persisted(drains).Values))
  {
    var rows := Persisted(drains).Values;
    forall symbol | symbol in Symbols(EventsOf(rows)) ensures |OfSymbol(EventsOf(rows), symbol)| <= U32_MAX {
      PersistedGroups(drains);
      EventsPerSymbol(rows, symbol);
      CountsCoverGroups(drains, symbol);
    }
  }

  lemma RestoredCounts(drains: seq<seq<FleetTrade>>, accs: Accumulators, symbol: string)
    requires AllSum(accs, EventsOf(Persisted(drains).Values))
    ensures ClosedOf(accs, symbol) == |GroupsOfSymbol(AllGroups(drains), symbol)|
  {
    PersistedGroups(drains);
    EventsPerSymbol(Persisted(drains).Values, symbol);
    HasEvents(EventsOf(Persisted(drains).Values), symbol);
  }

  /** A restart is invisible exactly when no (symbol, exit time) group is split across drains. */
  lemma RestartIsInvisibleExactly(drains: seq<seq<FleetTrade>>, rows: seq<HistoryRow>)
    requires forall symbol :: Counted(drains, symbol) <= U32_MAX
    requires AnswersQuery(rows, EventsOf(Persisted(drains).Values))
    ensures RestoreRows(rows) == InProcess(drains) <==> NoGroupIsSplit(drains)
  {
    var events := EventsOf(Persisted(drains).Values);
    StoredIsSmall(drains);
    RestoreIsAggregate(rows, events);
    if NoGroupIsSplit(drains) {
      UnsplitFolds(drains);
      IncrementalIsAggregate(events);
      AggregateIsUnique(RestoreRows(rows), InProcess(drains), events);
    } else {
      var symbol := SplitIsOvercounted(drains);
      InProcessCounts(drains, symbol);
      RestoredCounts(drains, RestoreRows(rows), symbol);
    }
  }

  // ---- the query always has an answer ------------------------------------------------------------------------

  lemma RowFor(events: set<CandidateEvent>, symbol: string) returns (row: HistoryRow)
    requires symbol in Symbols(events)
    ensures row.symbol == symbol && Aggregates(row, OfSymbol(events, symbol))
  {
    var own := OfSymbol(events, symbol);
    HasEvents(events, symbol);
    var e :| e in own;
    assert e.firstObservedTsMs in FirstTimes(own);
    row := HistoryRow(symbol, Truncate(|own|), Truncate(|Winners(own)|), Truncate(|Losers(own)|),
                      SumOf(own, EventPnl), Some(MinOf(FirstTimes(own))));
  }

  lemma AddRow(row: HistoryRow, rows: seq<HistoryRow>, symbols: set<string>, events: set<CandidateEvent>)
    requires RowsOf(rows, symbols, events) && row.symbol !in symbols && Aggregates(row, OfSymbol(events, row.symbol))
    ensures RowsOf([row] + rows, symbols + {row.symbol}, events)
  {
    var more := [row] + rows;
    assert row in more && forall r :: r in more <==> r == row || r in rows;
    assert forall k :: 0 <= k < |rows| ==> rows[k] in rows;
  }

  lemma {:induction false} RowsFor(events: set<CandidateEvent>, symbols: set<string>) returns (rows: seq<HistoryRow>)
    requires symbols <= Symbols(events)
    ensures RowsOf(rows, symbols, events)
    decreases |symbols|
  {
    if symbols == {} {
      rows := [];
    } else {
      var symbol :| symbol in symbols;
      var rest := RowsFor(events, symbols - {symbol});
      var row := RowFor(events, symbol);
      AddRow(row, rest, symbols - {symbol}, events);
      assert symbols - {symbol} + {symbol} == symbols;
      rows := [row] + rest;
    }
  }

  /** Whatever is stored, the history query has an answer. */
  lemma QueryHasAnswer(events: set<CandidateEvent>) returns (rows: seq<HistoryRow>)
    ensures AnswersQuery(rows, events)
  {
    rows := RowsFor(events, Symbols(events));
  }

  // ---- a restart that shows ------------------------------------------------------------------------------------

  /** Two trades of different configurations with one symbol and one exit time. */
  const EARLY: FleetTrade := FleetTrade(1, "BTCUSDT", None, 100, 1_000, 0.4, false)
  const LATE: FleetTrade := FleetTrade(2, "BTCUSDT", None, 90, 1_000, -0.2, false)

  lemma OneGroup(t: FleetTrade)
    ensures Groups(Elements([t])) == {GroupOf(t)}
    ensures GroupsOfSymbol(Groups(Elements([t])), t.symbol) == {GroupOf(t)}
  {
    assert Elements([t]) == {t};
  }

  lemma SplitCounts(t: FleetTrade, u: FleetTrade, symbol: string)
    requires GroupOf(t) == GroupOf(u)
    ensures Counted([[t], [u]], symbol) == if symbol == t.symbol then 2 else 0
    ensures |GroupsOfSymbol(AllGroups([[t], [u]]), symbol)| == if symbol == t.symbol then 1 else 0
  {
    var drains := [[t], [u]];
    assert drains[..1] == [[t]] && [[t]][..0] == [];
    OneGroup(t);
    OneGroup(u);
    var g := GroupOf(t);
    assert AllGroups([[t]]) == {} + {g};
    assert AllGroups(drains) == AllGroups([[t]]) + {g} == {g};
    assert GroupsOfSymbol({g}, symbol) == if symbol == t.symbol then {g} else {};
    var none: seq<seq<FleetTrade>> := [];
    assert Counted(none, symbol) == 0;
    assert Counted([[t]], symbol) == Counted([[t]][..0], symbol) + |GroupsOfSymbol(Groups(Elements([t])), symbol)|;
    assert Counted(drains, symbol) == Counted(drains[..1], symbol) + |GroupsOfSymbol(Groups(Elements([u])), symbol)|;
  }

  /** The two trades in one drain each: the running process counts two closed events, the restored one a single
      event. */
  lemma SplitGroupShows() returns (rows: seq<HistoryRow>)
    ensures AnswersQuery(rows, EventsOf(Persisted([[EARLY], [LATE]]).Values))
    ensures ClosedOf(InProcess([[EARLY], [LATE]]), "BTCUSDT") == 2
    ensures ClosedOf(RestoreRows(rows), "BTCUSDT") == 1
    ensures RestoreRows(rows) != InProcess([[EARLY], [LATE]])
  {
    var drains := [[EARLY], [LATE]];
    rows := QueryHasAnswer(EventsOf(Persisted(drains).Values));
    forall symbol ensures Counted(drains, symbol) <= 2 {
      SplitCounts(EARLY, LATE, symbol);
    }
    SplitCounts(EARLY, LATE, "BTCUSDT");
    InProcessCounts(drains, "BTCUSDT");
    StoredIsSmall(drains);
    RestoreIsAggregate(rows, EventsOf(Persisted(drains).Values));
    RestoredCounts(drains, RestoreRows(rows), "BTCUSDT");
  }

  /** The class computes `InProcess`: handling one more drain extends it by that drain. */
  method HandleNextDrain(stats: CandidateStats, ghost before: seq<seq<FleetTrade>>, drained: seq<FleetTrade>)
    requires stats.accumulators == InProcess(before)
    modifies stats
    ensures stats.accumulators == InProcess(before + [drained])
  {
    stats.ObserveDrain(drained, None);
    NoRunKeepsAll(Cleaned(drained));
    assert (before + [drained])[..|before|] == before;
  }
}
