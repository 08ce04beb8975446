/** A drain of closed trades on its way to the portfolio code: sorted, deduplicated by natural key, filtered
    by run, and collapsed into one candidate event per symbol and exit time. */
module DrainedTrades {
  import opened FleetTrades
  import opened Ranking

  // ---- sorting ------------------------------------------------------------------------------------------

  function DrainCmp(l: FleetTrade, r: FleetTrade): Ordering {
    Then(CmpString(l.symbol, r.symbol),
    Then(CmpInt(l.tsMs, r.tsMs),
    Then(CmpInt(l.entryTsMs, r.entryTsMs),
         CmpInt(l.configId, r.configId))))
  }

  predicate Before(l: FleetTrade, r: FleetTrade) {
    DrainCmp(l, r) != Greater
  }

  lemma SameKey(a: FleetTrade, b: FleetTrade)
    ensures Before(a, b) || Before(b, a)
    ensures Before(a, b) && Before(b, a) <==> Key(a) == Key(b)
  {
    StringOrder(a.symbol, b.symbol, a.symbol);
    StringOrder(b.symbol, a.symbol, b.symbol);
  }

  lemma SymbolsTransitive(a: string, b: string, c: string)
    requires CmpString(a, b) != Greater && CmpString(b, c) != Greater
    ensures CmpString(a, c) == if a == b && b == c then Equal else Less
  {
    StringOrder(a, b, c);
    StringOrder(b, c, a);
    StringOrder(c, a, b);
    StringOrder(c, b, a);
    StringOrder(a, c, b);
  }

  lemma BeforeTransitive(a: FleetTrade, b: FleetTrade, c: FleetTrade)
    requires Before(a, b) && Before(b, c)
    ensures Before(a, c)
  {
    StringOrder(a.symbol, b.symbol, c.symbol);
    StringOrder(b.symbol, c.symbol, a.symbol);
    SymbolsTransitive(a.symbol, b.symbol, c.symbol);
  }

  function InsertTrade(x: FleetTrade, s: seq<FleetTrade>): seq<FleetTrade> {
    if s == [] || Before(x, s[0]) then [x] + s else [s[0]] + InsertTrade(x, s[1..])
  }

  /** The stable sort of a drain. */
  function SortDrain(s: seq<FleetTrade>): seq<FleetTrade> {
    if s == [] then [] else InsertTrade(s[0], SortDrain(s[1..]))
  }

  predicate InOrder(s: seq<FleetTrade>) {
    forall i, j :: 0 <= i < j < |s| ==> Before(s[i], s[j])
  }

  /** The trades with natural key `k`, in order. */
  function ByKey(s: seq<FleetTrade>, k: NaturalKey): seq<FleetTrade> {
    if s == [] then [] else (if Key(s[0]) == k then [s[0]] else []) + ByKey(s[1..], k)
  }

  lemma {:induction false} InsertTradeKeeps(x: FleetTrade, s: seq<FleetTrade>, k: NaturalKey)
    ensures forall y :: y in InsertTrade(x, s) <==> y == x || y in s
    ensures ByKey(InsertTrade(x, s), k) == ByKey([x] + s, k)
  {
    assert ([x] + s)[1..] == s;
    if s != [] && !Before(x, s[0]) {
      InsertTradeKeeps(x, s[1..], k);
      SameKey(x, s[0]);
      assert s == [s[0]] + s[1..];
      assert ([x] + s[1..])[1..] == s[1..];
    }
  }

  lemma {:induction false} InsertTradeOrder(x: FleetTrade, s: seq<FleetTrade>)
    requires InOrder(s)
    ensures InOrder(InsertTrade(x, s))
  {
    if s == [] {
    } else if Before(x, s[0]) {
      forall j | 0 <= j < |s| ensures Before(x, s[j]) {
        if j > 0 { BeforeTransitive(x, s[0], s[j]); }
      }
    } else {
      InsertTradeOrder(x, s[1..]);
      InsertTradeKeeps(x, s[1..], Key(x));
      SameKey(x, s[0]);
      HeadFirst(s[0], s[1..], x, InsertTrade(x, s[1..]));
    }
  }

  lemma HeadFirst(h: FleetTrade, s: seq<FleetTrade>, x: FleetTrade, rest: seq<FleetTrade>)
    requires InOrder([h] + s) && InOrder(rest) && Before(h, x)
    requires forall y :: y in rest <==> y == x || y in s
    ensures InOrder([h] + rest)
  {
    forall j | 0 <= j < |rest| ensures Before(h, rest[j]) {
      assert rest[j] in rest;
      if rest[j] in s {
        var i :| 0 <= i < |s| && s[i] == rest[j];
        assert Before(([h] + s)[0], ([h] + s)[i + 1]);
      }
    }
  }

  /** Sorting orders the drain, keeps its trades and keeps trades with the same natural key in their order. */
  lemma {:induction false} SortDrainExact(s: seq<FleetTrade>, k: NaturalKey)
    ensures InOrder(SortDrain(s)) && ByKey(SortDrain(s), k) == ByKey(s, k)
    ensures forall y :: y in SortDrain(s) <==> y in s
  {
    if s != [] {
      SortDrainExact(s[1..], k);
      InsertTradeOrder(s[0], SortDrain(s[1..]));
      InsertTradeKeeps(s[0], SortDrain(s[1..]), k);
      assert ([s[0]] + SortDrain(s[1..]))[1..] == SortDrain(s[1..]);
      assert s == [s[0]] + s[1..];
    }
  }

  /** In a sorted drain each symbol's trades come in the order of their exit times, as the guards assume. */
  lemma SortedIsChronological(s: seq<FleetTrade>, i: nat, j: nat)
    requires InOrder(s) && i < j < |s| && s[i].symbol == s[j].symbol
    ensures s[i].tsMs <= s[j].tsMs
    ensures forall k :: i <= k <= j ==> s[k].symbol == s[i].symbol
  {
    StringOrder(s[i].symbol, s[j].symbol, s[i].symbol);
    forall k | i < k < j ensures s[k].symbol == s[i].symbol {
      assert Before(s[i], s[k]) && Before(s[k], s[j]);
      SymbolsTransitive(s[i].symbol, s[k].symbol, s[j].symbol);
    }
  }

  // ---- deduplication --------------------------------------------------------------------------------------

  /** Keep a trade unless its natural key is that of the trade just before it. */
  function DedupeAdjacent(s: seq<FleetTrade>): seq<FleetTrade> {
    if s == [] then []
    else
      var n := |s| - 1;
      if n > 0 && Key(s[n]) == Key(s[n - 1]) then DedupeAdjacent(s[..n]) else DedupeAdjacent(s[..n]) + [s[n]]
  }

  method DedupeDrainedTrades(s: seq<FleetTrade>) returns (deduped: seq<FleetTrade>)
    ensures deduped == DedupeAdjacent(s)
    ensures InOrder(s) ==> InOrder(deduped)
  {
    if InOrder(s) {
      DedupeInOrder(s);
    }
    if |s| < 2 {
      assert |s| == 1 ==> s[..0] == [];
      return s;
    }
    deduped := [];
    var lastKey: Option<NaturalKey> := None;
    for n := 0 to |s|
      invariant deduped == DedupeAdjacent(s[..n])
      invariant lastKey == if n == 0 then None else Some(Key(s[n - 1]))
    {
      assert s[..n + 1][..n] == s[..n];
      var key := Key(s[n]);
      if lastKey == Some(key) { continue; }
      lastKey := Some(key);
      deduped := deduped + [s[n]];
    }
    assert s[..|s|] == s;
  }

  predicate DistinctKeys(s: seq<FleetTrade>) {
    forall i, j :: 0 <= i < j < |s| ==> Key(s[i]) != Key(s[j])
  }

  lemma {:induction false} ByKeySnoc(s: seq<FleetTrade>, x: FleetTrade, k: NaturalKey)
    ensures ByKey(s + [x], k) == ByKey(s, k) + (if Key(x) == k then [x] else [])
  {
    if s == [] {
      assert ([] + [x])[1..] == [];
    } else {
      assert (s + [x])[1..] == s[1..] + [x];
      ByKeySnoc(s[1..], x, k);
    }
  }

  lemma {:induction false} ByKeyEmpty(s: seq<FleetTrade>, k: NaturalKey)
    ensures ByKey(s, k) == [] <==> forall t :: t in s ==> Key(t) != k
    ensures forall t :: t in ByKey(s, k) ==> t in s && Key(t) == k
  {
    if s != [] {
      ByKeyEmpty(s[1..], k);
      assert s == [s[0]] + s[1..];
    }
  }

  /** The first of its natural key in `s`. */
  predicate IsFirst(s: seq<FleetTrade>, t: FleetTrade) {
    ByKey(s, Key(t)) != [] && ByKey(s, Key(t))[0] == t
  }

  ghost predicate DedupeOf(s: seq<FleetTrade>, d: seq<FleetTrade>) {
    && DistinctKeys(d)
    && (forall t :: t in d ==> IsFirst(s, t))
    && (forall t :: t in s ==> exists r :: r in d && Key(r) == Key(t))
  }

  lemma StillFirst(s: seq<FleetTrade>, x: FleetTrade, t: FleetTrade)
    requires IsFirst(s, t)
    ensures IsFirst(s + [x], t)
  {
    ByKeySnoc(s, x, Key(t));
  }

  lemma DedupeSame(s: seq<FleetTrade>, x: FleetTrade, d: seq<FleetTrade>)
    requires DedupeOf(s, d) && s != [] && Key(s[|s| - 1]) == Key(x)
    ensures DedupeOf(s + [x], d)
  {
    forall t | t in d ensures IsFirst(s + [x], t) {
      StillFirst(s, x, t);
    }
    assert s[|s| - 1] in s;
  }

  lemma DedupeNew(s: seq<FleetTrade>, x: FleetTrade, d: seq<FleetTrade>)
    requires DedupeOf(s, d) && forall t :: t in s ==> Key(t) != Key(x)
    ensures DedupeOf(s + [x], d + [x])
  {
    ByKeyEmpty(s, Key(x));
    ByKeySnoc(s, x, Key(x));
    forall t | t in d ensures IsFirst(s + [x], t) && Key(t) != Key(x) {
      StillFirst(s, x, t);
      ByKeyEmpty(s, Key(t));
      assert t in ByKey(s, Key(t));
    }
    assert forall k :: 0 <= k < |d| ==> d[k] in d;
    forall t | t in s + [x] ensures exists r :: r in d + [x] && Key(r) == Key(t) {
      if t in s {
        var r :| r in d && Key(r) == Key(t);
        assert r in d + [x];
      } else {
        assert x in d + [x];
      }
    }
  }

  lemma LastKeyIsFresh(s: seq<FleetTrade>, n: nat, i: nat)
    requires InOrder(s) && i < n == |s| - 1 && Key(s[n]) != Key(s[n - 1])
    ensures Key(s[i]) != Key(s[n])
  {
    if Key(s[i]) == Key(s[n]) {
      SameKey(s[i], s[n]);
      BeforeTransitive(s[n], s[i], s[n - 1]);
      SameKey(s[n - 1], s[n]);
    }
  }

  lemma {:induction false} DedupeSorted(s: seq<FleetTrade>)
    requires InOrder(s)
    ensures DedupeOf(s, DedupeAdjacent(s))
  {
    if s != [] {
      var n := |s| - 1;
      var init, x := s[..n], s[n];
      DedupeSorted(init);
      assert s == init + [x];
      if n > 0 && Key(x) == Key(s[n - 1]) {
        DedupeSame(init, x, DedupeAdjacent(init));
      } else {
        forall t | t in init ensures Key(t) != Key(x) {
          var i :| 0 <= i < n && init[i] == t;
          LastKeyIsFresh(s, n, i);
        }
        DedupeNew(init, x, DedupeAdjacent(init));
      }
    }
  }

  /** What reaches the writer and the portfolio code out of a drain. */
  function Cleaned(drain: seq<FleetTrade>): seq<FleetTrade> {
    DedupeAdjacent(SortDrain(drain))
  }

  /** Exactly one trade per natural key of the drain is kept, and it is the one drained first. */
  lemma CleanedExact(drain: seq<FleetTrade>)
    ensures DedupeOf(drain, Cleaned(drain))
  {
    var sorted := SortDrain(drain);
    SortDrainExact(drain, NaturalKey(0, [], 0, 0));
    DedupeSorted(sorted);
    forall t | t in Cleaned(drain) ensures IsFirst(drain, t) {
      SortDrainExact(drain, Key(t));
    }
  }

  /** What is kept of a sorted drain stays in order. */
  lemma {:induction false} DedupeInOrder(s: seq<FleetTrade>)
    requires InOrder(s)
    ensures InOrder(DedupeAdjacent(s)) && forall t :: t in DedupeAdjacent(s) ==> t in s
  {
    if s != [] {
      var n := |s| - 1;
      var init, x := s[..n], s[n];
      DedupeInOrder(init);
      assert s == init + [x];
      forall t | t in init ensures Before(t, x) {
        var i :| 0 <= i < n && s[i] == t;
      }
      assert forall k :: 0 <= k < |DedupeAdjacent(init)| ==> DedupeAdjacent(init)[k] in init;
    }
  }

  /** Of two trades that are kept, the first has the symbol that comes first or, of one symbol, left no later or, at
      one time, was entered no later or, if so at one time too, has the smaller configuration. */
  lemma CleanedInOrder(drain: seq<FleetTrade>, i: nat, j: nat)
    requires i < j < |Cleaned(drain)|
    ensures InOrder(Cleaned(drain))
    ensures var a, b := Cleaned(drain)[i], Cleaned(drain)[j];
            if a.symbol != b.symbol then Precedes(a.symbol, b.symbol)
            else if a.tsMs != b.tsMs then a.tsMs < b.tsMs
            else if a.entryTsMs != b.entryTsMs then a.entryTsMs < b.entryTsMs
            else a.configId < b.configId
  {
    CleanedIsInOrder(drain);
    CleanedExact(drain);
    var a, b := Cleaned(drain)[i], Cleaned(drain)[j];
    assert Before(a, b) && Key(a) != Key(b);
    StringOrder(a.symbol, b.symbol, a.symbol);
    StringOrderExact(a.symbol, b.symbol);
  }

  lemma CleanedIsInOrder(drain: seq<FleetTrade>)
    ensures InOrder(Cleaned(drain))
  {
    SortDrainExact(drain, NaturalKey(0, [], 0, 0));
    DedupeInOrder(SortDrain(drain));
  }

  // ---- run filter -----------------------------------------------------------------------------------------

  function FilterActiveRun(s: seq<FleetTrade>, run: Option<string>): seq<FleetTrade> {
    if s == [] then []
    else (if run.None? || s[0].runId == run then [s[0]] else []) + FilterActiveRun(s[1..], run)
  }

  lemma {:induction false} NoRunKeepsAll(s: seq<FleetTrade>)
    ensures FilterActiveRun(s, None) == s
  {
    if s != [] {
      NoRunKeepsAll(s[1..]);
    }
  }

  /** The filter keeps exactly the trades of the active run and repeats no key. */
  lemma {:induction false} FilterKeepsDistinct(s: seq<FleetTrade>, run: Option<string>)
    requires DistinctKeys(s)
    ensures DistinctKeys(FilterActiveRun(s, run))
    ensures forall t :: t in FilterActiveRun(s, run) <==> t in s && (run.None? || t.runId == run)
  {
    if s != [] {
      assert DistinctKeys(s[1..]);
      FilterKeepsDistinct(s[1..], run);
      var rest := FilterActiveRun(s[1..], run);
      forall j | 0 <= j < |rest| ensures Key(rest[j]) != Key(s[0]) {
        assert rest[j] in rest;
        var i :| 0 <= i < |s[1..]| && s[1..][i] == rest[j];
        assert s[i + 1] == rest[j];
      }
      assert s == [s[0]] + s[1..];
    }
  }

  /** The filter keeps the order. */
  lemma {:induction false} FilterInOrder(s: seq<FleetTrade>, run: Option<string>)
    requires InOrder(s)
    ensures InOrder(FilterActiveRun(s, run)) && forall t :: t in FilterActiveRun(s, run) ==> t in s
  {
    if s != [] {
      var rest := FilterActiveRun(s[1..], run);
      FilterInOrder(s[1..], run);
      assert s == [s[0]] + s[1..];
      forall j | 0 <= j < |rest| ensures Before(s[0], rest[j]) {
        assert rest[j] in s[1..];
        var i :| 0 <= i < |s[1..]| && s[1..][i] == rest[j];
        assert s[i + 1] == rest[j];
      }
    }
  }
}
