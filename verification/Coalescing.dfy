/** Dense symbol ids, last-wins coalescing of a batch of quotes, and the strategy's books. */
module Coalescing {
  import opened FleetTrades
  import opened FirstSeenOrder

  // ---- symbol ids -------------------------------------------------------------------------------------------

  /** Ids are 16 bits wide. */
  const MAX_STRATEGY_SYMBOLS: nat := 65_536

  datatype IdPairs =
    | Pairs(pairs: seq<(string, nat)>)
    | CapacityExceeded(uniqueSymbols: nat, maxSymbols: nat)

  /** Ids are dense and handed out in first-seen order, so they are injective in both directions; the
      universe is refused exactly when it has more distinct symbols than ids. */
  method BuildStrategySymbolIdPairs(symbols: seq<string>) returns (r: IdPairs)
    ensures r.Pairs? <==> |FirstSeen(symbols)| <= 65_536
    ensures r.Pairs? ==> |r.pairs| == |FirstSeen(symbols)|
    ensures r.Pairs? ==> forall k :: 0 <= k < |FirstSeen(symbols)| && k < |r.pairs| ==>
                                       r.pairs[k] == (FirstSeen(symbols)[k], k)
    ensures r.CapacityExceeded? ==> r == CapacityExceeded(65_537, 65_536)
  {
    var pairs: seq<(string, nat)> := [];
    var seen: map<string, nat> := map[];
    var nextSymbolId := 0;
    for n := 0 to |symbols|
      invariant |pairs| == |FirstSeen(symbols[..n])| == nextSymbolId <= MAX_STRATEGY_SYMBOLS
      invariant forall k :: 0 <= k < |pairs| ==> pairs[k] == (FirstSeen(symbols[..n])[k], k)
      invariant forall s :: s in seen <==> s in FirstSeen(symbols[..n])
    {
      assert symbols[..n + 1][..n] == symbols[..n];
      var key := symbols[n];
      if key in seen { continue; }
      if nextSymbolId >= MAX_STRATEGY_SYMBOLS {
        FirstSeenPrefix(symbols, n + 1);
        return CapacityExceeded(nextSymbolId + 1, MAX_STRATEGY_SYMBOLS);
      }
      seen := seen[key := nextSymbolId];
      pairs := pairs + [(key, nextSymbolId)];
      nextSymbolId := nextSymbolId + 1;
    }
    assert symbols[..|symbols|] == symbols;
    return Pairs(pairs);
  }

  /** The map built from the pairs: every symbol of the universe has an id and no two share one. */
  method BuildStrategySymbolIdMap(symbols: seq<string>) returns (refused: bool, ids: map<string, nat>)
    ensures refused <==> |FirstSeen(symbols)| > 65_536
    ensures !refused ==> (forall s :: s in ids <==> s in symbols) && Injective(ids)
    ensures !refused ==> forall s :: s in ids ==> ids[s] < |FirstSeen(symbols)| && FirstSeen(symbols)[ids[s]] == s
  {
    ids := map[];
    var r := BuildStrategySymbolIdPairs(symbols);
    if r.CapacityExceeded? { return true, ids; }
    FirstSeenExact(symbols);
    for n := 0 to |r.pairs|
      invariant forall s :: s in ids ==> ids[s] < n && FirstSeen(symbols)[ids[s]] == s
      invariant forall k :: 0 <= k < n ==> FirstSeen(symbols)[k] in ids
    {
      var (symbol, symbolId) := r.pairs[n];
      ids := ids[symbol := symbolId];
    }
    refused := false;
  }

  ghost predicate Injective(ids: map<string, nat>) {
    forall a, b :: a in ids && b in ids && ids[a] == ids[b] ==> a == b
  }

  // ---- coalescing ---------------------------------------------------------------------------------------------

  /** The id a ticker carries was resolved when it was parsed, if its symbol has one. */
  datatype Ticker = Ticker(symbol: string, strategySymbolId: Option<nat>, quote: int)

  /** What a ticker contributes to a strategy batch. */
  function Resolve(t: Ticker): Option<(nat, Ticker)> {
    if t.strategySymbolId.Some? then Some((t.strategySymbolId.value, t)) else None
  }

  function ResolveAll(batch: seq<Ticker>): seq<Option<(nat, Ticker)>> {
    seq(|batch|, i requires 0 <= i < |batch| => Resolve(batch[i]))
  }

  /** The items that are there. */
  function Present<T>(items: seq<Option<T>>): seq<T> {
    if items == [] then []
    else
      var before, last := Present(items[..|items| - 1]), items[|items| - 1];
      if last.Some? then before + [last.value] else before
  }

  function Keys<K(==), V>(items: seq<(K, V)>): seq<K> {
    seq(|items|, i requires 0 <= i < |items| => items[i].0)
  }

  /** `out` has one entry per key of `items`, in first-seen order, each the last of its key. */
  ghost predicate LastWins<K, V>(items: seq<(K, V)>, out: seq<(K, V)>) {
    && Keys(out) == FirstSeen(Keys(items))
    && forall k :: 0 <= k < |out| ==> IsLast(items, out[k])
  }

  ghost predicate IsLast<K, V>(items: seq<(K, V)>, e: (K, V)) {
    exists i :: 0 <= i < |items| && items[i] == e && forall j :: i < j < |items| ==> items[j].0 != e.0
  }

  /** The coalescing loop both the strategy and the screener run on a batch; items without a key are
      skipped. */
  method CoalesceLastWins<K(==), V>(items: seq<Option<(K, V)>>) returns (keys: seq<K>, latest: seq<(K, V)>)
    ensures LastWins(Present(items), latest) && keys == Keys(latest)
  {
    keys, latest := [], [];
    var positions: map<K, nat> := map[];
    for n := 0 to |items|
      invariant LastWins(Present(items[..n]), latest) && keys == Keys(latest)
      invariant forall k :: k in positions <==> k in keys
      invariant forall k :: k in positions ==> positions[k] < |latest| && latest[positions[k]].0 == k
    {
      assert items[..n + 1][..n] == items[..n];
      if items[n].None? { continue; }
      var item := items[n].value;
      if item.0 in positions {
        var idx := positions[item.0];
        OverwriteLatest(Present(items[..n]), latest, item, idx);
        latest := latest[idx := item];
      } else {
        AppendLatest(Present(items[..n]), latest, item);
        positions := positions[item.0 := |latest|];
        keys := keys + [item.0];
        latest := latest + [item];
      }
    }
    assert items[..|items|] == items;
  }

  lemma StillLast<K, V>(items: seq<(K, V)>, e: (K, V), new': (K, V))
    requires IsLast(items, e) && e.0 != new'.0
    ensures IsLast(items + [new'], e)
  {
    var i :| 0 <= i < |items| && items[i] == e && forall j :: i < j < |items| ==> items[j].0 != e.0;
    assert (items + [new'])[i] == e;
  }

  lemma NowLast<K, V>(items: seq<(K, V)>, e: (K, V))
    ensures IsLast(items + [e], e)
  {
    assert (items + [e])[|items|] == e;
  }

  lemma {:induction false} OverwriteLatest<K, V>(items: seq<(K, V)>, latest: seq<(K, V)>, e: (K, V), idx: nat)
    requires LastWins(items, latest) && idx < |latest| && latest[idx].0 == e.0
    ensures LastWins(items + [e], latest[idx := e]) && Keys(latest[idx := e]) == Keys(latest)
  {
    KeysSnoc(items, e);
    FirstSeenExact(Keys(items));
    NowLast(items, e);
    assert Keys(latest)[idx] == e.0;
    assert Keys(latest[idx := e]) == Keys(latest);
    var now := latest[idx := e];
    forall k | 0 <= k < |now| ensures IsLast(items + [e], now[k]) {
      if k != idx {
        assert Keys(latest)[k] != Keys(latest)[idx];
        StillLast(items, latest[k], e);
      }
    }
  }

  lemma {:induction false} AppendLatest<K, V>(items: seq<(K, V)>, latest: seq<(K, V)>, e: (K, V))
    requires LastWins(items, latest) && e.0 !in Keys(latest)
    ensures LastWins(items + [e], latest + [e]) && Keys(latest + [e]) == Keys(latest) + [e.0]
  {
    KeysSnoc(items, e);
    KeysSnoc(latest, e);
    NowLast(items, e);
    forall k | 0 <= k < |latest| ensures IsLast(items + [e], (latest + [e])[k]) {
      assert Keys(latest)[k] in Keys(latest);
      StillLast(items, latest[k], e);
    }
  }

  lemma KeysSnoc<K, V>(items: seq<(K, V)>, e: (K, V))
    ensures Keys(items + [e]) == Keys(items) + [e.0]
    ensures FirstSeen(Keys(items + [e])) ==
            if e.0 in FirstSeen(Keys(items)) then FirstSeen(Keys(items)) else FirstSeen(Keys(items)) + [e.0]
  {
    assert (Keys(items) + [e.0])[..|items|] == Keys(items);
    assert Keys(items + [e]) == Keys(items) + [e.0];
  }

  // ---- books --------------------------------------------------------------------------------------------------

  type Books = map<string, Ticker>

  /** Updating a book with tickers in order: the latest per symbol stays. */
  function Book(books: Books, updates: seq<(nat, Ticker)>): Books {
    if updates == [] then books
    else
      var t := updates[|updates| - 1].1;
      Book(books, updates[..|updates| - 1])[t.symbol := t]
  }

  /** Every resolved ticker carries the id its symbol has in an injective assignment. */
  ghost predicate WellIdentified(updates: seq<(nat, Ticker)>, ids: map<string, nat>) {
    && Injective(ids)
    && forall k :: 0 <= k < |updates| ==> updates[k].1.symbol in ids && updates[k].0 == ids[updates[k].1.symbol]
  }

  lemma {:induction false} BookUntouched(books: Books, updates: seq<(nat, Ticker)>, symbol: string)
    requires forall k :: 0 <= k < |updates| ==> updates[k].1.symbol != symbol
    ensures symbol in Book(books, updates) <==> symbol in books
    ensures symbol in books ==> Book(books, updates)[symbol] == books[symbol]
  {
    if updates != [] {
      BookUntouched(books, updates[..|updates| - 1], symbol);
    }
  }

  lemma {:induction false} BookLast(books: Books, updates: seq<(nat, Ticker)>, i: nat)
    requires i < |updates|
    requires forall j :: i < j < |updates| ==> updates[j].1.symbol != updates[i].1.symbol
    ensures updates[i].1.symbol in Book(books, updates) && Book(books, updates)[updates[i].1.symbol] == updates[i].1
  {
    if i < |updates| - 1 {
      BookLast(books, updates[..|updates| - 1], i);
    }
  }

  /** Applying the coalesced batch leaves the same books as applying every resolved ticker in order. */
  lemma CoalescingPreservesBooks(books: Books, updates: seq<(nat, Ticker)>, latest: seq<(nat, Ticker)>,
                                 ids: map<string, nat>)
    requires LastWins(updates, latest) && WellIdentified(updates, ids)
    ensures Book(books, latest) == Book(books, updates)
  {
    FirstSeenExact(Keys(updates));
    forall symbol: string
      ensures symbol in Book(books, latest) <==> symbol in Book(books, updates)
      ensures symbol in Book(books, latest) ==> Book(books, latest)[symbol] == Book(books, updates)[symbol]
    {
      if k :| 0 <= k < |latest| && latest[k].1.symbol == symbol {
        SameEntry(books, updates, latest, ids, k);
      } else {
        BookUntouched(books, latest, symbol);
        forall i | 0 <= i < |updates| ensures updates[i].1.symbol != symbol {
          assert Keys(updates)[i] in Keys(latest);
          var k :| 0 <= k < |latest| && Keys(latest)[k] == updates[i].0;
          assert latest[k].0 == updates[i].0 && IsLast(updates, latest[k]);
        }
        BookUntouched(books, updates, symbol);
      }
    }
  }

  lemma SameEntry(books: Books, updates: seq<(nat, Ticker)>, latest: seq<(nat, Ticker)>, ids: map<string, nat>, k: nat)
    requires LastWins(updates, latest) && WellIdentified(updates, ids) && AllDistinct(FirstSeen(Keys(updates)))
    requires k < |latest|
    ensures var symbol := latest[k].1.symbol;
            && symbol in Book(books, latest) && symbol in Book(books, updates)
            && Book(books, latest)[symbol] == Book(books, updates)[symbol]
  {
    var i :| 0 <= i < |updates| && updates[i] == latest[k]
             && forall j :: i < j < |updates| ==> updates[j].0 != latest[k].0;
    BookLast(books, updates, i);
    forall j | k < j < |latest| ensures latest[j].1.symbol != latest[k].1.symbol {
      assert Keys(latest)[j] != Keys(latest)[k];
      assert IsLast(updates, latest[j]);
    }
    BookLast(books, latest, k);
  }

  lemma {:induction false} PresentAreItems<T>(items: seq<Option<T>>)
    ensures forall x :: x in Present(items) ==> Some(x) in items
  {
    if items != [] {
      PresentAreItems(items[..|items| - 1]);
      assert items == items[..|items| - 1] + [items[|items| - 1]];
    }
  }

  /** One more ticker in a batch: it is resolved if it carries an id, to that id, and skipped if it carries none. */
  lemma ResolvedExact(batch: seq<Ticker>, t: Ticker)
    ensures Present(ResolveAll(batch + [t])) ==
            Present(ResolveAll(batch)) + if t.strategySymbolId.Some? then [(t.strategySymbolId.value, t)] else []
  {
    assert ResolveAll(batch + [t])[..|batch|] == ResolveAll(batch);
  }

  /** The same for a batch whose tickers carry the ids of an injective assignment. */
  lemma BatchPreservesBooks(books: Books, batch: seq<Ticker>, latest: seq<(nat, Ticker)>, ids: map<string, nat>)
    requires LastWins(Present(ResolveAll(batch)), latest) && Injective(ids)
    requires forall t :: t in batch && t.strategySymbolId.Some? ==>
                           t.symbol in ids && t.strategySymbolId.value == ids[t.symbol]
    ensures Book(books, latest) == Book(books, Present(ResolveAll(batch)))
  {
    var updates := Present(ResolveAll(batch));
    PresentAreItems(ResolveAll(batch));
    forall k | 0 <= k < |updates| ensures updates[k].1.symbol in ids && updates[k].0 == ids[updates[k].1.symbol] {
      assert Some(updates[k]) in ResolveAll(batch);
      var i :| 0 <= i < |batch| && ResolveAll(batch)[i] == Some(updates[k]);
      assert batch[i] in batch && Resolve(batch[i]) == Some(updates[k]);
    }
    CoalescingPreservesBooks(books, updates, latest, ids);
  }
}
