/** How a ranked pool of symbols is dealt to the portfolios: shortlists round by round, then active symbols
    out of the shortlists. */
module Allocation {
  import opened Numbers
  import opened FirstSeenOrder

  const SHORTLIST_SIZE: nat := 5
  const MAX_ACTIVE_SYMBOLS: nat := 4

  // ---- portfolio ids ----------------------------------------------------------------------------------------

  const DEFAULT_IDS: seq<string> := ["A", "B"]

  /** Unicode white space. */
  predicate Blank(c: char) {
    var n := c as int;
    9 <= n <= 13 || n == 0x20 || n == 0x85 || n == 0xA0 || n == 0x1680 || 0x2000 <= n <= 0x200A
    || n == 0x2028 || n == 0x2029 || n == 0x202F || n == 0x205F || n == 0x3000
  }

  function Trim(s: string): string {
    if s == [] then s
    else if Blank(s[0]) then Trim(s[1..])
    else if Blank(s[|s| - 1]) then Trim(s[..|s| - 1])
    else s
  }

  predicate AllBlank(s: string) {
    forall k :: 0 <= k < |s| ==> Blank(s[k])
  }

  /** `s` is `middle` with white space around it. */
  predicate Around(front: string, middle: string, back: string, s: string) {
    s == front + middle + back && AllBlank(front) && AllBlank(back)
  }

  lemma MoreInFront(front: string, middle: string, back: string, s: string)
    requires s != [] && Blank(s[0]) && Around(front, middle, back, s[1..])
    ensures Around([s[0]] + front, middle, back, s)
  {
    assert s == [s[0]] + s[1..];
  }

  lemma MoreBehind(front: string, middle: string, back: string, s: string)
    requires s != [] && Blank(s[|s| - 1]) && Around(front, middle, back, s[..|s| - 1])
    ensures Around(front, middle, back + [s[|s| - 1]], s)
  {
    assert s == s[..|s| - 1] + [s[|s| - 1]];
  }

  /** Trimming takes off white space at both ends and nothing else. */
  lemma {:induction false} TrimExact(s: string) returns (front: string, back: string)
    ensures Around(front, Trim(s), back, s)
    ensures Trim(s) != [] ==> !Blank(Trim(s)[0]) && !Blank(Trim(s)[|Trim(s)| - 1])
  {
    front, back := [], [];
    if s != [] && Blank(s[0]) {
      front, back := TrimExact(s[1..]);
      MoreInFront(front, Trim(s), back, s);
      front := [s[0]] + front;
    } else if s != [] && Blank(s[|s| - 1]) {
      front, back := TrimExact(s[..|s| - 1]);
      MoreBehind(front, Trim(s), back, s);
      back := back + [s[|s| - 1]];
    }
  }

  /** The ids that are not blank, trimmed, in the order given. */
  function Named(raw: seq<string>): seq<string> {
    if raw == [] then []
    else
      var before, last := Named(raw[..|raw| - 1]), Trim(raw[|raw| - 1]);
      if last == [] then before else before + [last]
  }

  /** They are exactly what trimming leaves of the ids given, nothing excepted. */
  lemma {:induction false} NamedExact(raw: seq<string>, id: string)
    ensures id in Named(raw) <==> id != [] && exists k :: 0 <= k < |raw| && Trim(raw[k]) == id
  {
    if raw != [] {
      var n := |raw| - 1;
      NamedExact(raw[..n], id);
      if k :| 0 <= k < |raw| && Trim(raw[k]) == id {
        if k < n {
          assert raw[..n][k] == raw[k];
        }
      }
    }
  }

  /** Blank ids and repetitions are dropped, the first of each id keeping its place; an empty result is
      replaced by the defaults. */
  method NormalizePortfolioIds(raw: seq<string>) returns (ids: seq<string>)
    ensures ids == if Named(raw) == [] then DEFAULT_IDS else FirstSeen(Named(raw))
    ensures ids != [] && AllDistinct(ids)
  {
    ids := [];
    for n := 0 to |raw|
      invariant ids == FirstSeen(Named(raw[..n]))
    {
      assert raw[..n + 1][..n] == raw[..n];
      var trimmed := Trim(raw[n]);
      if trimmed == [] { continue; }
      ghost var named := Named(raw[..n]);
      assert Named(raw[..n + 1]) == named + [trimmed];
      assert (named + [trimmed])[..|named|] == named;
      if trimmed in ids { continue; }
      ids := ids + [trimmed];
    }
    assert raw[..|raw|] == raw;
    FirstSeenExact(Named(raw));
    if ids == [] {
      assert Named(raw) != [] ==> Named(raw)[0] in FirstSeen(Named(raw));
      ids := DEFAULT_IDS;
    }
  }

  // ---- closed form --------------------------------------------------------------------------------------------

  /** Portfolio `i` of `p` gets every `p`-th symbol of the pool, starting at `i`, for the given number of
      rounds. */
  function Column(pool: seq<string>, p: nat, i: nat, rounds: nat): seq<string> {
    if rounds == 0 then []
    else
      var at := (rounds - 1) * p + i;
      Column(pool, p, i, rounds - 1) + (if at < |pool| then [pool[at]] else [])
  }

  function Shortlist(pool: seq<string>, p: nat, i: nat): seq<string> {
    Column(pool, p, i, SHORTLIST_SIZE)
  }

  function Active(shortlist: seq<string>): seq<string> {
    shortlist[..Min(MAX_ACTIVE_SYMBOLS, |shortlist|)]
  }

  ghost predicate DealtTo(ids: seq<string>, m: map<string, seq<string>>, pool: seq<string>) {
    && m.Keys == (set id | id in ids)
    && forall i :: 0 <= i < |ids| ==> m[ids[i]] == Shortlist(pool, |ids|, i)
  }

  lemma Rows(p: nat, a: nat, b: nat)
    requires a <= b
    ensures a * p <= b * p
    ensures a < b ==> a * p + p <= b * p
  {
    if a < b {
      assert b * p == (b - a - 1) * p + a * p + p;
      assert (b - a - 1) * p >= 0;
    }
  }

  lemma {:induction false} ColumnExact(pool: seq<string>, p: nat, i: nat, rounds: nat)
    requires i < p
    ensures |Column(pool, p, i, rounds)| <= rounds
    ensures forall r :: 0 <= r < |Column(pool, p, i, rounds)| ==>
                          r * p + i < |pool| && Column(pool, p, i, rounds)[r] == pool[r * p + i]
    ensures |Column(pool, p, i, rounds)| < rounds ==> |Column(pool, p, i, rounds)| * p + i >= |pool|
  {
    if rounds > 0 {
      ColumnExact(pool, p, i, rounds - 1);
      var before := Column(pool, p, i, rounds - 1);
      if (rounds - 1) * p + i < |pool| && |before| < rounds - 1 {
        Rows(p, |before|, rounds - 1);
        assert false;
      }
    }
  }

  /** Once a row is past the end of the pool nothing more is dealt. */
  lemma {:induction false} ColumnFull(pool: seq<string>, p: nat, i: nat, r: nat, rounds: nat)
    requires i < p && r <= rounds && r * p + i >= |pool|
    ensures Column(pool, p, i, rounds) == Column(pool, p, i, r)
  {
    if r < rounds {
      Rows(p, r, rounds - 1);
      ColumnFull(pool, p, i, r, rounds - 1);
    }
  }

  // ---- dealing, as the source does it ------------------------------------------------------------------------

  ghost predicate Dealt(ids: seq<string>, m: map<string, seq<string>>, pool: seq<string>, rounds: nat) {
    && m.Keys == (set id | id in ids)
    && forall i :: 0 <= i < |ids| ==> m[ids[i]] == Column(pool, |ids|, i, rounds)
  }

  method BuildShortlistsNoOverlap(ids: seq<string>, pool: seq<string>) returns (shortlists: map<string, seq<string>>)
    requires AllDistinct(ids)
    ensures DealtTo(ids, shortlists, pool)
  {
    shortlists := map id | id in ids :: [];
    if pool == [] {
      EmptyPool(ids);
      return;
    }
    var cursor := 0;
    for round := 0 to SHORTLIST_SIZE
      invariant Dealt(ids, shortlists, pool, round)
      invariant cursor == Min(round * |ids|, |pool|)
    {
      var progressed;
      shortlists, cursor, progressed := DealRound(ids, pool, shortlists, cursor, round);
      assert (round + 1) * |ids| == round * |ids| + |ids|;
      if !progressed {
        AllFull(pool, |ids|, round + 1);
        return;
      }
    }
  }

  /** One round over the portfolios, left early when the pool is used up. */
  method DealRound(ids: seq<string>, pool: seq<string>, before: map<string, seq<string>>, from: nat, round: nat)
    returns (shortlists: map<string, seq<string>>, cursor: nat, progressed: bool)
    requires AllDistinct(ids) && round < SHORTLIST_SIZE
    requires Dealt(ids, before, pool, round) && from == Min(round * |ids|, |pool|)
    ensures Dealt(ids, shortlists, pool, round + 1)
    ensures cursor == Min(round * |ids| + |ids|, |pool|)
    ensures !progressed ==> |ids| == 0 || cursor == |pool|
  {
    shortlists, cursor, progressed := before, from, false;
    var i := 0;
    while i < |ids|
      invariant i <= |ids|
      invariant HalfDealt(ids, shortlists, pool, round, i)
      invariant cursor == Min(round * |ids| + i, |pool|)
      invariant !progressed ==> i == 0 || cursor == |pool|
    {
      ColumnExact(pool, |ids|, i, round);
      if |shortlists[ids[i]]| >= SHORTLIST_SIZE {
        assert false;
      }
      if cursor >= |pool| {
        RestUnchanged(pool, |ids|, round, i);
        return;
      }
      DealOne(ids, shortlists, pool, round, i, cursor);
      shortlists := shortlists[ids[i] := shortlists[ids[i]] + [pool[cursor]]];
      cursor := cursor + 1;
      progressed := true;
      i := i + 1;
    }
  }

  /** In the middle of a round: the first `i` portfolios have had their turn. */
  ghost predicate HalfDealt(ids: seq<string>, m: map<string, seq<string>>, pool: seq<string>, round: nat, i: nat) {
    && m.Keys == (set id | id in ids)
    && (forall k :: 0 <= k < i && k < |ids| ==> m[ids[k]] == Column(pool, |ids|, k, round + 1))
    && (forall k :: i <= k < |ids| ==> m[ids[k]] == Column(pool, |ids|, k, round))
  }

  lemma ColumnGrows(pool: seq<string>, p: nat, i: nat, round: nat, at: nat)
    requires at == round * p + i && at < |pool|
    ensures Column(pool, p, i, round + 1) == Column(pool, p, i, round) + [pool[at]]
  {
  }

  lemma DealOne(ids: seq<string>, m: map<string, seq<string>>, pool: seq<string>, round: nat, i: nat, at: nat)
    requires AllDistinct(ids) && i < |ids| && HalfDealt(ids, m, pool, round, i)
    requires at == round * |ids| + i && at < |pool|
    ensures HalfDealt(ids, m[ids[i] := m[ids[i]] + [pool[at]]], pool, round, i + 1)
  {
    ColumnGrows(pool, |ids|, i, round, at);
    var now := m[ids[i] := m[ids[i]] + [pool[at]]];
    assert now.Keys == m.Keys;
    forall k | 0 <= k < |ids| && k != i ensures now[ids[k]] == m[ids[k]] {
      assert ids[k] != ids[i];
    }
  }

  lemma EmptyPool(ids: seq<string>)
    ensures forall i :: 0 <= i < |ids| ==> Shortlist([], |ids|, i) == []
  {
    forall i | 0 <= i < |ids| ensures Shortlist([], |ids|, i) == [] {
      ColumnFull([], |ids|, i, 0, SHORTLIST_SIZE);
    }
  }

  lemma RestUnchanged(pool: seq<string>, p: nat, round: nat, i: nat)
    requires round * p + i >= |pool|
    ensures forall k :: i <= k < p ==> Column(pool, p, k, round + 1) == Column(pool, p, k, round)
  {
  }

  lemma AllFull(pool: seq<string>, p: nat, round: nat)
    requires round <= SHORTLIST_SIZE && (p == 0 || round * p >= |pool|)
    ensures forall i :: 0 <= i < p ==> Column(pool, p, i, SHORTLIST_SIZE) == Column(pool, p, i, round)
  {
    forall i | 0 <= i < p ensures Column(pool, p, i, SHORTLIST_SIZE) == Column(pool, p, i, round) {
      ColumnFull(pool, p, i, round, SHORTLIST_SIZE);
    }
  }

  // ---- active symbols ------------------------------------------------------------------------------------------

  /** No symbol is listed twice, neither in one list nor in two. */
  ghost predicate NoOverlap(ids: seq<string>, lists: map<string, seq<string>>) {
    && (forall id :: id in ids ==> id in lists)
    && forall i, j, a, b ::
      0 <= i < |ids| && 0 <= j < |ids| && 0 <= a < |lists[ids[i]]| && 0 <= b < |lists[ids[j]]| && !(i == j && a == b)
      ==> lists[ids[i]][a] != lists[ids[j]][b]
  }

  /** How much of shortlist `i` is active after `passes` passes. */
  function Reach(shortlist: seq<string>, passes: nat): nat {
    Min(passes, Min(MAX_ACTIVE_SYMBOLS, |shortlist|))
  }

  /** In the middle of a pass: the first `i` portfolios have had their turn. */
  ghost predicate HalfPicked(ids: seq<string>, lists: map<string, seq<string>>, active: map<string, seq<string>>,
                             used: set<string>, passes: nat, i: nat)
  {
    && (forall id :: id in ids ==> id in lists)
    && active.Keys == (set id | id in ids)
    && (forall k :: 0 <= k < i && k < |ids| ==> active[ids[k]] == lists[ids[k]][..Reach(lists[ids[k]], passes + 1)])
    && (forall k :: i <= k < |ids| ==> active[ids[k]] == lists[ids[k]][..Reach(lists[ids[k]], passes)])
    && (forall s :: s in used ==> exists k :: 0 <= k < |ids| && s in active[ids[k]])
    && (forall k :: 0 <= k < |ids| ==> forall s :: s in active[ids[k]] ==> s in used)
  }

  method FirstUnused(shortlist: seq<string>, used: set<string>) returns (at: nat)
    ensures at <= |shortlist|
    ensures at < |shortlist| ==> shortlist[at] !in used
    ensures forall k :: 0 <= k < at ==> shortlist[k] in used
  {
    at := 0;
    while at < |shortlist| && shortlist[at] in used
      invariant at <= |shortlist|
      invariant forall k :: 0 <= k < at ==> shortlist[k] in used
    {
      at := at + 1;
    }
  }

  /** A portfolio's next symbol is the one just past its active ones. */
  lemma UnusedIsNext(ids: seq<string>, lists: map<string, seq<string>>, active: map<string, seq<string>>,
                     used: set<string>, passes: nat, i: nat, at: nat)
    requires NoOverlap(ids, lists) && i < |ids| && HalfPicked(ids, lists, active, used, passes, i)
    requires at <= |lists[ids[i]]| && (at < |lists[ids[i]]| ==> lists[ids[i]][at] !in used)
    requires forall k :: 0 <= k < at ==> lists[ids[i]][k] in used
    ensures at == |active[ids[i]]|
  {
    var list, own := lists[ids[i]], active[ids[i]];
    assert own == list[..|own|];
    if |own| < at {
      var k :| 0 <= k < |ids| && list[|own|] in active[ids[k]];
      assert false;
    }
  }

  lemma PickOne(ids: seq<string>, lists: map<string, seq<string>>, active: map<string, seq<string>>,
                used: set<string>, passes: nat, i: nat)
    requires AllDistinct(ids) && i < |ids| && HalfPicked(ids, lists, active, used, passes, i)
    requires |active[ids[i]]| < Min(MAX_ACTIVE_SYMBOLS, |lists[ids[i]]|)
    ensures var s := lists[ids[i]][|active[ids[i]]|];
            HalfPicked(ids, lists, active[ids[i] := active[ids[i]] + [s]], used + {s}, passes, i + 1)
  {
    var s := lists[ids[i]][|active[ids[i]]|];
    var now := active[ids[i] := active[ids[i]] + [s]];
    assert now.Keys == active.Keys;
    forall k | 0 <= k < |ids| && k != i ensures now[ids[k]] == active[ids[k]] {
      assert ids[k] != ids[i];
    }
    assert now[ids[i]] == lists[ids[i]][..Reach(lists[ids[i]], passes + 1)];
    assert s in now[ids[i]];
    forall x | x in used + {s} ensures exists k :: 0 <= k < |ids| && x in now[ids[k]] {
      if x in used {
        var k :| 0 <= k < |ids| && x in active[ids[k]];
        assert x in now[ids[k]];
      }
    }
  }

  lemma SkipOne(ids: seq<string>, lists: map<string, seq<string>>, active: map<string, seq<string>>,
                used: set<string>, passes: nat, i: nat)
    requires i < |ids| && HalfPicked(ids, lists, active, used, passes, i)
    requires |active[ids[i]]| >= Min(MAX_ACTIVE_SYMBOLS, |lists[ids[i]]|)
    ensures HalfPicked(ids, lists, active, used, passes, i + 1)
  {
  }

  /** A portfolio's turn in a pass. */
  method PickFor(ids: seq<string>, lists: map<string, seq<string>>, before: map<string, seq<string>>,
                 usedBefore: set<string>, ghost passes: nat, i: nat)
    returns (active: map<string, seq<string>>, used: set<string>, picked: bool)
    requires AllDistinct(ids) && NoOverlap(ids, lists) && i < |ids|
    requires HalfPicked(ids, lists, before, usedBefore, passes, i)
    ensures HalfPicked(ids, lists, active, used, passes, i + 1)
    ensures picked ==> passes < MAX_ACTIVE_SYMBOLS
    ensures !picked ==> active == before && |active[ids[i]]| >= Min(MAX_ACTIVE_SYMBOLS, |lists[ids[i]]|)
  {
    active, used, picked := before, usedBefore, false;
    if |before[ids[i]]| >= MAX_ACTIVE_SYMBOLS {
      SkipOne(ids, lists, before, used, passes, i);
      return;
    }
    var shortlist := lists[ids[i]];
    var at := FirstUnused(shortlist, used);
    UnusedIsNext(ids, lists, before, used, passes, i, at);
    if at < |shortlist| {
      PickOne(ids, lists, before, used, passes, i);
      active := before[ids[i] := before[ids[i]] + [shortlist[at]]];
      used := used + {shortlist[at]};
      picked := true;
    } else {
      SkipOne(ids, lists, before, used, passes, i);
    }
  }

  lemma PassDone(ids: seq<string>, lists: map<string, seq<string>>, active: map<string, seq<string>>,
                 used: set<string>, passes: nat)
    requires HalfPicked(ids, lists, active, used, passes, |ids|)
    ensures HalfPicked(ids, lists, active, used, passes + 1, 0)
  {
  }

  /** One pass over the portfolios. */
  method PickPass(ids: seq<string>, lists: map<string, seq<string>>, before: map<string, seq<string>>,
                  usedBefore: set<string>, ghost passes: nat)
    returns (active: map<string, seq<string>>, used: set<string>, progressed: bool)
    requires AllDistinct(ids) && NoOverlap(ids, lists) && HalfPicked(ids, lists, before, usedBefore, passes, 0)
    ensures HalfPicked(ids, lists, active, used, passes + 1, 0)
    ensures progressed ==> passes < MAX_ACTIVE_SYMBOLS
    ensures !progressed ==> forall k :: 0 <= k < |ids| ==> |active[ids[k]]| >= Min(MAX_ACTIVE_SYMBOLS, |lists[ids[k]]|)
  {
    active, used, progressed := before, usedBefore, false;
    var i := 0;
    while i < |ids|
      invariant i <= |ids| && HalfPicked(ids, lists, active, used, passes, i)
      invariant progressed ==> passes < MAX_ACTIVE_SYMBOLS
      invariant !progressed ==> forall k :: 0 <= k < i ==> |active[ids[k]]| >= Min(MAX_ACTIVE_SYMBOLS, |lists[ids[k]]|)
    {
      var picked;
      active, used, picked := PickFor(ids, lists, active, used, passes, i);
      progressed := progressed || picked;
      i := i + 1;
    }
    PassDone(ids, lists, active, used, passes);
  }

  lemma NothingPicked(ids: seq<string>, lists: map<string, seq<string>>, active: map<string, seq<string>>)
    requires active.Keys == (set id | id in ids) && forall id :: id in ids ==> id in lists && active[id] == []
    ensures HalfPicked(ids, lists, active, {}, 0, 0)
  {
  }

  lemma AllPicked(ids: seq<string>, lists: map<string, seq<string>>, active: map<string, seq<string>>,
                  used: set<string>, passes: nat)
    requires HalfPicked(ids, lists, active, used, passes, 0)
    requires forall k :: 0 <= k < |ids| ==> |active[ids[k]]| >= Min(MAX_ACTIVE_SYMBOLS, |lists[ids[k]]|)
    ensures forall i :: 0 <= i < |ids| ==> active[ids[i]] == Active(lists[ids[i]])
  {
  }

  /** Every portfolio's active symbols are the first four of its shortlist, and the passes come to an end. */
  method AssignActiveSymbolsNoOverlap(ids: seq<string>, lists: map<string, seq<string>>)
    returns (active: map<string, seq<string>>)
    requires AllDistinct(ids) && NoOverlap(ids, lists)
    ensures active.Keys == (set id | id in ids)
    ensures forall i :: 0 <= i < |ids| ==> active[ids[i]] == Active(lists[ids[i]])
    ensures forall i :: 0 <= i < |ids| ==> active[ids[i]] == lists[ids[i]][..Min(4, |lists[ids[i]]|)]
  {
    active := map id | id in ids :: [];
    var used: set<string> := {};
    ghost var passes := 0;
    NothingPicked(ids, lists, active);
    while true
      invariant passes <= MAX_ACTIVE_SYMBOLS && HalfPicked(ids, lists, active, used, passes, 0)
      decreases MAX_ACTIVE_SYMBOLS - passes
    {
      var progressed;
      active, used, progressed := PickPass(ids, lists, active, used, passes);
      if !progressed {
        AllPicked(ids, lists, active, used, passes + 1);
        return;
      }
      passes := passes + 1;
    }
  }

  // ---- what the allocation promises ------------------------------------------------------------------------

  lemma SameCell(p: nat, r: nat, i: nat, r': nat, i': nat)
    requires i < p && i' < p && r * p + i == r' * p + i'
    ensures r == r' && i == i'
  {
    if r < r' {
      Rows(p, r, r');
    } else if r' < r {
      Rows(p, r', r);
    }
  }

  /** The closed form: the `r`-th entry of shortlist `i` is pool entry `r * p + i`, as long as there is one
      and the shortlist has room. */
  lemma ShortlistClosedForm(pool: seq<string>, p: nat, i: nat, r: nat)
    requires i < p
    ensures r < |Shortlist(pool, p, i)| <==> r < 5 && r * p + i < |pool|
    ensures r < |Shortlist(pool, p, i)| ==> Shortlist(pool, p, i)[r] == pool[r * p + i]
  {
    ColumnExact(pool, p, i, SHORTLIST_SIZE);
    var n := |Shortlist(pool, p, i)|;
    if n <= r < SHORTLIST_SIZE {
      Rows(p, n, r);
    }
  }

  lemma CellsDiffer(pool: seq<string>, p: nat, i: nat, a: nat, j: nat, b: nat)
    requires AllDistinct(pool) && i < p && j < p && !(i == j && a == b)
    requires a < |Shortlist(pool, p, i)| && b < |Shortlist(pool, p, j)|
    ensures Shortlist(pool, p, i)[a] != Shortlist(pool, p, j)[b]
  {
    ShortlistClosedForm(pool, p, i, a);
    ShortlistClosedForm(pool, p, j, b);
    if a * p + i == b * p + j {
      SameCell(p, a, i, b, j);
    }
  }

  /** Shortlists dealt from a pool without repetitions are pairwise disjoint. */
  lemma DealtWithoutOverlap(ids: seq<string>, lists: map<string, seq<string>>, pool: seq<string>)
    requires AllDistinct(ids) && AllDistinct(pool) && DealtTo(ids, lists, pool)
    ensures NoOverlap(ids, lists)
  {
    forall i, j, a, b | 0 <= i < |ids| && 0 <= j < |ids| && 0 <= a < |lists[ids[i]]| && 0 <= b < |lists[ids[j]]|
                        && !(i == j && a == b)
      ensures lists[ids[i]][a] != lists[ids[j]][b]
    {
      CellsDiffer(pool, |ids|, i, a, j, b);
    }
  }

  /** No pool symbol is left out while some shortlist has room. */
  lemma NoneLeftOut(pool: seq<string>, p: nat, j: nat, m: nat)
    requires j < p && m < |pool| && |Shortlist(pool, p, j)| < SHORTLIST_SIZE
    ensures exists i :: 0 <= i < p && pool[m] in Shortlist(pool, p, i)
  {
    var r, i := m / p, m % p;
    assert m == r * p + i;
    var n := |Shortlist(pool, p, j)|;
    ColumnExact(pool, p, j, SHORTLIST_SIZE);
    if r > n {
      Rows(p, n, r);
    }
    ShortlistClosedForm(pool, p, i, r);
    assert Shortlist(pool, p, i)[r] == pool[m];
  }
}
