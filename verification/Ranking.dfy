/** Candidate ranking: the five-key comparator and the sort it drives. */
module Ranking {

  datatype SymbolStats = SymbolStats(
    symbol: string, ageMinutes: nat, closedTrades: nat, profitableTrades: nat, losingTrades: nat, avgPnlPct: real)

  function UsefulWinrate(s: SymbolStats): real {
    if s.closedTrades == 0 then 0.0 else s.profitableTrades as real / s.closedTrades as real
  }

  function PmRaw(s: SymbolStats): int {
    s.profitableTrades - s.losingTrades
  }

  predicate Eligible(s: SymbolStats) {
    s.ageMinutes > 5 && s.closedTrades > 5 && UsefulWinrate(s) >= 0.30 && s.avgPnlPct >= 0.0
  }

  datatype Ordering = Less | Equal | Greater

  function CmpInt(a: int, b: int): Ordering {
    if a < b then Less else if a == b then Equal else Greater
  }

  function CmpReal(a: real, b: real): Ordering {
    if a < b then Less else if a == b then Equal else Greater
  }

  function CmpString(a: string, b: string): Ordering {
    if a == [] && b == [] then Equal
    else if a == [] then Less
    else if b == [] then Greater
    else if a[0] != b[0] then (if a[0] < b[0] then Less else Greater)
    else CmpString(a[1..], b[1..])
  }

  function Then(first: Ordering, second: Ordering): Ordering {
    if first == Equal then second else first
  }

  function RankCmp(l: SymbolStats, r: SymbolStats): Ordering {
    Then(CmpReal(UsefulWinrate(r), UsefulWinrate(l)),
    Then(CmpInt(PmRaw(r), PmRaw(l)),
    Then(CmpReal(r.avgPnlPct, l.avgPnlPct),
    Then(CmpInt(r.closedTrades, l.closedTrades),
         CmpString(l.symbol, r.symbol)))))
  }

  // ---- the comparator is a total order -------------------------------------------------------------------

  lemma {:induction false} StringOrder(a: string, b: string, c: string)
    ensures CmpString(a, b) == Equal <==> a == b
    ensures CmpString(a, b) == Less <==> CmpString(b, a) == Greater
    ensures CmpString(a, b) != Greater && CmpString(b, c) != Greater ==> CmpString(a, c) != Greater
  {
    if a != [] && b != [] {
      assert a == [a[0]] + a[1..] && b == [b[0]] + b[1..];
      StringOrder(a[1..], b[1..], if c == [] then [] else c[1..]);
    }
  }

  /** `a` comes before `b` in a dictionary: up to some place they agree, and there `a` ends or has the smaller
      character. */
  ghost predicate Precedes(a: string, b: string) {
    exists n :: FirstDifference(a, b, n)
  }

  predicate FirstDifference(a: string, b: string, n: nat) {
    n <= |a| && n < |b| && a[..n] == b[..n] && (n == |a| || a[n] < b[n])
  }

  /** Symbols and portfolio ids are compared as in a dictionary. */
  lemma {:induction false} StringOrderExact(a: string, b: string)
    ensures CmpString(a, b) == Less <==> Precedes(a, b)
    ensures CmpString(a, b) == Greater <==> Precedes(b, a)
  {
    LessMeansPrecedes(a, b);
    LessMeansPrecedes(b, a);
    StringOrder(b, a, b);
  }

  lemma HeadsAgree(a: string, b: string, n: nat)
    requires FirstDifference(a, b, n)
    ensures n > 0 ==> a != [] && a[0] == b[0]
  {
    if n > 0 {
      assert a[0] == a[..n][0] && b[0] == b[..n][0];
    }
  }

  lemma {:induction false} LessMeansPrecedes(a: string, b: string)
    ensures CmpString(a, b) == Less <==> Precedes(a, b)
  {
    if a == [] || b == [] || a[0] != b[0] {
      if CmpString(a, b) == Less {
        assert FirstDifference(a, b, 0);
      }
      if n: nat :| FirstDifference(a, b, n) {
        HeadsAgree(a, b, n);
      }
    } else {
      LessMeansPrecedes(a[1..], b[1..]);
      if n: nat :| FirstDifference(a[1..], b[1..], n) {
        assert a[..n + 1] == [a[0]] + a[1..][..n] && b[..n + 1] == [b[0]] + b[1..][..n];
        assert FirstDifference(a, b, n + 1);
      }
      if n: nat :| FirstDifference(a, b, n) {
        assert a[1..][..n - 1] == a[..n][1..] && b[1..][..n - 1] == b[..n][1..];
        assert FirstDifference(a[1..], b[1..], n - 1);
      }
    }
  }

  predicate AtMost(a: SymbolStats, b: SymbolStats) {
    RankCmp(a, b) != Greater
  }

  lemma RankIsTotal(a: SymbolStats, b: SymbolStats, c: SymbolStats)
    ensures AtMost(a, b) || AtMost(b, a)
    ensures AtMost(a, b) && AtMost(b, a) ==> a.symbol == b.symbol
    ensures AtMost(a, b) && AtMost(b, c) ==> AtMost(a, c)
  {
    StringOrder(a.symbol, b.symbol, c.symbol);
    StringOrder(b.symbol, a.symbol, c.symbol);
    StringOrder(b.symbol, c.symbol, a.symbol);
  }

  lemma Scaled(q: real, d: real)
    requires d > 0.0
    ensures q >= 0.30 <==> q * d >= 0.30 * d
  {
    if q >= 0.30 {
      assert (q - 0.30) * d >= 0.0;
    } else {
      assert (0.30 - q) * d > 0.0;
    }
  }

  lemma ThreeInTen(n: nat, d: nat)
    requires d > 0
    ensures n as real / d as real >= 0.30 <==> 10 * n >= 3 * d
  {
    var q := n as real / d as real;
    assert q * d as real == n as real;
    Scaled(q, d as real);
  }

  /** Eligibility in whole numbers: at least three winners in ten. */
  lemma EligibleExact(s: SymbolStats)
    ensures Eligible(s) <==>
            && s.ageMinutes >= 6 && s.closedTrades >= 6
            && 10 * s.profitableTrades >= 3 * s.closedTrades && s.avgPnlPct >= 0.0
  {
    if s.closedTrades > 0 {
      ThreeInTen(s.profitableTrades, s.closedTrades);
    }
  }

  // ---- sorting --------------------------------------------------------------------------------------------

  /** A stable insertion: `x` goes before the first element it does not rank below. */
  function InsertRanked(x: SymbolStats, s: seq<SymbolStats>): seq<SymbolStats> {
    if s == [] || AtMost(x, s[0]) then [x] + s else [s[0]] + InsertRanked(x, s[1..])
  }

  function RankCandidates(s: seq<SymbolStats>): seq<SymbolStats> {
    if s == [] then [] else InsertRanked(s[0], RankCandidates(s[1..]))
  }

  predicate Ranked(s: seq<SymbolStats>) {
    forall i, j :: 0 <= i < j < |s| ==> AtMost(s[i], s[j])
  }

  predicate DistinctSymbols(s: seq<SymbolStats>) {
    forall i, j :: 0 <= i < j < |s| ==> s[i].symbol != s[j].symbol
  }

  lemma {:induction false} InsertRankedBag(x: SymbolStats, s: seq<SymbolStats>)
    ensures multiset(InsertRanked(x, s)) == multiset(s) + multiset{x}
    ensures |InsertRanked(x, s)| == |s| + 1
    ensures forall k :: 0 <= k < |InsertRanked(x, s)| ==> InsertRanked(x, s)[k] == x || InsertRanked(x, s)[k] in s
  {
    if s != [] && !AtMost(x, s[0]) {
      InsertRankedBag(x, s[1..]);
      assert s == [s[0]] + s[1..];
    }
  }

  lemma {:induction false} InsertRankedKeepsOrder(x: SymbolStats, s: seq<SymbolStats>)
    requires Ranked(s)
    ensures Ranked(InsertRanked(x, s))
  {
    if s == [] {
    } else if AtMost(x, s[0]) {
      forall j | 0 <= j < |s| ensures AtMost(x, s[j]) {
        RankIsTotal(x, s[0], s[j]);
      }
    } else {
      RankIsTotal(x, s[0], x);
      InsertRankedKeepsOrder(x, s[1..]);
      InsertRankedBag(x, s[1..]);
      assert forall y :: y in s[1..] ==> AtMost(s[0], y);
    }
  }

  lemma HeadAndTail(s: seq<SymbolStats>)
    requires s != []
    ensures multiset(s) == multiset(s[1..]) + multiset{s[0]}
  {
    assert s == [s[0]] + s[1..];
  }

  lemma {:induction false} RankExact(s: seq<SymbolStats>)
    ensures Ranked(RankCandidates(s)) && multiset(RankCandidates(s)) == multiset(s)
  {
    if s != [] {
      var rest := RankCandidates(s[1..]);
      RankExact(s[1..]);
      InsertRankedKeepsOrder(s[0], rest);
      InsertRankedBag(s[0], rest);
      HeadAndTail(s);
    }
  }

  lemma Twice(t: seq<SymbolStats>, i: nat, j: nat)
    requires i < j < |t| && t[i] == t[j]
    ensures multiset(t)[t[i]] >= 2
  {
    var x := t[i];
    assert t == t[..j] + t[j..];
    assert multiset(t) == multiset(t[..j]) + multiset(t[j..]);
    assert t[..j][i] == x && t[j..][0] == x;
    assert x in multiset(t[..j]) && x in multiset(t[j..]);
  }

  lemma Once(s: seq<SymbolStats>, a: nat)
    requires a < |s| && DistinctSymbols(s)
    ensures multiset(s)[s[a]] == 1
  {
    var x := s[a];
    assert s == s[..a] + [x] + s[a + 1..];
    assert multiset(s) == multiset(s[..a]) + multiset{x} + multiset(s[a + 1..]);
    assert x !in s[..a] && x !in s[a + 1..];
  }

  lemma BagKeepsDistinct(s: seq<SymbolStats>, t: seq<SymbolStats>)
    requires multiset(s) == multiset(t) && DistinctSymbols(s)
    ensures DistinctSymbols(t)
  {
    forall i, j | 0 <= i < j < |t| ensures t[i].symbol != t[j].symbol {
      assert t[i] in multiset(s) && t[j] in multiset(s);
      var a :| 0 <= a < |s| && s[a] == t[i];
      var b :| 0 <= b < |s| && s[b] == t[j];
      if t[i] == t[j] {
        Once(s, a);
        Twice(t, i, j);
      }
      assert a != b;
    }
  }

  lemma SameHead(s: seq<SymbolStats>, t: seq<SymbolStats>)
    requires Ranked(s) && Ranked(t) && DistinctSymbols(s) && multiset(s) == multiset(t) && s != [] && t != []
    ensures s[0] == t[0]
  {
    assert s[0] in multiset(t) && t[0] in multiset(s);
    var i :| 0 <= i < |t| && t[i] == s[0];
    var j :| 0 <= j < |s| && s[j] == t[0];
    ReflexiveRank(s[0]);
    ReflexiveRank(t[0]);
    assert AtMost(s[0], s[j]) && AtMost(t[0], t[i]);
    RankIsTotal(s[0], t[0], s[0]);
  }

  lemma SameTail(s: seq<SymbolStats>, t: seq<SymbolStats>)
    requires s != [] && t != [] && s[0] == t[0] && multiset(s) == multiset(t)
    ensures multiset(s[1..]) == multiset(t[1..])
  {
    assert s == [s[0]] + s[1..] && t == [t[0]] + t[1..];
    assert multiset(s) == multiset{s[0]} + multiset(s[1..]);
    assert multiset(t) == multiset{s[0]} + multiset(t[1..]);
    assert multiset(s[1..]) == multiset(s) - multiset{s[0]};
    assert multiset(t[1..]) == multiset(t) - multiset{s[0]};
  }

  /** Two ranked lists of the same candidates are the same list. */
  lemma {:induction false} RankedIsUnique(s: seq<SymbolStats>, t: seq<SymbolStats>)
    requires Ranked(s) && Ranked(t) && DistinctSymbols(s) && multiset(s) == multiset(t)
    ensures s == t
    decreases |s|
  {
    assert |multiset(s)| == |s| && |multiset(t)| == |t|;
    if s != [] {
      SameHead(s, t);
      SameTail(s, t);
      RankedIsUnique(s[1..], t[1..]);
      assert s == [s[0]] + s[1..] && t == [t[0]] + t[1..];
    }
  }

  lemma ReflexiveRank(a: SymbolStats)
    ensures AtMost(a, a)
  {
    StringOrder(a.symbol, a.symbol, a.symbol);
  }

  /** A higher win rate, compared in whole numbers; without closed trades the rate is zero. */
  predicate HigherRate(a: SymbolStats, b: SymbolStats) {
    if a.closedTrades == 0 then false
    else if b.closedTrades == 0 then a.profitableTrades > 0
    else a.profitableTrades * b.closedTrades > b.profitableTrades * a.closedTrades
  }

  /** `a` may stand before `b`: it has the higher win rate, or the same and the larger surplus of winners over
      losers, or the same and the higher mean profit, or the same and more closed trades, or the same and a symbol
      that does not come after. */
  ghost predicate MayLead(a: SymbolStats, b: SymbolStats) {
    var surplusA, surplusB := a.profitableTrades - a.losingTrades, b.profitableTrades - b.losingTrades;
    if HigherRate(a, b) || HigherRate(b, a) then HigherRate(a, b)
    else if surplusA != surplusB then surplusA > surplusB
    else if a.avgPnlPct != b.avgPnlPct then a.avgPnlPct > b.avgPnlPct
    else if a.closedTrades != b.closedTrades then a.closedTrades > b.closedTrades
    else a.symbol == b.symbol || Precedes(a.symbol, b.symbol)
  }

  lemma ScaledBoth(p: real, q: real, d: real)
    requires d > 0.0
    ensures p > q <==> p * d > q * d
  {
    if p > q {
      assert (p - q) * d > 0.0;
    } else {
      assert (q - p) * d >= 0.0;
    }
  }

  /** Two quotients compare as their cross products do. */
  lemma CrossProducts(n: nat, d: nat, m: nat, e: nat)
    requires d > 0 && e > 0
    ensures n as real / d as real > m as real / e as real <==> n * e > m * d
  {
    var p, q, de := n as real / d as real, m as real / e as real, d as real * e as real;
    assert p * d as real == n as real && q * e as real == m as real;
    assert p * de == (p * d as real) * e as real && q * de == (q * e as real) * d as real;
    ScaledBoth(p, q, de);
    assert (n * e) as real == n as real * e as real && (m * d) as real == m as real * d as real;
  }

  lemma PositiveRate(n: nat, d: nat)
    requires d > 0
    ensures n as real / d as real >= 0.0 && (n as real / d as real > 0.0 <==> n > 0)
  {
    var p := n as real / d as real;
    assert p * d as real == n as real;
    ScaledBoth(p, 0.0, d as real);
    ScaledBoth(0.0, p, d as real);
  }

  lemma RateExact(a: SymbolStats, b: SymbolStats)
    ensures UsefulWinrate(a) > UsefulWinrate(b) <==> HigherRate(a, b)
  {
    if a.closedTrades > 0 && b.closedTrades > 0 {
      CrossProducts(a.profitableTrades, a.closedTrades, b.profitableTrades, b.closedTrades);
    } else if a.closedTrades > 0 {
      PositiveRate(a.profitableTrades, a.closedTrades);
    } else if b.closedTrades > 0 {
      PositiveRate(b.profitableTrades, b.closedTrades);
    }
  }

  lemma AtMostExact(a: SymbolStats, b: SymbolStats)
    ensures AtMost(a, b) <==> MayLead(a, b)
  {
    RateExact(a, b);
    RateExact(b, a);
    StringOrder(a.symbol, b.symbol, a.symbol);
    StringOrderExact(a.symbol, b.symbol);
  }

  /** The ranked list is in the order of the candidates' own counts. */
  lemma BestFirst(s: seq<SymbolStats>, i: nat, j: nat)
    requires i < j < |RankCandidates(s)|
    ensures MayLead(RankCandidates(s)[i], RankCandidates(s)[j])
  {
    RankExact(s);
    assert AtMost(RankCandidates(s)[i], RankCandidates(s)[j]);
    AtMostExact(RankCandidates(s)[i], RankCandidates(s)[j]);
  }

  /** The ranking does not depend on the order the candidates come in. */
  lemma RankIgnoresOrder(s: seq<SymbolStats>, t: seq<SymbolStats>)
    requires multiset(s) == multiset(t) && DistinctSymbols(s)
    ensures RankCandidates(s) == RankCandidates(t)
  {
    RankExact(s);
    RankExact(t);
    BagKeepsDistinct(s, RankCandidates(s));
    RankedIsUnique(RankCandidates(s), RankCandidates(t));
  }
}
