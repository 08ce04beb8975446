/** Bags gathered from sequences and maps: the bookkeeping behind every "nothing is lost, nothing is
    duplicated" property. */
module Multisets {

  /** The bag union of what every element of `xs` holds. */
  function Gather<T, C>(xs: seq<T>, items: T -> multiset<C>): multiset<C> {
    if xs == [] then multiset{} else items(xs[0]) + Gather(xs[1..], items)
  }

  lemma {:induction false} GatherUpdate<T, C>(xs: seq<T>, items: T -> multiset<C>, i: nat, x: T)
    requires i < |xs|
    ensures Gather(xs[i := x], items) + items(xs[i]) == Gather(xs, items) + items(x)
    ensures items(xs[i]) <= Gather(xs, items)
  {
    if i == 0 {
      assert xs[0 := x][1..] == xs[1..];
    } else {
      assert xs[i := x][1..] == xs[1..][i - 1 := x];
      GatherUpdate(xs[1..], items, i - 1, x);
      var head, rest, rest' := items(xs[0]), Gather(xs[1..], items), Gather(xs[1..][i - 1 := x], items);
      assert Gather(xs[i := x], items) == head + rest';
      assert (head + rest') + items(xs[i]) == head + (rest' + items(xs[i]));
    }
  }

  lemma {:induction false} GatherAppend<T, C>(xs: seq<T>, items: T -> multiset<C>, x: T)
    ensures Gather(xs + [x], items) == Gather(xs, items) + items(x)
  {
    if xs == [] {
      assert ([] + [x])[1..] == [];
    } else {
      assert (xs + [x])[1..] == xs[1..] + [x];
      GatherAppend(xs[1..], items, x);
    }
  }

  lemma {:induction false} GatherEmpty<T, C>(xs: seq<T>, items: T -> multiset<C>)
    requires forall i :: 0 <= i < |xs| ==> items(xs[i]) == multiset{}
    ensures Gather(xs, items) == multiset{}
  {
    if xs != [] {
      GatherEmpty(xs[1..], items);
    }
  }

  lemma {:induction false} GatherWitness<T, C>(xs: seq<T>, items: T -> multiset<C>, c: C) returns (i: nat)
    requires c in Gather(xs, items)
    ensures i < |xs| && c in items(xs[i])
  {
    if c in items(xs[0]) {
      i := 0;
    } else {
      var j := GatherWitness(xs[1..], items, c);
      i := j + 1;
    }
  }

  /** The bag of values of a map. */
  ghost function Values<K, V>(m: map<K, V>): multiset<V> {
    if m == map[] then multiset{} else
      var k :| k in m;
      multiset{m[k]} + Values(m - {k})
  }

  /** Any key may be taken out first. */
  lemma {:induction false} ValuesRemove<K, V>(m: map<K, V>, k: K)
    requires k in m
    ensures Values(m) == multiset{m[k]} + Values(m - {k})
    decreases |m|
  {
    var c :| c in m && Values(m) == multiset{m[c]} + Values(m - {c});
    if c != k {
      var both := m - {c} - {k};
      assert m - {k} - {c} == both;
      assert (m - {c})[k] == m[k] && (m - {k})[c] == m[c];
      ValuesRemove(m - {c}, k);
      ValuesRemove(m - {k}, c);
      SwapFirst(m[c], m[k], Values(both));
    }
  }

  lemma SwapFirst<V>(a: V, b: V, rest: multiset<V>)
    ensures multiset{a} + (multiset{b} + rest) == multiset{b} + (multiset{a} + rest)
  {
  }

  lemma ValuesInsert<K, V>(m: map<K, V>, k: K, v: V)
    ensures k !in m ==> Values(m[k := v]) == multiset{v} + Values(m)
    ensures k in m ==> multiset{m[k]} + Values(m[k := v]) == multiset{v} + Values(m)
  {
    var m', rest := m[k := v], m - {k};
    assert m' - {k} == rest;
    ValuesRemove(m', k);
    if k in m {
      ValuesRemove(m, k);
      SwapFirst(m[k], v, Values(rest));
    } else {
      assert rest == m;
    }
  }

  /** The sum of a weight over a sequence. */
  function Total<T>(xs: seq<T>, weight: T -> nat): nat {
    if xs == [] then 0 else weight(xs[0]) + Total(xs[1..], weight)
  }

  lemma {:induction false} TotalUpdate<T>(xs: seq<T>, weight: T -> nat, i: nat, x: T)
    requires i < |xs|
    ensures Total(xs[i := x], weight) + weight(xs[i]) == Total(xs, weight) + weight(x)
  {
    if i == 0 {
      assert xs[0 := x][1..] == xs[1..];
    } else {
      assert xs[i := x][1..] == xs[1..][i - 1 := x];
      TotalUpdate(xs[1..], weight, i - 1, x);
    }
  }

  lemma {:induction false} TotalAppend<T>(xs: seq<T>, weight: T -> nat, x: T)
    ensures Total(xs + [x], weight) == Total(xs, weight) + weight(x)
  {
    if xs == [] {
      assert ([] + [x])[1..] == [];
    } else {
      assert (xs + [x])[1..] == xs[1..] + [x];
      TotalAppend(xs[1..], weight, x);
    }
  }

  /** The entries of `m` that `over` overrides. */
  ghost function Overridden<K, V>(m: map<K, V>, over: map<K, V>): map<K, V> {
    map k | k in m && k in over :: m[k]
  }

  /** Overriding one map with another loses exactly the overridden values. */
  lemma {:induction false} ValuesMerge<K, V>(m: map<K, V>, over: map<K, V>)
    ensures Values(m) + Values(over) == Values(m + over) + Values(Overridden(m, over))
    decreases |over|
  {
    if over == map[] {
      assert m + over == m && Overridden(m, over) == map[];
    } else {
      var k :| k in over;
      ValuesMerge(m, over - {k});
      MergeOne(m, over, k);
    }
  }

  lemma MergeOne<K, V>(m: map<K, V>, over: map<K, V>, k: K)
    requires k in over
    requires Values(m) + Values(over - {k}) == Values(m + (over - {k})) + Values(Overridden(m, over - {k}))
    ensures Values(m) + Values(over) == Values(m + over) + Values(Overridden(m, over))
  {
    var rest, x := over - {k}, over[k];
    ValuesRemove(over, k);
    MergedInsert(m, over, k);
    if k in m {
      OverriddenGrows(m, over, k);
      MergeStep(Values(m), Values(rest), Values(m + rest), Values(Overridden(m, rest)), Values(m + over), x, m[k]);
    } else {
      OverriddenSame(m, over, k);
      MergeFresh(Values(m), Values(rest), Values(m + rest), Values(Overridden(m, rest)), x);
    }
  }

  lemma MergedInsert<K, V>(m: map<K, V>, over: map<K, V>, k: K)
    requires k in over
    ensures k !in m ==> Values(m + over) == multiset{over[k]} + Values(m + (over - {k}))
    ensures k in m ==> multiset{m[k]} + Values(m + over) == multiset{over[k]} + Values(m + (over - {k}))
  {
    var merged := m + (over - {k});
    assert m + over == merged[k := over[k]];
    assert k in m ==> k in merged && merged[k] == m[k];
    ValuesInsert(merged, k, over[k]);
  }

  lemma OverriddenSame<K, V>(m: map<K, V>, over: map<K, V>, k: K)
    requires k !in m
    ensures Overridden(m, over) == Overridden(m, over - {k})
  {
  }

  lemma MergeFresh<V>(a: multiset<V>, b: multiset<V>, ab: multiset<V>, lost: multiset<V>, x: V)
    requires a + b == ab + lost
    ensures a + (multiset{x} + b) == (multiset{x} + ab) + lost
  {
    assert a + (multiset{x} + b) == multiset{x} + (a + b);
  }

  lemma OverriddenGrows<K, V>(m: map<K, V>, over: map<K, V>, k: K)
    requires k in over && k in m
    ensures (m + (over - {k}))[k] == m[k]
    ensures Values(Overridden(m, over)) == multiset{m[k]} + Values(Overridden(m, over - {k}))
  {
    var lost := Overridden(m, over - {k});
    assert Overridden(m, over) == lost[k := m[k]];
    ValuesInsert(lost, k, m[k]);
  }

  lemma MergeStep<V>(a: multiset<V>, b: multiset<V>, ab: multiset<V>, lost: multiset<V>, now: multiset<V>, x: V, y: V)
    requires a + b == ab + lost
    requires multiset{y} + now == multiset{x} + ab
    ensures a + (multiset{x} + b) == now + (multiset{y} + lost)
  {
    assert a + (multiset{x} + b) == multiset{x} + (ab + lost);
    assert multiset{x} + (ab + lost) == (multiset{x} + ab) + lost;
  }
}
