/** Distinct elements in the order they first appear. */
module FirstSeenOrder {

  /** The distinct elements of `xs` in the order they first appear. */
  function FirstSeen<T(==)>(xs: seq<T>): seq<T> {
    if xs == [] then []
    else
      var before := FirstSeen(xs[..|xs| - 1]);
      if xs[|xs| - 1] in before then before else before + [xs[|xs| - 1]]
  }

  predicate AllDistinct<T(==)>(xs: seq<T>) {
    forall i, j :: 0 <= i < j < |xs| ==> xs[i] != xs[j]
  }

  lemma {:induction false} FirstSeenExact<T>(xs: seq<T>)
    ensures AllDistinct(FirstSeen(xs))
    ensures forall x :: x in xs <==> x in FirstSeen(xs)
    ensures |FirstSeen(xs)| <= |xs|
  {
    if xs != [] {
      FirstSeenExact(xs[..|xs| - 1]);
      assert xs == xs[..|xs| - 1] + [xs[|xs| - 1]];
    }
  }

  /** The order is that of first appearance: whatever was seen in a prefix comes before anything new. */
  lemma {:induction false} FirstSeenPrefix<T>(xs: seq<T>, n: nat)
    requires n <= |xs|
    ensures FirstSeen(xs[..n]) <= FirstSeen(xs)
    decreases |xs|
  {
    if n < |xs| {
      assert xs[..|xs| - 1][..n] == xs[..n];
      FirstSeenPrefix(xs[..|xs| - 1], n);
    } else {
      assert xs[..n] == xs;
    }
  }
}
