/** Exactly what one signal tick checks and what it leaves, from every state whose count is right and for ids of any
    size. */
module TickOrder {
  import opened FleetTrades
  import opened PendingSymbols
  import opened SignalTick

  function Distinct(checked: seq<nat>): set<nat> {
    set i | i in checked
  }

  /** Where the cursor goes after `id`. */
  function Past(id: nat, total: nat): nat {
    if id + 1 >= total then 0 else id + 1
  }

  /** `xs` is the beginning of `all` in cyclic order from `from`. */
  ghost predicate Leads(from: nat, total: nat, all: set<nat>, xs: seq<nat>) {
    && (forall i :: 0 <= i < |xs| ==> xs[i] in all)
    && (forall i, j :: 0 <= i < j < |xs| ==> Distance(from, xs[i], total) < Distance(from, xs[j], total))
    && (forall i, y :: 0 <= i < |xs| && y in all && y !in xs ==>
          Distance(from, xs[i], total) < Distance(from, y, total))
  }

  /** Seen from just past the nearest id, every other id is that much nearer. */
  lemma DistanceShifts(from: nat, id: nat, y: nat, total: nat)
    requires id < total && y < total && y != id && (from == 0 || from < total)
    requires Distance(from, id, total) <= Distance(from, y, total)
    ensures Distance(from, id, total) < Distance(from, y, total)
    ensures Distance(Past(id, total), y, total) == Distance(from, y, total) - Distance(from, id, total) - 1
  {
  }

  lemma LeadsExtends(from: nat, total: nat, all: set<nat>, id: nat, xs: seq<nat>)
    requires (from == 0 || from < total) && (forall y :: y in all ==> y < total)
    requires id in all && forall y :: y in all ==> Distance(from, id, total) <= Distance(from, y, total)
    requires Leads(Past(id, total), total, all - {id}, xs)
    ensures Leads(from, total, all, [id] + xs)
  {
    forall y | y in all && y != id
      ensures Distance(from, id, total) < Distance(from, y, total)
      ensures Distance(Past(id, total), y, total) == Distance(from, y, total) - Distance(from, id, total) - 1
    {
      DistanceShifts(from, id, y, total);
    }
    assert forall i :: 0 <= i < |xs| ==> xs[i] in all && xs[i] != id;
    assert forall y :: y in [id] + xs <==> y == id || y in xs;
  }

  // ---- pops, told by the pending ids and the cursor ----------------------------------------------------------

  datatype View = View(pending: set<nat>, cursor: nat, total: nat)

  ghost function ViewOf(s: Bits): View {
    View(Pending(s.words), s.cursor, TotalBits(s.words))
  }

  predicate Sane(v: View) {
    (v.cursor == 0 || v.cursor < v.total) && forall j :: j in v.pending ==> j < v.total
  }

  lemma ViewIsSane(s: Bits)
    requires Valid(s)
    ensures Sane(ViewOf(s))
  {
  }

  /** `j` lies in the word of `cursor`, below it. */
  predicate WordBelow(j: nat, cursor: nat) {
    cursor / 64 * 64 <= j < cursor
  }

  /** A pop finds nothing. */
  predicate Stuck(v: View) {
    forall j :: j in v.pending ==> WordBelow(j, v.cursor)
  }

  predicate Nearest(v: View, id: nat) {
    && id in v.pending
    && forall y :: y in v.pending ==> Distance(v.cursor, id, v.total) <= Distance(v.cursor, y, v.total)
  }

  function Without(v: View, id: nat): View {
    View(v.pending - {id}, Past(id, v.total), v.total)
  }

  /** Successful pops one after the other. */
  predicate Pops(v: View, xs: seq<nat>)
    decreases |xs|
  {
    xs == [] || (!Stuck(v) && Nearest(v, xs[0]) && Pops(Without(v, xs[0]), xs[1..]))
  }

  function AfterPops(v: View, xs: seq<nat>): View
    decreases |xs|
  {
    if xs == [] then v else AfterPops(Without(v, xs[0]), xs[1..])
  }

  /** Where the cursor stands once `xs` have been popped. */
  function Stood(v: View, xs: seq<nat>): nat {
    if xs == [] then v.cursor else Past(xs[|xs| - 1], v.total)
  }

  ghost predicate LeadTo(v: View, xs: seq<nat>, w: View) {
    && Leads(v.cursor, v.total, v.pending, xs)
    && w == View(v.pending - Distinct(xs), Stood(v, xs), v.total)
  }

  lemma LeadToExtends(v: View, id: nat, rest: seq<nat>, w: View)
    requires Sane(v) && Nearest(v, id) && LeadTo(Without(v, id), rest, w)
    ensures LeadTo(v, [id] + rest, w)
  {
    LeadsExtends(v.cursor, v.total, v.pending, id, rest);
    assert Distinct([id] + rest) == {id} + Distinct(rest);
    assert v.pending - {id} - Distinct(rest) == v.pending - Distinct([id] + rest);
  }

  /** The ids popped are the first of the pending ones in cyclic order from the cursor; they and no others are gone. */
  lemma {:induction false} PopsLead(v: View, xs: seq<nat>)
    requires Sane(v) && Pops(v, xs)
    ensures LeadTo(v, xs, AfterPops(v, xs))
    decreases |xs|
  {
    if xs == [] {
      assert v.pending - Distinct(xs) == v.pending;
    } else {
      PopsLead(Without(v, xs[0]), xs[1..]);
      LeadToExtends(v, xs[0], xs[1..], AfterPops(v, xs));
      assert xs == [xs[0]] + xs[1..];
    }
  }

  // ---- one drain ------------------------------------------------------------------------------------------------

  /** What a drain with `budget` pops does: either the budget is used up and the count still right, or a pop found
      nothing. */
  ghost predicate DrainsTo(s: Bits, d: Ticked, budget: nat) {
    && Pops(ViewOf(s), d.checked) && |d.checked| <= budget && |d.after.words| == |s.words|
    && (if |d.checked| == budget then Valid(d.after) && ViewOf(d.after) == AfterPops(ViewOf(s), d.checked)
        else d.after == Bits(d.after.words, 0, 0) && Pending(d.after.words) == AfterPops(ViewOf(s), d.checked).pending
             && Stuck(AfterPops(ViewOf(s), d.checked)))
  }

  lemma PopStep(s: Bits) returns (t: Bits)
    requires Valid(s)
    ensures Pop(s).id.None? ==> Stuck(ViewOf(s)) && Pop(s) == Popped(Bits(s.words, 0, 0), None)
    ensures Pop(s).id.Some? ==>
              && !Stuck(ViewOf(s)) && Nearest(ViewOf(s), Pop(s).id.value)
              && Pop(s).after == t && Valid(t) && |t.words| == |s.words|
              && ViewOf(t) == Without(ViewOf(s), Pop(s).id.value)
  {
    PopFailsExactly(s);
    t := Pop(s).after;
    if Pop(s).id.Some? {
      PopTakesNearest(s);
    }
  }

  lemma DrainsToExtends(s: Bits, id: nat, t: Bits, d: Ticked, budget: nat)
    requires budget > 0 && !Stuck(ViewOf(s)) && Nearest(ViewOf(s), id) && |t.words| == |s.words|
    requires ViewOf(t) == Without(ViewOf(s), id) && DrainsTo(t, d, budget - 1)
    ensures DrainsTo(s, After([id], d), budget)
  {
    assert ([id] + d.checked)[1..] == d.checked;
  }

  lemma DrainStep(s: Bits, budget: nat) returns (done: bool, t: Bits)
    requires Valid(s)
    ensures done ==> DrainsTo(s, Drain(s, budget), budget)
    ensures !done ==> budget > 0 && Valid(t)
    ensures !done && DrainsTo(t, Drain(t, budget - 1), budget - 1) ==> DrainsTo(s, Drain(s, budget), budget)
  {
    t := PopStep(s);
    done := budget == 0 || Pop(s).id.None?;
    if !done {
      var rest := Drain(t, budget - 1);
      if DrainsTo(t, rest, budget - 1) {
        DrainsToExtends(s, Pop(s).id.value, t, rest, budget);
      }
    }
  }

  lemma {:induction false} DrainExact(s: Bits, budget: nat)
    requires Valid(s)
    ensures DrainsTo(s, Drain(s, budget), budget)
    decreases budget
  {
    var done, t := DrainStep(s, budget);
    if !done {
      DrainExact(t, budget - 1);
    }
  }

  // ---- when a check is lost ---------------------------------------------------------------------------------------

  /** All pending ids lie in the cursor's word, one of them below the cursor, and the word's last id is not pending. */
  ghost predicate LosesIn(v: View) {
    && (forall j :: j in v.pending ==> v.cursor / 64 * 64 <= j < v.cursor / 64 * 64 + 63)
    && exists r :: r in v.pending && r < v.cursor
  }

  /** A tick of `s` will leave pending ids behind: a test on the pending ids and the cursor alone. */
  ghost predicate Loses(s: Bits) {
    LosesIn(ViewOf(s))
  }

  /** The ids at or past the cursor. */
  ghost function From(v: View): set<nat> {
    set j | j in v.pending && j >= v.cursor
  }

  lemma SameWord(cursor: nat, id: nat, words: nat)
    requires cursor <= id < cursor / 64 * 64 + 63 && id < 64 * words
    ensures (id + 1) / 64 == cursor / 64 && id + 1 < 64 * words
  {
  }

  /** In a losing set the nearest id, if any is at or past the cursor, is the lowest of those. */
  lemma LosingNearest(v: View, id: nat)
    requires Sane(v) && LosesIn(v) && Nearest(v, id) && !Stuck(v)
    ensures id >= v.cursor && forall y :: y in From(v) ==> id <= y
  {
    var j :| j in v.pending && !WordBelow(j, v.cursor);
    assert Distance(v.cursor, id, v.total) <= Distance(v.cursor, j, v.total);
    forall y | y in From(v) ensures id <= y {
      assert Distance(v.cursor, id, v.total) <= Distance(v.cursor, y, v.total);
    }
  }

  /** A pop of a losing set takes the lowest id at or past the cursor and loses on. */
  lemma LosingStep(v: View, id: nat, words: nat)
    requires Sane(v) && v.total == 64 * words && LosesIn(v) && Nearest(v, id) && !Stuck(v)
    ensures Sane(Without(v, id)) && LosesIn(Without(v, id)) && From(v) == {id} + From(Without(v, id))
  {
    LosingNearest(v, id);
    SameWord(v.cursor, id, words);
    var r :| r in v.pending && r < v.cursor;
    assert r in Without(v, id).pending;
  }

  /** Pops that went on until a pop found nothing, from a losing set, took exactly the ids at or past the cursor. */
  lemma {:induction false} LosingPops(v: View, xs: seq<nat>, words: nat)
    requires Sane(v) && v.total == 64 * words && LosesIn(v) && Pops(v, xs)
    ensures LosesIn(AfterPops(v, xs)) && AfterPops(v, xs).pending != {}
    ensures Stuck(AfterPops(v, xs)) ==> Distinct(xs) == From(v)
    decreases |xs|
  {
    if xs == [] {
      var r :| r in v.pending && r < v.cursor;
      assert Distinct(xs) == {};
    } else {
      LosingStep(v, xs[0], words);
      LosingPops(Without(v, xs[0]), xs[1..], words);
      assert xs == [xs[0]] + xs[1..];
      assert Distinct(xs) == {xs[0]} + Distinct(xs[1..]);
    }
  }

  lemma {:induction false} RangeSize(ids: set<nat>, from: nat, n: nat)
    requires forall j :: j in ids ==> from <= j < from + n
    ensures |ids| <= n
    decreases n
  {
    if n == 0 {
      assert ids == {};
    } else {
      var last := from + n - 1;
      RangeSize(ids - {last}, from, n - 1);
    }
  }

  /** Ids on which the pops got stuck were below the cursor all along, in a word that held everything. */
  lemma StuckMeansLoses(v: View, xs: seq<nat>, r: nat)
    requires Sane(v) && Pops(v, xs) && Stuck(AfterPops(v, xs)) && r in AfterPops(v, xs).pending
    ensures LosesIn(v)
  {
    PopsLead(v, xs);
    var c := Stood(v, xs);
    assert WordBelow(r, c) && r in v.pending && r !in Distinct(xs);
    if xs == [] {
      assert Distinct(xs) == {};
    } else {
      var last := xs[|xs| - 1];
      assert Distance(v.cursor, last, v.total) < Distance(v.cursor, r, v.total);
      assert c == last + 1 && r < v.cursor <= last;
      assert v.cursor / 64 == c / 64;
      forall j | j in v.pending ensures v.cursor / 64 * 64 <= j < v.cursor / 64 * 64 + 63 {
        if j in xs {
          var i :| 0 <= i < |xs| && xs[i] == j;
          assert j != last ==> i < |xs| - 1;
          assert Distance(v.cursor, j, v.total) <= Distance(v.cursor, last, v.total);
        } else {
          assert j in AfterPops(v, xs).pending;
        }
      }
    }
  }

  // ---- the tick -----------------------------------------------------------------------------------------------------

  function Least(a: nat, b: nat): nat {
    if a <= b then a else b
  }

  lemma {:induction false} DistinctSize(xs: seq<nat>)
    requires forall i, j :: 0 <= i < j < |xs| ==> xs[i] != xs[j]
    ensures |Distinct(xs)| == |xs|
  {
    if xs != [] {
      DistinctSize(xs[1..]);
      assert xs == [xs[0]] + xs[1..];
      assert Distinct(xs) == {xs[0]} + Distinct(xs[1..]);
      assert xs[0] !in xs[1..];
    }
  }

  lemma LeadsAreDistinct(from: nat, total: nat, all: set<nat>, xs: seq<nat>)
    requires Leads(from, total, all, xs)
    ensures |Distinct(xs)| == |xs| && Distinct(xs) <= all && |xs| <= |all|
    ensures |all - Distinct(xs)| == |all| - |xs|
  {
    DistinctSize(xs);
    assert all == Distinct(xs) + (all - Distinct(xs));
  }

  /** Whether or not it loses: what is checked leads the pending ids in cyclic order, and only that is gone. */
  ghost predicate InOrder(v: View, t: Ticked) {
    && Leads(v.cursor, v.total, v.pending, t.checked)
    && Pending(t.after.words) == v.pending - Distinct(t.checked) && TotalBits(t.after.words) == v.total
  }

  /** A tick that does not lose checks as many ids as there are, but at most 256; the others stay counted, the cursor
      past the last one checked. */
  ghost predicate Full(v: View, t: Ticked) {
    && |t.checked| == Least(SIGNAL_CHECK_BUDGET_PER_TICK, |v.pending|)
    && Valid(t.after)
    && (if |t.checked| == SIGNAL_CHECK_BUDGET_PER_TICK then t.after.cursor == Stood(v, t.checked)
        else t.after.cursor == 0 || t.after.cursor == v.cursor)
  }

  /** A tick that loses checks exactly the ids at or past the cursor, and forgets the count of the others. */
  ghost predicate LeftBehind(v: View, t: Ticked) {
    && Distinct(t.checked) == From(v) && |t.checked| < Least(SIGNAL_CHECK_BUDGET_PER_TICK, |v.pending|)
    && t.after == Bits(t.after.words, 0, 0) && Pending(t.after.words) != {}
  }

  /** All that a tick does to a state with a right count. */
  ghost predicate Exact(s: Bits, t: Ticked) {
    && InOrder(ViewOf(s), t)
    && (if Loses(s) then LeftBehind(ViewOf(s), t) else Full(ViewOf(s), t))
  }

  lemma EmptyTick(s: Bits)
    requires Valid(s) && s.len == 0
    ensures Exact(s, Ticked(s, []))
  {
    SomethingPending(s);
    assert Pending(s.words) == {} && Distinct([]) == {};
  }

  lemma LosingIsShort(v: View, xs: seq<nat>)
    requires LosesIn(v) && Leads(v.cursor, v.total, v.pending, xs) && v.pending - Distinct(xs) != {}
    ensures |xs| < |v.pending| <= 63
  {
    RangeSize(v.pending, v.cursor / 64 * 64, 63);
    LeadsAreDistinct(v.cursor, v.total, v.pending, xs);
  }

  lemma LosingTick(s: Bits, d: Ticked)
    requires Valid(s) && DrainsTo(s, d, SIGNAL_CHECK_BUDGET_PER_TICK) && Loses(s)
    ensures Exact(s, d)
  {
    var v := ViewOf(s);
    ViewIsSane(s);
    PopsLead(v, d.checked);
    LosingPops(v, d.checked, |s.words|);
    LosingIsShort(v, d.checked);
  }

  lemma FullTick(s: Bits, d: Ticked)
    requires Valid(s) && DrainsTo(s, d, SIGNAL_CHECK_BUDGET_PER_TICK) && !Loses(s)
    ensures Exact(s, d)
  {
    var v := ViewOf(s);
    ViewIsSane(s);
    PopsLead(v, d.checked);
    LeadsAreDistinct(v.cursor, v.total, v.pending, d.checked);
    if |d.checked| < SIGNAL_CHECK_BUDGET_PER_TICK {
      if r :| r in AfterPops(v, d.checked).pending {
        StuckMeansLoses(v, d.checked, r);
      }
      assert Pending(d.after.words) == {};
    }
  }

  /** Every tick, from any state with a right count: the ids checked come in cyclic order from the cursor; ids are
      left behind uncounted if and only if the state loses, and then exactly those below the cursor; otherwise as
      many ids are checked as there are, up to 256, and the count stays right. */
  lemma TickExact(s: Bits)
    requires Valid(s)
    ensures Exact(s, Tick(s))
    ensures Loses(s) <==> !Valid(Tick(s).after)
  {
    if s.len == 0 {
      EmptyTick(s);
    } else {
      DrainExact(s, SIGNAL_CHECK_BUDGET_PER_TICK);
      if Loses(s) {
        LosingTick(s, Drain(s, SIGNAL_CHECK_BUDGET_PER_TICK));
      } else {
        FullTick(s, Drain(s, SIGNAL_CHECK_BUDGET_PER_TICK));
      }
    }
  }
}
