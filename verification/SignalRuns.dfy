/** Whole runs of marks and signal ticks: exactly when no check is lost, a run that loses one, and the case of ids
    within the budget. */
module SignalRuns {
  import opened PendingSymbols
  import opened SignalTick
  import opened TickOrder

  datatype Op = Mark(id: nat) | TickNow

  function Step(s: Bits, op: Op): Bits {
    if op.Mark? then Include(s, op.id) else Tick(s).after
  }

  function After(s: Bits, ops: seq<Op>): Bits
    decreases |ops|
  {
    if ops == [] then s else After(Step(s, ops[0]), ops[1..])
  }

  // ---- exactly when no check is lost ------------------------------------------------------------------------------

  /** Every tick of the run checks as many of the ids marked and not yet checked as there are, up to 256. */
  ghost predicate TicksFull(s: Bits, ops: seq<Op>)
    decreases |ops|
  {
    ops == []
    || ((ops[0].TickNow? ==> |Tick(s).checked| == Least(SIGNAL_CHECK_BUDGET_PER_TICK, |Pending(s.words)|))
        && TicksFull(Step(s, ops[0]), ops[1..]))
  }

  /** No tick of the run starts in a losing state. */
  ghost predicate NeverLoses(s: Bits, ops: seq<Op>)
    decreases |ops|
  {
    ops == [] || ((ops[0].TickNow? ==> !Loses(s)) && NeverLoses(Step(s, ops[0]), ops[1..]))
  }

  lemma StepIsValid(s: Bits, op: Op)
    requires Valid(s) && (op.TickNow? ==> !Loses(s))
    ensures Valid(Step(s, op))
  {
    if op.Mark? {
      IncludeExact(s, op.id);
    } else {
      TickExact(s);
    }
  }

  /** From any state with a right count, over every run of marks and ticks and for ids of any size: no check is lost
      if and only if no tick starts with all pending ids in the cursor's word, one of them below the cursor and the
      word's last id not pending. */
  lemma {:induction false} NoCheckIsLostExactly(s: Bits, ops: seq<Op>)
    requires Valid(s)
    ensures TicksFull(s, ops) <==> NeverLoses(s, ops)
    decreases |ops|
  {
    if ops != [] {
      if ops[0].TickNow? {
        TickExact(s);
      }
      if ops[0].Mark? || !Loses(s) {
        StepIsValid(s, ops[0]);
        NoCheckIsLostExactly(Step(s, ops[0]), ops[1..]);
      }
    }
  }

  /** The ids marked and not yet checked. */
  ghost function Outstanding(s: Bits, ops: seq<Op>): set<nat>
    decreases |ops|
  {
    if ops == [] then Pending(s.words)
    else
      var op := ops[|ops| - 1];
      var before := Outstanding(s, ops[..|ops| - 1]);
      if op.Mark? then before + {op.id} else before - Distinct(Tick(After(s, ops[..|ops| - 1])).checked)
  }

  lemma {:induction false} AfterSnoc(s: Bits, ops: seq<Op>)
    requires ops != []
    ensures After(s, ops) == Step(After(s, ops[..|ops| - 1]), ops[|ops| - 1])
    decreases |ops|
  {
    if |ops| > 1 {
      assert ops[1..][..|ops| - 2] == ops[..|ops| - 1][1..];
      AfterSnoc(Step(s, ops[0]), ops[1..]);
    } else {
      assert ops[1..] == [];
    }
  }

  lemma {:induction false} NeverLosesInit(s: Bits, ops: seq<Op>)
    requires ops != [] && NeverLoses(s, ops)
    ensures NeverLoses(s, ops[..|ops| - 1])
    ensures ops[|ops| - 1].TickNow? ==> !Loses(After(s, ops[..|ops| - 1]))
    decreases |ops|
  {
    if |ops| > 1 {
      assert ops[1..][..|ops| - 2] == ops[..|ops| - 1][1..];
      NeverLosesInit(Step(s, ops[0]), ops[1..]);
    }
  }

  /** While nothing is lost the backlog holds exactly the ids marked and not yet checked, and its count is right. */
  lemma {:induction false} BacklogIsOutstanding(s: Bits, ops: seq<Op>)
    requires Valid(s) && NeverLoses(s, ops)
    ensures Valid(After(s, ops)) && Pending(After(s, ops).words) == Outstanding(s, ops)
    decreases |ops|
  {
    if ops != [] {
      var init, op := ops[..|ops| - 1], ops[|ops| - 1];
      NeverLosesInit(s, ops);
      BacklogIsOutstanding(s, init);
      AfterSnoc(s, ops);
      StepIsValid(After(s, init), op);
      if op.Mark? {
        IncludeExact(After(s, init), op.id);
      } else {
        TickExact(After(s, init));
      }
    }
  }

  // ---- a lost check -----------------------------------------------------------------------------------------------

  lemma UncountedTick(t: Bits, r: nat)
    requires t == Bits(t.words, 0, 0) && r in Pending(t.words)
    ensures Include(t, r) == t && Tick(t) == Ticked(t, [])
  {
  }

  /** An id left behind is not counted when it is marked again, and the next tick does not check it. */
  lemma MarkingAgainDoesNotHelp(s: Bits, r: nat)
    requires Valid(s) && Loses(s) && r in Pending(Tick(s).after.words)
    ensures Include(Tick(s).after, r) == Tick(s).after
    ensures Tick(Include(Tick(s).after, r)) == Ticked(Tick(s).after, [])
  {
    TickExact(s);
    UncountedTick(Tick(s).after, r);
  }

  function UpTo(n: nat): seq<nat> {
    seq(n, i => i + 1)
  }

  /** After marking, as the pending ids and the cursor show it. */
  ghost predicate Holds(s: Bits, pending: set<nat>, cursor: nat, words: nat) {
    Valid(s) && ViewOf(s) == View(pending, cursor, 64 * words) && |s.words| == words
  }

  lemma MarkHolds(s: Bits, pending: set<nat>, cursor: nat, words: nat, id: nat)
    requires Holds(s, pending, cursor, words)
    ensures Holds(Include(s, id), pending + {id}, cursor, if words < id / 64 + 1 then id / 64 + 1 else words)
  {
    IncludeExact(s, id);
  }

  function WordsFor(n: nat): nat {
    if n == 0 then 0 else n / 64 + 1
  }

  lemma UpToSnoc(n: nat)
    ensures UpTo(n + 1) == UpTo(n) + [n + 1] && Distinct(UpTo(n + 1)) == Distinct(UpTo(n)) + {n + 1}
  {
    assert UpTo(n + 1) == UpTo(n) + [n + 1];
  }

  lemma {:induction false} MarkUpTo(n: nat)
    ensures Holds(MarkAll(EMPTY, UpTo(n)), Distinct(UpTo(n)), 0, WordsFor(n))
  {
    if n == 0 {
      assert Pending(EMPTY.words) == {} && UpTo(0) == [] && Distinct(UpTo(0)) == {};
    } else {
      MarkUpTo(n - 1);
      UpToSnoc(n - 1);
      MarkAllSnoc(EMPTY, UpTo(n - 1), n);
      MarkHolds(MarkAll(EMPTY, UpTo(n - 1)), Distinct(UpTo(n - 1)), 0, WordsFor(n - 1), n);
    }
  }

  lemma {:induction false} MarkAllSnoc(s: Bits, ids: seq<nat>, id: nat)
    ensures MarkAll(s, ids + [id]) == Include(MarkAll(s, ids), id)
    decreases |ids|
  {
    if ids == [] {
      assert (ids + [id])[1..] == [];
    } else {
      assert (ids + [id])[1..] == ids[1..] + [id];
      MarkAllSnoc(Include(s, ids[0]), ids[1..], id);
    }
  }

  lemma {:induction false} UpToSize(n: nat)
    ensures |Distinct(UpTo(n))| == n && forall j :: j in Distinct(UpTo(n)) <==> 1 <= j <= n
  {
    DistinctSize(UpTo(n));
    forall j | 1 <= j <= n ensures j in Distinct(UpTo(n)) {
      assert UpTo(n)[j - 1] == j;
    }
  }

  /** 256 increasing numbers from 1 on end at 256 or later. */
  lemma LastOf256(xs: seq<nat>)
    requires |xs| == 256 && forall i :: 0 <= i < |xs| ==> xs[i] >= 1
    requires forall i, j :: 0 <= i < j < |xs| ==> Distance(0, xs[i], 320) < Distance(0, xs[j], 320)
    ensures xs[255] >= 256
  {
    var k := 0;
    while k < 255
      invariant 0 <= k <= 255 && xs[k] >= k + 1
    {
      assert Distance(0, xs[k], 320) < Distance(0, xs[k + 1], 320);
      k := k + 1;
    }
  }

  /** The first 256 of 1 to 257: what is left is 257. */
  lemma FirstOf257(xs: seq<nat>)
    requires |xs| == 256 && Leads(0, 320, Distinct(UpTo(257)), xs)
    ensures Distinct(UpTo(257)) - Distinct(xs) == {257} && xs[255] == 256
  {
    var all := Distinct(UpTo(257));
    UpToSize(257);
    LastOf256(xs);
    LeadsAreDistinct(0, 320, all, xs);
    var left := all - Distinct(xs);
    var x :| x in left;
    assert x !in xs && Distance(0, xs[255], 320) < Distance(0, x, 320);
    assert x == 257;
    forall y | y in left ensures y == 257 {
      assert y !in xs && Distance(0, xs[255], 320) < Distance(0, y, 320);
    }
  }

  lemma FirstTick(s: Bits, t: Ticked)
    requires Holds(s, Distinct(UpTo(257)), 0, 5) && Exact(s, t)
    ensures |t.checked| == 256 && Holds(t.after, {257}, 257, 5)
  {
    UpToSize(257);
    FirstOf257(t.checked);
  }

  lemma SecondTick(s: Bits, t: Ticked)
    requires Holds(s, {256, 257}, 257, 5) && Exact(s, t)
    ensures Loses(s) && t.checked == [257] && 256 in Pending(t.after.words) && t.after.len == 0
  {
    var v := ViewOf(s);
    assert 256 in v.pending && From(v) == {257};
    LeadsAreDistinct(v.cursor, v.total, v.pending, t.checked);
    assert t.checked[0] in Distinct(t.checked);
  }

  /** A run that loses a check: 1 to 257 are marked and a tick checks 1 to 256; 256 is marked; the next tick checks
      257 only and forgets 256. Marked once more, 256 is still not checked by the tick after that. */
  lemma LosingRun()
    ensures var first := Tick(MarkAll(EMPTY, UpTo(257)));
            var second := Tick(Include(first.after, 256));
            var third := Tick(Include(second.after, 256));
            && |first.checked| == 256 && second.checked == [257] && third.checked == []
            && 256 in Pending(third.after.words) && third.after.len == 0
  {
    MarkUpTo(257);
    var s := MarkAll(EMPTY, UpTo(257));
    TickExact(s);
    var first := Tick(s);
    FirstTick(s, first);
    MarkHolds(first.after, {257}, 257, 5, 256);
    assert {257} + {256} == {256, 257};
    var t := Include(first.after, 256);
    TickExact(t);
    SecondTick(t, Tick(t));
    UncountedTick(Tick(t).after, 256);
  }

  // ---- ids within the budget ----------------------------------------------------------------------------------------

  predicate Ascending(xs: seq<nat>) {
    forall i, j :: 0 <= i < j < |xs| ==> xs[i] < xs[j]
  }

  predicate Small(s: Bits) {
    |s.words| <= SIGNAL_CHECK_BUDGET_PER_TICK / 64
  }

  /** Between ticks: the cursor is at 0, the count is right, and what is pending is exactly what was marked
      since the last tick. */
  ghost predicate Rested(s: Bits, marked: set<nat>) {
    Valid(s) && Small(s) && s.cursor == 0 && Pending(s.words) == marked
  }

  lemma MarkRests(s: Bits, marked: set<nat>, id: nat)
    requires Rested(s, marked) && id < SIGNAL_CHECK_BUDGET_PER_TICK
    ensures Rested(Include(s, id), marked + {id})
  {
    IncludeExact(s, id);
  }

  /** 256 increasing ids end at 255 or later. */
  lemma FullHouse(xs: seq<nat>)
    requires |xs| == SIGNAL_CHECK_BUDGET_PER_TICK && Ascending(xs)
    ensures xs[|xs| - 1] >= 255
  {
    var k := 0;
    while k < 255
      invariant 0 <= k <= 255 && xs[k] >= k
    {
      k := k + 1;
    }
  }

  lemma LeadsFromZero(total: nat, all: set<nat>, xs: seq<nat>)
    requires Leads(0, total, all, xs)
    ensures Ascending(xs)
  {
    forall i, j | 0 <= i < j < |xs| ensures xs[i] < xs[j] {
      assert Distance(0, xs[i], total) < Distance(0, xs[j], total);
    }
  }

  lemma RestedTick(s: Bits, marked: set<nat>, t: Ticked)
    requires Rested(s, marked) && Exact(s, t)
    ensures Distinct(t.checked) == marked && Ascending(t.checked) && Rested(t.after, {})
  {
    var v := ViewOf(s);
    assert !Loses(s);
    RangeSize(marked, 0, SIGNAL_CHECK_BUDGET_PER_TICK);
    LeadsFromZero(v.total, marked, t.checked);
    LeadsAreDistinct(0, v.total, marked, t.checked);
    if |t.checked| == SIGNAL_CHECK_BUDGET_PER_TICK {
      FullHouse(t.checked);
    }
  }

  /** One tick checks every id marked since the last one, each once and in ascending order, and leaves
      nothing behind. */
  lemma TickChecksEverything(s: Bits, marked: set<nat>)
    requires Rested(s, marked)
    ensures var t := Tick(s);
            && Distinct(t.checked) == marked && Ascending(t.checked)
            && Rested(t.after, {}) && !Loses(s)
  {
    TickExact(s);
    RestedTick(s, marked, Tick(s));
  }

  predicate InBudget(ops: seq<Op>) {
    forall op :: op in ops && op.Mark? ==> op.id < SIGNAL_CHECK_BUDGET_PER_TICK
  }

  /** What each tick of a run checks. */
  function Checks(s: Bits, ops: seq<Op>): seq<seq<nat>>
    decreases |ops|
  {
    if ops == [] then []
    else if ops[0].Mark? then Checks(Include(s, ops[0].id), ops[1..])
    else [Tick(s).checked] + Checks(Tick(s).after, ops[1..])
  }

  /** What each tick of a run should check: the ids marked since the previous tick. */
  function Due(marked: set<nat>, ops: seq<Op>): seq<set<nat>>
    decreases |ops|
  {
    if ops == [] then []
    else if ops[0].Mark? then Due(marked + {ops[0].id}, ops[1..])
    else [marked] + Due({}, ops[1..])
  }

  /** Each tick checks what it should, each id once and in ascending order. */
  ghost predicate AsDue(checks: seq<seq<nat>>, due: seq<set<nat>>) {
    && |checks| == |due|
    && forall k :: 0 <= k < |checks| && k < |due| ==> Ascending(checks[k]) && Distinct(checks[k]) == due[k]
  }

  lemma AsDueExtends(checked: seq<nat>, marked: set<nat>, checks: seq<seq<nat>>, due: seq<set<nat>>)
    requires Ascending(checked) && Distinct(checked) == marked && AsDue(checks, due)
    ensures AsDue([checked] + checks, [marked] + due)
  {
  }

  /** Corollary for ids below 256: each tick checks exactly what was marked since the one before. */
  lemma {:induction false} RunChecksEverything(s: Bits, marked: set<nat>, ops: seq<Op>)
    requires Rested(s, marked) && InBudget(ops)
    ensures AsDue(Checks(s, ops), Due(marked, ops)) && NeverLoses(s, ops)
    decreases |ops|
  {
    if ops != [] {
      var op, rest := ops[0], ops[1..];
      assert forall o :: o in rest ==> o in ops;
      if op.Mark? {
        assert op in ops;
        MarkRests(s, marked, op.id);
        RunChecksEverything(Include(s, op.id), marked + {op.id}, rest);
      } else {
        TickChecksEverything(s, marked);
        var t := Tick(s);
        RunChecksEverything(t.after, {}, rest);
        AsDueExtends(t.checked, marked, Checks(t.after, rest), Due({}, rest));
      }
    }
  }

  /** From an empty backlog. */
  lemma FreshRunChecksEverything(ops: seq<Op>)
    requires InBudget(ops)
    ensures AsDue(Checks(EMPTY, ops), Due({}, ops)) && NeverLoses(EMPTY, ops)
  {
    assert Pending(EMPTY.words) == {};
    RunChecksEverything(EMPTY, {}, ops);
  }
}
