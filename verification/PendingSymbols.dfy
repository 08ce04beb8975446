/** The signal backlog: a bitset of symbol ids with a rotating cursor. A 64-bit word is modelled bit by bit,
    lowest bit first. */
module PendingSymbols {
  import opened FleetTrades

  type Word = w: seq<bool> | |w| == 64 witness seq(64, _ => false)

  const ZERO: Word := seq(64, _ => false)

  /** `!0 << from`. */
  function MaskFrom(from: nat): Word {
    seq(64, k => k >= from)
  }

  function And(a: Word, b: Word): Word {
    seq(64, k requires 0 <= k < 64 => a[k] && b[k])
  }

  datatype Bits = Bits(words: seq<Word>, len: nat, cursor: nat)

  const EMPTY: Bits := Bits([], 0, 0)

  function TotalBits(words: seq<Word>): nat { 64 * |words| }

  predicate IsSet(words: seq<Word>, i: nat) {
    i < TotalBits(words) && words[i / 64][i % 64]
  }

  function Pending(words: seq<Word>): set<nat> {
    set i: nat | 0 <= i < TotalBits(words) && IsSet(words, i)
  }

  function Write(words: seq<Word>, i: nat, bit: bool): seq<Word>
    requires i < TotalBits(words)
  {
    words[i / 64 := words[i / 64][i % 64 := bit]]
  }

  function Grow(words: seq<Word>, count: nat): seq<Word> {
    if |words| < count then words + seq(count - |words|, _ => ZERO) else words
  }

  /** The first set bit in `[lo, hi)`. */
  function First(words: seq<Word>, lo: nat, hi: nat): (f: Option<nat>)
    requires hi <= TotalBits(words)
    ensures f.Some? ==> lo <= f.value < hi && IsSet(words, f.value)
    ensures f.Some? ==> forall j :: lo <= j < f.value ==> !IsSet(words, j)
    ensures f.None? ==> forall j :: lo <= j < hi ==> !IsSet(words, j)
    decreases hi - lo
  {
    if lo >= hi then None
    else if IsSet(words, lo) then Some(lo)
    else First(words, lo + 1, hi)
  }

  // ---- the operations as functions --------------------------------------------------------------------

  function Include(s: Bits, id: nat): Bits {
    var words := Grow(s.words, id / 64 + 1);
    if IsSet(words, id) then s.(words := words)
    else Bits(Write(words, id, true), s.len + 1, s.cursor)
  }

  datatype Popped = Popped(after: Bits, id: Option<nat>)

  function Take(s: Bits, id: nat): Popped
    requires id < TotalBits(s.words)
  {
    Popped(Bits(Write(s.words, id, false), if s.len == 0 then 0 else s.len - 1,
                if id + 1 >= TotalBits(s.words) then 0 else id + 1),
           Some(id))
  }

  /** From `start` to the end, then from the beginning up to the word of `start`, which is not looked at
      again. */
  function PopFrom(s: Bits, start: nat): Popped
    requires start < TotalBits(s.words)
  {
    var ahead := First(s.words, start, TotalBits(s.words));
    if ahead.Some? then Take(s, ahead.value)
    else
      var wrapped := First(s.words, 0, start / 64 * 64);
      if wrapped.Some? then Take(s, wrapped.value) else Popped(Bits(s.words, 0, 0), None)
  }

  function Pop(s: Bits): Popped {
    if s.len == 0 || TotalBits(s.words) == 0 then Popped(Bits(s.words, 0, 0), None)
    else PopFrom(s, s.cursor % TotalBits(s.words))
  }

  /** What a pop does, told by the bits it skipped. */
  lemma PopAhead(s: Bits, i: nat)
    requires s.len > 0 && i < TotalBits(s.words) && s.cursor % TotalBits(s.words) <= i && IsSet(s.words, i)
    requires forall j :: s.cursor % TotalBits(s.words) <= j < i ==> !IsSet(s.words, j)
    ensures Pop(s) == Take(s, i)
  {
  }

  lemma PopWrapped(s: Bits, i: nat)
    requires s.len > 0 && TotalBits(s.words) > 0
    requires var start := s.cursor % TotalBits(s.words);
             && (forall j :: start <= j < TotalBits(s.words) ==> !IsSet(s.words, j))
             && i < start / 64 * 64 && IsSet(s.words, i)
    requires forall j :: 0 <= j < i ==> !IsSet(s.words, j)
    ensures Pop(s) == Take(s, i)
  {
  }

  lemma PopLost(s: Bits)
    requires s.len > 0 && TotalBits(s.words) > 0
    requires var start := s.cursor % TotalBits(s.words);
             && (forall j :: start <= j < TotalBits(s.words) ==> !IsSet(s.words, j))
             && (forall j :: 0 <= j < start / 64 * 64 ==> !IsSet(s.words, j))
    ensures Pop(s) == Popped(Bits(s.words, 0, 0), None)
  {
  }

  /** The bits of word `idx` from `from` on that the mask lets through are clear. */
  predicate MaskedClear(words: seq<Word>, idx: nat, from: nat, upTo: nat) {
    idx < |words| && forall j :: idx * 64 + from <= j < idx * 64 + upTo ==> !IsSet(words, j)
  }

  // ---- the set as the source writes it ------------------------------------------------------------------

  class PendingSymbolSet {
    var words: seq<Word>
    var len: nat
    var nextCursorSymbol: nat

    function State(): Bits
      reads this
    {
      Bits(words, len, nextCursorSymbol)
    }

    constructor ()
      ensures State() == EMPTY
    {
      words, len, nextCursorSymbol := [], 0, 0;
    }

    method Add(symbolId: nat)
      modifies this
      ensures State() == Include(old(State()), symbolId)
    {
      var wordIdx, bitOffset := symbolId / 64, symbolId % 64;
      if |words| <= wordIdx {
        words := words + seq(wordIdx + 1 - |words|, _ => ZERO);
      }
      if words[wordIdx][bitOffset] { return; }
      words := words[wordIdx := words[wordIdx][bitOffset := true]];
      len := len + 1;
    }

    /** Takes the lowest bit of one masked word. */
    method PopFromWord(wordIdx: nat, from: nat, totalBits: nat) returns (id: Option<nat>)
      requires wordIdx < |words| && from < 64 && totalBits == TotalBits(words)
      modifies this
      ensures id.None? ==> State() == old(State()) && MaskedClear(words, wordIdx, from, 64)
      ensures id.Some? ==>
                && wordIdx * 64 + from <= id.value < wordIdx * 64 + 64
                && IsSet(old(words), id.value)
                && MaskedClear(old(words), wordIdx, from, id.value - wordIdx * 64)
                && Popped(State(), id) == Take(old(State()), id.value)
    {
      var mask := MaskFrom(from);
      var word := And(words[wordIdx], mask);
      var bitOffset := 0;
      while bitOffset < 64 && !word[bitOffset]
        invariant 0 <= bitOffset <= 64
        invariant MaskedClear(words, wordIdx, from, bitOffset)
      {
        assert word[bitOffset] == (words[wordIdx][bitOffset] && mask[bitOffset]);
        bitOffset := bitOffset + 1;
      }
      if bitOffset == 64 { return None; }
      assert words[wordIdx][bitOffset] && mask[bitOffset];
      var symbolId := wordIdx * 64 + bitOffset;
      assert symbolId / 64 == wordIdx && symbolId % 64 == bitOffset;
      words := words[wordIdx := words[wordIdx][bitOffset := false]];
      len := if len == 0 then 0 else len - 1;
      nextCursorSymbol := if symbolId + 1 >= totalBits then 0 else symbolId + 1;
      return Some(symbolId);
    }

    method PopFirst() returns (id: Option<nat>)
      modifies this
      ensures Popped(State(), id) == Pop(old(State()))
    {
      if len == 0 {
        nextCursorSymbol := 0;
        return None;
      }
      var totalBits := |words| * 64;
      if totalBits == 0 {
        nextCursorSymbol, len := 0, 0;
        return None;
      }
      var start := nextCursorSymbol % totalBits;
      var startWord, startOffset := start / 64, start % 64;
      id := PopFromWord(startWord, startOffset, totalBits);
      if id.Some? {
        PopAhead(old(State()), id.value);
        return;
      }
      var wordIdx := startWord + 1;
      while wordIdx < |words|
        invariant startWord < wordIdx <= |words|
        invariant State() == old(State())
        invariant forall j :: start <= j < wordIdx * 64 ==> !IsSet(words, j)
      {
        id := PopFromWord(wordIdx, 0, totalBits);
        if id.Some? {
          PopAhead(old(State()), id.value);
          return;
        }
        wordIdx := wordIdx + 1;
      }
      wordIdx := 0;
      while wordIdx < startWord
        invariant 0 <= wordIdx <= startWord
        invariant State() == old(State())
        invariant forall j :: 0 <= j < wordIdx * 64 ==> !IsSet(words, j)
      {
        id := PopFromWord(wordIdx, 0, totalBits);
        if id.Some? {
          PopWrapped(old(State()), id.value);
          return;
        }
        wordIdx := wordIdx + 1;
      }
      PopLost(old(State()));
      nextCursorSymbol, len := 0, 0;
      return None;
    }
  }

  // ---- what the set promises -------------------------------------------------------------------------

  /** `len` is the number of set bits. */
  ghost predicate Counted(s: Bits) {
    s.len == |Pending(s.words)|
  }

  ghost predicate Valid(s: Bits) {
    Counted(s) && (s.cursor == 0 || s.cursor < TotalBits(s.words))
  }

  lemma GrowKeeps(words: seq<Word>, count: nat)
    ensures Pending(Grow(words, count)) == Pending(words)
    ensures |Grow(words, count)| == if |words| < count then count else |words|
  {
    var grown := Grow(words, count);
    assert forall i :: 0 <= i < |words| ==> grown[i] == words[i];
    assert forall i :: |words| <= i < |grown| ==> grown[i] == ZERO;
    forall i: nat ensures IsSet(grown, i) == IsSet(words, i) {
      if i < TotalBits(grown) && i >= TotalBits(words) {
        assert grown[i / 64] == ZERO;
      }
    }
  }

  lemma WriteExact(words: seq<Word>, i: nat, bit: bool)
    requires i < TotalBits(words)
    ensures Pending(Write(words, i, bit)) == if bit then Pending(words) + {i} else Pending(words) - {i}
  {
    var now := Write(words, i, bit);
    forall j: nat ensures IsSet(now, j) == if j == i then bit else IsSet(words, j) {
      if j < TotalBits(words) && j / 64 == i / 64 && j % 64 == i % 64 {
        assert j == i;
      }
    }
  }

  lemma IncludeExact(s: Bits, id: nat)
    requires Valid(s)
    ensures var t := Include(s, id);
            && Valid(t) && Pending(t.words) == Pending(s.words) + {id} && t.cursor == s.cursor
            && |t.words| == if |s.words| < id / 64 + 1 then id / 64 + 1 else |s.words|
  {
    var words := Grow(s.words, id / 64 + 1);
    GrowKeeps(s.words, id / 64 + 1);
    assert IsSet(words, id) <==> id in Pending(words);
    if !IsSet(words, id) {
      WriteExact(words, id, true);
    } else {
      assert Pending(s.words) + {id} == Pending(s.words);
    }
  }

  /** How far a rotating cursor at `from` has to go to reach `to`. */
  function Distance(from: nat, to: nat, total: nat): int {
    if to >= from then to - from else to - from + total
  }

  /** What a pop of a valid set finds, bit by bit. */
  lemma PopScan(s: Bits)
    requires Valid(s) && s.len > 0 && TotalBits(s.words) > 0
    ensures Pop(s) == PopFrom(s, s.cursor)
    ensures Pop(s).id.Some? ==>
              var id := Pop(s).id.value;
              && IsSet(s.words, id) && Pop(s) == Take(s, id)
              && (id >= s.cursor ==> forall j :: s.cursor <= j < id ==> !IsSet(s.words, j))
              && (id < s.cursor ==> (forall j :: s.cursor <= j < TotalBits(s.words) ==> !IsSet(s.words, j))
                                    && (forall j :: 0 <= j < id ==> !IsSet(s.words, j))
                                    && id < s.cursor / 64 * 64)
    ensures Pop(s).id.None? ==>
              && Pop(s).after == Bits(s.words, 0, 0)
              && forall j :: 0 <= j < TotalBits(s.words) && IsSet(s.words, j) ==> s.cursor / 64 * 64 <= j < s.cursor
  {
    SmallMod(s.cursor, TotalBits(s.words));
  }

  lemma SmallMod(a: nat, n: nat)
    requires a < n
    ensures a % n == a
  {
  }

  lemma SomethingPending(s: Bits)
    requires Valid(s)
    ensures s.len > 0 <==> exists j :: j in Pending(s.words)
    ensures s.len > 0 ==> TotalBits(s.words) > 0
  {
    if s.len > 0 {
      var j :| j in Pending(s.words);
    }
  }

  /** A successful pop takes out one pending id, the one cyclically nearest the cursor, and moves the cursor
      just past it. */
  lemma PopTakesNearest(s: Bits)
    requires Valid(s) && Pop(s).id.Some?
    ensures var id, t, total := Pop(s).id.value, Pop(s).after, TotalBits(s.words);
            && id in Pending(s.words)
            && (forall j :: j in Pending(s.words) ==> Distance(s.cursor, id, total) <= Distance(s.cursor, j, total))
            && Valid(t) && Pending(t.words) == Pending(s.words) - {id} && |t.words| == |s.words|
            && t.cursor == if id + 1 == total then 0 else id + 1
  {
    PopScan(s);
    WriteExact(s.words, Pop(s).id.value, false);
  }

  /** A pop finds nothing exactly when every pending id lies in the cursor's own word below the cursor. */
  lemma PopFailsExactly(s: Bits)
    requires Valid(s)
    ensures Pop(s).id.None? <==> forall j :: j in Pending(s.words) ==> s.cursor / 64 * 64 <= j < s.cursor
    ensures Pop(s).id.None? ==> Pop(s).after == Bits(s.words, 0, 0)
  {
    SomethingPending(s);
    if s.len > 0 {
      PopScan(s);
      if Pop(s).id.Some? {
        assert Pop(s).id.value in Pending(s.words);
      }
    }
  }

  /** So an unsuccessful pop need not mean an empty set: after 5 went in and out and 3 went in, the pop
      finds nothing, resets the count and leaves 3 behind. */
  lemma LosingPop()
    ensures var s := Include(Pop(Include(EMPTY, 5)).after, 3);
            Valid(s) && Pop(s).id.None? && Pending(Pop(s).after.words) == {3} && !Counted(Pop(s).after)
  {
    assert Pending(EMPTY.words) == {};
    IncludeExact(EMPTY, 5);
    var one := Include(EMPTY, 5);
    assert 5 in Pending(one.words);
    PopFailsExactly(one);
    PopTakesNearest(one);
    var none := Pop(one).after;
    IncludeExact(none, 3);
    PopFailsExactly(Include(none, 3));
  }

  // ---- fairness ------------------------------------------------------------------------------------------

  datatype Op = Ins(id: nat) | Take1

  function Step(s: Bits, op: Op): Bits {
    match op
    case Ins(id) => Include(s, id)
    case Take1 => Pop(s).after
  }

  function Steps(s: Bits, ops: seq<Op>): Bits
    decreases |ops|
  {
    if ops == [] then s else Steps(Step(s, ops[0]), ops[1..])
  }

  /** Every pop of the stretch succeeds with an id other than `i`. */
  predicate Bypasses(s: Bits, ops: seq<Op>, i: nat)
    decreases |ops|
  {
    ops == [] || ((ops[0].Take1? ==> Pop(s).id.Some? && Pop(s).id.value != i) && Bypasses(Step(s, ops[0]), ops[1..], i))
  }

  function Pops(ops: seq<Op>): nat {
    if ops == [] then 0 else (if ops[0].Take1? then 1 else 0) + Pops(ops[1..])
  }

  lemma StepKeepsWords(s: Bits, op: Op)
    ensures |s.words| <= |Step(s, op).words|
  {
    if op.Ins? {
      GrowKeeps(s.words, op.id / 64 + 1);
    }
  }

  lemma {:induction false} WordsGrow(s: Bits, ops: seq<Op>)
    ensures |s.words| <= |Steps(s, ops).words|
    decreases |ops|
  {
    if ops != [] {
      StepKeepsWords(s, ops[0]);
      WordsGrow(Step(s, ops[0]), ops[1..]);
    }
  }

  /** However other ids are put back, a pending id is bypassed fewer times than the set has bits at the end:
      its distance from the cursor, taken in the final capacity, shrinks with every bypass. */
  lemma {:induction false} BypassBound(s: Bits, ops: seq<Op>, i: nat)
    requires Valid(s) && i in Pending(s.words) && Bypasses(s, ops, i)
    ensures i in Pending(Steps(s, ops).words) && Valid(Steps(s, ops))
    ensures Pops(ops) <= Distance(s.cursor, i, TotalBits(Steps(s, ops).words)) < TotalBits(Steps(s, ops).words)
    decreases |ops|
  {
    WordsGrow(s, ops);
    if ops != [] {
      if ops[0].Ins? {
        IncludeExact(s, ops[0].id);
      } else {
        PopTakesNearest(s);
      }
      BypassBound(Step(s, ops[0]), ops[1..], i);
    }
  }
}
