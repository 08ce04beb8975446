/** The signal tick: up to 256 ids are popped from the backlog and checked. */
module SignalTick {
  import opened PendingSymbols

  const SIGNAL_CHECK_BUDGET_PER_TICK: nat := 256

  datatype Ticked = Ticked(after: Bits, checked: seq<nat>)

  /** The ids a tick with `budget` pops left checks, in order. */
  function Drain(s: Bits, budget: nat): Ticked
    decreases budget
  {
    if budget == 0 then Ticked(s, [])
    else
      var popped := Pop(s);
      if popped.id.None? then Ticked(popped.after, [])
      else After([popped.id.value], Drain(popped.after, budget - 1))
  }

  function After(checked: seq<nat>, rest: Ticked): Ticked {
    rest.(checked := checked + rest.checked)
  }

  lemma DrainNext(s: Bits, budget: nat, checked: seq<nat>)
    requires budget > 0
    ensures Pop(s).id.None? ==> After(checked, Drain(s, budget)) == Ticked(Pop(s).after, checked)
    ensures Pop(s).id.Some? ==>
              After(checked, Drain(s, budget)) == After(checked + [Pop(s).id.value], Drain(Pop(s).after, budget - 1))
  {
  }

  function Tick(s: Bits): Ticked {
    if s.len == 0 then Ticked(s, []) else Drain(s, SIGNAL_CHECK_BUDGET_PER_TICK)
  }

  class EventLoop {
    const pendingSignalSymbols: PendingSymbolSet

    constructor ()
      ensures fresh(pendingSignalSymbols) && pendingSignalSymbols.State() == EMPTY
    {
      pendingSignalSymbols := new PendingSymbolSet();
    }

    method MarkPendingSignalSymbols(ids: seq<nat>)
      modifies pendingSignalSymbols
      ensures pendingSignalSymbols.State() == MarkAll(old(pendingSignalSymbols.State()), ids)
    {
      for k := 0 to |ids|
        invariant MarkAll(old(pendingSignalSymbols.State()), ids) == MarkAll(pendingSignalSymbols.State(), ids[k..])
      {
        assert ids[k..][1..] == ids[k + 1..];
        pendingSignalSymbols.Add(ids[k]);
      }
    }

    method HandleSignalTick() returns (checked: seq<nat>)
      modifies pendingSignalSymbols
      ensures Ticked(pendingSignalSymbols.State(), checked) == Tick(old(pendingSignalSymbols.State()))
    {
      checked := [];
      if pendingSignalSymbols.len == 0 { return; }
      for k := 0 to SIGNAL_CHECK_BUDGET_PER_TICK
        invariant Drain(old(pendingSignalSymbols.State()), SIGNAL_CHECK_BUDGET_PER_TICK)
               == After(checked, Drain(pendingSignalSymbols.State(), SIGNAL_CHECK_BUDGET_PER_TICK - k))
      {
        DrainNext(pendingSignalSymbols.State(), SIGNAL_CHECK_BUDGET_PER_TICK - k, checked);
        var id := pendingSignalSymbols.PopFirst();
        if id.None? { break; }
        checked := checked + [id.value];
      }
    }
  }

  function MarkAll(s: Bits, ids: seq<nat>): Bits
    decreases |ids|
  {
    if ids == [] then s else MarkAll(Include(s, ids[0]), ids[1..])
  }
}
