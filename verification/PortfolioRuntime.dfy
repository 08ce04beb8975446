/** The portfolio runtime as the source updates it, and the ledger's promises over whole runs. */
module PortfolioRuntime {
  import opened Numbers
  import opened FleetTrades
  import opened DrainedTrades
  import opened Ranking
  import opened FirstSeenOrder
  import opened Allocation
  import opened PortfolioEngine
  import opened PaperLedger

  class RuntimeState {
    const engine: Engine
    var lastRebalanceMs: Option<int>
    var latestAssignment: Assignment
    var assignmentHistory: seq<Snapshot>
    var paperState: map<string, Account>

    ghost function State(): Runtime
      reads this, engine
    {
      Runtime(engine.portfolioIds, engine.guards, lastRebalanceMs, latestAssignment, assignmentHistory, paperState)
    }

    constructor ()
      ensures fresh(engine) && State() == FRESH
    {
      engine := new Engine();
      lastRebalanceMs, latestAssignment, assignmentHistory := None, map[], [];
      paperState := Opening(DEFAULT_IDS);
    }

    method EnsurePortfolioPaperStateSlots()
      modifies this`paperState
      ensures State() == EnsureSlots(old(State()))
    {
      if |paperState| == |engine.portfolioIds| && forall id :: id in engine.portfolioIds ==> id in paperState {
        return;
      }
      paperState := Opening(engine.portfolioIds);
    }

    /** The first portfolio in id order that has the symbol active. */
    static method OwnerFromAssignment(a: Assignment, symbol: string) returns (owner: Option<string>)
      ensures owner == Owner(a, symbol)
    {
      owner := None;
      var rest := a.Keys;
      ghost var seen: set<string> := {};
      while rest != {}
        invariant rest == a.Keys - seen && seen <= a.Keys
        invariant BestSoFar(a, symbol, seen, owner)
        decreases |rest|
      {
        var id :| id in rest;
        SeeOne(a, symbol, seen, owner, id);
        if symbol in a[id].active && (owner.None? || CmpString(id, owner.value) == Less) {
          owner := Some(id);
        }
        seen, rest := seen + {id}, rest - {id};
      }
      assert Owners(a, symbol) * seen == Owners(a, symbol);
      if owner.Some? {
        LeastIsOwner(a, symbol, owner.value);
      }
    }

    method OwnerAtEntry(symbol: string, entryTs: int) returns (owner: Option<string>)
      ensures owner == EntryOwner(assignmentHistory, symbol, entryTs)
    {
      var n := |assignmentHistory|;
      assert assignmentHistory[..n] == assignmentHistory;
      while n > 0
        invariant 0 <= n <= |assignmentHistory|
        invariant EntryOwner(assignmentHistory, symbol, entryTs) == EntryOwner(assignmentHistory[..n], symbol, entryTs)
      {
        var snapshot := assignmentHistory[n - 1];
        assert assignmentHistory[..n][..n - 1] == assignmentHistory[..n - 1];
        if snapshot.updatedAt <= entryTs {
          owner := OwnerFromAssignment(snapshot.assignment, symbol);
          if owner.Some? { return; }
        }
        n := n - 1;
      }
      return None;
    }

    /** One drained trade: the guard records it and at most one account is credited. */
    method ObserveTrade(t: FleetTrade)
      requires Inv(State())
      modifies this`paperState, engine`guards
      ensures State() == Credit(old(State()), t)
      ensures forall id :: id in old(paperState) ==>
                id in paperState
                && if Earns(old(State()), t, id) then paperState[id] == Observe(old(paperState)[id], t.pnlPct, t.tsMs)
                   else paperState[id] == old(paperState)[id]
    {
      forall id ensures Earns(State(), t, id) <==> CreditTo(State(), t) == Some(id) {
        EarnsExact(State(), t, id);
      }
      OwnersHaveAccounts(State(), t);
      var triggered := engine.RecordClosedTrade(t.symbol, CloseOf(t));
      var paperUpdated := false;
      var atEntry := OwnerAtEntry(t.symbol, t.entryTsMs);
      if atEntry.Some? && atEntry.value in paperState {
        paperState := paperState[atEntry.value := Observe(paperState[atEntry.value], t.pnlPct, t.tsMs)];
        paperUpdated := true;
      }
      if !paperUpdated {
        var current := OwnerFromAssignment(latestAssignment, t.symbol);
        if current.Some? {
          assert current.value in paperState;
          paperState := paperState[current.value := Observe(paperState[current.value], t.pnlPct, t.tsMs)];
        }
      }
    }

    /** Every trade of a drain, after the slots were checked. */
    method HandleDrainedTrades(trades: seq<FleetTrade>)
      requires Inv(State())
      modifies this`paperState, engine`guards
      ensures State() == CreditAll(old(State()), trades) && Inv(State())
    {
      SlotRepairIsNoOp(State());
      EnsurePortfolioPaperStateSlots();
      for n := 0 to |trades|
        invariant State() == CreditAll(old(State()), trades[..n]) && Inv(State())
      {
        assert trades[..n + 1][..n] == trades[..n];
        CreditKeeps(State(), trades[n]);
        ObserveTrade(trades[n]);
      }
      assert trades[..|trades|] == trades;
    }

    /** The ledger part of handling a drain: sorted, deduplicated and filtered, its trades are credited in order. */
    method HandleDrainedFleetTrades(drained: seq<FleetTrade>, activeRun: Option<string>)
      requires Inv(State())
      modifies this`paperState, engine`guards
      ensures State() == CreditAll(old(State()), FilterActiveRun(Cleaned(drained), activeRun)) && Inv(State())
      ensures InOrder(FilterActiveRun(Cleaned(drained), activeRun))
    {
      CleanedIsInOrder(drained);
      FilterInOrder(Cleaned(drained), activeRun);
      var deduped := DedupeDrainedTrades(SortDrain(drained));
      HandleDrainedTrades(FilterActiveRun(deduped, activeRun));
    }

    method RecordAssignmentSnapshot(now: int)
      requires |assignmentHistory| <= ASSIGNMENT_HISTORY_CAP
      modifies this`assignmentHistory
      ensures assignmentHistory == RecordSnapshot(old(assignmentHistory), latestAssignment, now)
    {
      if assignmentHistory != [] {
        var last := |assignmentHistory| - 1;
        if assignmentHistory[last].updatedAt == now {
          assignmentHistory := assignmentHistory[last := Snapshot(now, latestAssignment)];
          return;
        }
      }
      assignmentHistory := assignmentHistory + [Snapshot(now, latestAssignment)];
      while |assignmentHistory| > ASSIGNMENT_HISTORY_CAP
        invariant |assignmentHistory| <= ASSIGNMENT_HISTORY_CAP + 1
        invariant var longer := old(assignmentHistory) + [Snapshot(now, latestAssignment)];
          |assignmentHistory| <= |longer| && assignmentHistory == longer[|longer| - |assignmentHistory|..]
          && (|assignmentHistory| < |longer| ==> |assignmentHistory| >= ASSIGNMENT_HISTORY_CAP)
        decreases |assignmentHistory|
      {
        assignmentHistory := assignmentHistory[1..];
      }
    }

    /** At most one rebalance per interval; what it keeps is `RebalanceKeeps`. */
    method MaybeRebalance(candidates: seq<SymbolStats>, now: int)
      requires Inv(State()) && DistinctSymbols(candidates)
      modifies this
      ensures State() == Rebalance(old(State()), candidates, now)
    {
      ghost var r := State();
      SlotRepairIsNoOp(r);
      if lastRebalanceMs.Some? && Saturate(now - lastRebalanceMs.value) < REBALANCE_INTERVAL_MS { return; }
      EnsurePortfolioPaperStateSlots();
      var states := engine.AssignWithoutOverlap(candidates, now);
      latestAssignment := states;
      lastRebalanceMs := Some(now);
      assert State() == r.(assignment := states, lastRebalance := Some(now));
      RecordAssignmentSnapshot(now);
      assert State() == r.(assignment := states, lastRebalance := Some(now),
                           history := RecordSnapshot(r.history, states, now));
      RebalanceParts(r, candidates, now, states);
    }

    /** Changing the portfolio set starts the ledger over. */
    method SetPortfolioIds(raw: seq<string>)
      modifies this, engine`portfolioIds
      ensures State() == SetIds(old(State()), engine.portfolioIds) && Inv(State())
      ensures engine.portfolioIds == if Named(raw) == [] then DEFAULT_IDS else FirstSeen(Named(raw))
    {
      engine.SetPortfolioIds(raw);
      latestAssignment := map id | id in engine.portfolioIds :: NO_SYMBOLS;
      paperState := Opening(engine.portfolioIds);
      assignmentHistory, lastRebalanceMs := [], None;
      SetIdsKeeps(old(State()), engine.portfolioIds);
    }
  }

  ghost predicate BestSoFar(a: Assignment, symbol: string, seen: set<string>, owner: Option<string>) {
    if owner.None? then Owners(a, symbol) * seen == {} else IsLeast(owner.value, Owners(a, symbol) * seen)
  }

  lemma SeeOne(a: Assignment, symbol: string, seen: set<string>, owner: Option<string>, id: string)
    requires id in a && BestSoFar(a, symbol, seen, owner)
    ensures var better := symbol in a[id].active && (owner.None? || CmpString(id, owner.value) == Less);
            BestSoFar(a, symbol, seen + {id}, if better then Some(id) else owner)
  {
    var owners := Owners(a, symbol) * seen;
    StringOrder(id, id, id);
    if symbol in a[id].active {
      assert Owners(a, symbol) * (seen + {id}) == owners + {id};
      if owner.Some? {
        LeastOfTwo(owner.value, id, owners);
      } else {
        assert owners + {id} == {id};
      }
    } else {
      assert Owners(a, symbol) * (seen + {id}) == owners;
    }
  }

  lemma LeastOfTwo(least: string, id: string, ids: set<string>)
    requires IsLeast(least, ids)
    ensures CmpString(id, least) == Less ==> IsLeast(id, ids + {id})
    ensures CmpString(id, least) != Less ==> IsLeast(least, ids + {id})
  {
    StringOrder(id, least, id);
    StringOrder(id, id, id);
    StringOrder(least, id, least);
    forall other | other in ids ensures CmpString(id, least) == Less ==> CmpString(id, other) != Greater {
      StringOrder(id, least, other);
    }
  }
}
