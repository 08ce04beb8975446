/** What callers handed to the writer, followed from the call to the database: the trades and snapshots named here
    are those of the calls themselves. */
module PayloadPromises {
  import opened FleetTrades
  import opened WriterWorker
  import opened WriterPipeline
  import opened PipelineInvariants
  import opened PipelineTheorems
  import opened PipelinePromises
  import opened WriterTable

  /** `c` carries the trades handed in, if any, the snapshot handed in, if any, and nothing else. */
  predicate Carries(c: Command, p: Payload) {
    match p
    case Batch(trades) => c.Trades? && c.trades == trades
    case BatchAndSnapshot(trades, snapshot) => c.TradesWithSnapshot? && c.trades == trades && c.snapshot == snapshot
    case OnlySnapshot(snapshot) => c.SnapshotOnly? && c.snapshot == snapshot
  }

  /** What the calls of a run handed in, in the order they took their sequence numbers. */
  function Payloads(es: seq<Event>): seq<Payload> {
    if es == [] then [] else PayloadOf(es[0]) + Payloads(es[1..])
  }

  function PayloadOf(e: Event): seq<Payload> {
    if e.BeginSend? then [e.payload] else []
  }

  predicate CarryAll(commands: seq<Command>, payloads: seq<Payload>, first: nat) {
    && |commands| == |payloads|
    && forall k :: 0 <= k < |commands| && k < |payloads| ==>
         Carries(commands[k], payloads[k]) && !commands[k].Flush? && commands[k].seqNo == first + k
  }

  /** A call takes the next number and sends a command that carries what was handed in. */
  lemma SendCarries(s: System, p: nat, payload: Payload) returns (c: Command)
    requires Shape(s) && Enabled(s, BeginSend(p, payload))
    ensures var t := Apply(s, BeginSend(p, payload));
            t.issued == s.issued + [c] && t.producers[p] == Offering(0, c) && t.nextSeq == s.nextSeq + 1
    ensures Carries(c, payload) && !c.Flush? && c.seqNo == s.nextSeq + 1
  {
    c := Apply(s, BeginSend(p, payload)).producers[p].command;
  }

  lemma OthersIssueNothing(s: System, e: Event)
    requires Shape(s) && Enabled(s, e) && !e.BeginSend?
    ensures Apply(s, e).issued == s.issued && Apply(s, e).nextSeq == s.nextSeq
  {
    if ByProducer(e) && !e.TryTier? {
      OtherCallsIssueNothing(s, e);
    }
  }

  lemma OtherCallsIssueNothing(s: System, e: Event)
    requires Shape(s) && Enabled(s, e) && ByProducer(e) && !e.BeginSend? && !e.TryTier?
    ensures Apply(s, e).issued == s.issued && Apply(s, e).nextSeq == s.nextSeq
  {
  }

  /** From `s` to `t` the commands `commands` were issued; they carry `payloads` and are numbered in that order. */
  ghost predicate Issues(s: System, t: System, commands: seq<Command>, payloads: seq<Payload>) {
    && t.issued == s.issued + commands && t.nextSeq == s.nextSeq + |commands|
    && CarryAll(commands, payloads, s.nextSeq + 1)
  }

  lemma StepIssues(s: System, e: Event) returns (commands: seq<Command>)
    requires Shape(s) && Enabled(s, e)
    ensures Issues(s, Apply(s, e), commands, PayloadOf(e))
  {
    if e.BeginSend? {
      var c := SendCarries(s, e.p, e.payload);
      commands := [c];
    } else {
      OthersIssueNothing(s, e);
      commands := [];
    }
  }

  lemma IssuesJoin(s: System, t: System, u: System, a: seq<Command>, p: seq<Payload>, b: seq<Command>, q: seq<Payload>)
    requires Issues(s, t, a, p) && Issues(t, u, b, q)
    ensures Issues(s, u, a + b, p + q)
  {
  }

  /** The commands a run issues carry what its calls handed in, in order and numbered in that order. */
  lemma {:induction false} RunIssues(s: System, es: seq<Event>, u: System) returns (commands: seq<Command>)
    requires Shape(s) && Runnable(s, es) && u == Run(s, es)
    ensures Issues(s, u, commands, Payloads(es))
    decreases |es|
  {
    if es == [] {
      commands := [];
    } else {
      ApplyShape(s, es[0]);
      var t := Apply(s, es[0]);
      var a := StepIssues(s, es[0]);
      var b := RunIssues(t, es[1..], u);
      IssuesJoin(s, t, u, a, PayloadOf(es[0]), b, Payloads(es[1..]));
      commands := a + b;
    }
  }

  /** In every reachable state the command with number `k + 1` carries what the k-th call handed in. */
  lemma ReachableCarries(caps: seq<nat>, es: seq<Event>, s: System)
    requires ReachableBy(caps, es, s)
    ensures Inv(s) && CarryAll(s.issued, Payloads(es), 1)
  {
    ReachableConserves(caps, es, s);
    var commands := RunIssues(Init(caps), es, s);
    assert s.issued == commands;
  }

  // ---- after exit -----------------------------------------------------------------------------------------------

  /** The command with number `n` was dropped and counted. */
  ghost predicate DroppedNumber(s: System, n: nat) {
    exists c :: c in s.dropped && !c.Flush? && c.seqNo == n
  }

  function TradesIn(p: Payload): seq<FleetTrade> {
    if p.OnlySnapshot? then [] else p.trades
  }

  lemma DroppedIsItself(s: System, k: nat)
    requires Conserved(s) && Numbered(s) && k < |s.issued|
    ensures !s.issued[k].Flush? && s.issued[k].seqNo == k + 1
    ensures DroppedNumber(s, k + 1) <==> s.issued[k] in s.dropped
  {
    if d :| d in s.dropped && !d.Flush? && d.seqNo == k + 1 {
      NoStrangers(s, d);
    }
  }

  lemma ObservedIsNotDropped(s: System, c: Command)
    requires Conserved(s) && Numbered(s) && c in s.observed && !c.Flush?
    ensures 1 <= c.seqNo <= |s.issued| && s.issued[c.seqNo - 1] == c && c !in s.dropped
  {
    NoStrangers(s, c);
    ExactlyOnePlace(s, c.seqNo);
  }

  /** A call's command was dropped, or the worker has observed it by the time it ends. */
  lemma DroppedOrObserved(caps: seq<nat>, es: seq<Event>, s: System, k: nat)
    requires ReachableBy(caps, es, s) && !s.running && k < |Payloads(es)|
    ensures k < |s.issued| && Carries(s.issued[k], Payloads(es)[k]) && s.issued[k].seqNo == k + 1
    ensures s.issued[k] in s.observed <==> !DroppedNumber(s, k + 1)
  {
    ReachableCarries(caps, es, s);
    DroppedIsItself(s, k);
    var c := s.issued[k];
    if c in s.observed {
      ObservedIsNotDropped(s, c);
    } else if c !in s.dropped {
      ExitStoresEverything(s, c);
    }
  }

  /** Once the worker has ended and if its writes succeeded, every trade of every call whose number was not dropped
      has its natural key in the table. */
  lemma EveryTradeHandedInIsStored(caps: seq<nat>, es: seq<Event>, s: System, k: nat)
    requires ReachableBy(caps, es, s) && !s.running && s.writesOk
    requires k < |Payloads(es)| && !DroppedNumber(s, k + 1)
    ensures forall t :: t in TradesIn(Payloads(es)[k]) ==> Key(t) in s.worker.store.table
  {
    DroppedOrObserved(caps, es, s, k);
    ReachableCarries(caps, es, s);
    ExitStoresEverything(s, s.issued[k]);
    assert Stored(s.worker.store.table, TradesOf(s.issued[k]));
  }

  /** The log holds commands of the calls, and no other. */
  lemma ObservedWasHandedIn(caps: seq<nat>, es: seq<Event>, s: System, c: Command)
    requires ReachableBy(caps, es, s) && c in s.observed && !c.Flush?
    ensures 1 <= c.seqNo <= |Payloads(es)| && Carries(c, Payloads(es)[c.seqNo - 1])
    ensures !DroppedNumber(s, c.seqNo)
  {
    ReachableCarries(caps, es, s);
    ObservedIsNotDropped(s, c);
    DroppedIsItself(s, c.seqNo - 1);
  }

  /** `t` is a trade of call `k`, whose number was not dropped. */
  ghost predicate Kept(es: seq<Event>, s: System, k: nat, t: FleetTrade) {
    k < |Payloads(es)| && !DroppedNumber(s, k + 1) && t in TradesIn(Payloads(es)[k])
  }

  lemma {:induction false} TradeOfLog(log: seq<Command>, t: FleetTrade) returns (c: Command)
    requires t in AllTrades(log)
    ensures c in log && !c.Flush? && t in TradesOf(c)
  {
    c := log[|log| - 1];
    if t !in TradesOf(c) {
      c := TradeOfLog(log[..|log| - 1], t);
    }
  }

  lemma RowWasHandedIn(caps: seq<nat>, es: seq<Event>, s: System, key: NaturalKey) returns (k: nat)
    requires ReachableBy(caps, es, s) && key in Insert(map[], AllTrades(s.observed))
    ensures Kept(es, s, k, Insert(map[], AllTrades(s.observed))[key])
    ensures Key(Insert(map[], AllTrades(s.observed))[key]) == key
  {
    FirstRowWins(map[], AllTrades(s.observed), key);
    var c := TradeOfLog(s.observed, Insert(map[], AllTrades(s.observed))[key]);
    ObservedWasHandedIn(caps, es, s, c);
    k := c.seqNo - 1;
  }

  lemma InitTable(caps: seq<nat>)
    ensures Exact(Init(caps))
  {
  }

  lemma TableAfterExit(caps: seq<nat>, es: seq<Event>, s: System)
    requires ReachableBy(caps, es, s) && !s.running && s.writesOk
    ensures s.worker.store.table == Insert(map[], AllTrades(s.observed))
  {
    ReachableConserves(caps, es, s);
    InitTable(caps);
    ExactRun(Init(caps), es);
    assert Insert(s.worker.store.table, []) == s.worker.store.table;
  }

  /** Once the worker has ended and if its writes succeeded, the table holds exactly the natural keys of the trades
      handed in by calls whose numbers were not dropped; the row under a key is such a trade, and the first one with
      that key in the order in which the worker observed the commands. */
  lemma TableIsWhatWasHandedIn(caps: seq<nat>, es: seq<Event>, s: System)
    requires ReachableBy(caps, es, s) && !s.running && s.writesOk
    ensures forall key :: key in s.worker.store.table <==> exists k: nat, t :: Kept(es, s, k, t) && Key(t) == key
    ensures forall key :: key in s.worker.store.table ==>
              exists i :: 0 <= i < |AllTrades(s.observed)| && FirstOf(AllTrades(s.observed), i, key)
                          && s.worker.store.table[key] == AllTrades(s.observed)[i]
  {
    TableAfterExit(caps, es, s);
    var table := s.worker.store.table;
    forall key ensures key in table <==> exists k: nat, t :: Kept(es, s, k, t) && Key(t) == key {
      if key in table {
        var k := RowWasHandedIn(caps, es, s, key);
        assert Kept(es, s, k, table[key]) && Key(table[key]) == key;
      }
      if k: nat, t :| Kept(es, s, k, t) && Key(t) == key {
        EveryTradeHandedInIsStored(caps, es, s, k);
      }
    }
    forall key | key in table
      ensures exists i :: 0 <= i < |AllTrades(s.observed)| && FirstOf(AllTrades(s.observed), i, key)
                          && table[key] == AllTrades(s.observed)[i]
    {
      FirstRowWins(map[], AllTrades(s.observed), key);
    }
  }

  /** Call `k` handed in a snapshot, and its number was not dropped. */
  ghost predicate KeptSnapshot(es: seq<Event>, s: System, k: nat) {
    k < |Payloads(es)| && !DroppedNumber(s, k + 1) && !Payloads(es)[k].Batch?
  }

  ghost predicate StoredFrom(es: seq<Event>, s: System, k: nat, now: Persisted) {
    KeptSnapshot(es, s, k) && now == Persisted(k + 1, Payloads(es)[k].snapshot)
  }

  lemma ObservedSnapshot(caps: seq<nat>, es: seq<Event>, s: System, k: nat) returns (c: Command)
    requires ReachableBy(caps, es, s) && !s.running && KeptSnapshot(es, s, k)
    ensures c in s.observed && BearsSnapshot(c) && c.seqNo == k + 1
  {
    DroppedOrObserved(caps, es, s, k);
    c := s.issued[k];
  }

  lemma SnapshotWasHandedIn(caps: seq<nat>, es: seq<Event>, s: System, c: Command) returns (k: nat)
    requires ReachableBy(caps, es, s) && c in s.observed && BearsSnapshot(c)
    ensures KeptSnapshot(es, s, k) && c.seqNo == k + 1 && Payloads(es)[k].snapshot == c.snapshot
  {
    ObservedWasHandedIn(caps, es, s, c);
    k := c.seqNo - 1;
  }

  /** Once the worker has ended and if its writes succeeded, the stored snapshot is the one handed in by the last call
      that handed one in and was not dropped; none is stored only if there was no such call. */
  lemma LastSnapshotIsStored(caps: seq<nat>, es: seq<Event>, s: System)
    requires ReachableBy(caps, es, s) && !s.running && s.writesOk
    ensures var now := s.worker.store.snapshot;
            && (now.None? ==> forall k: nat :: !KeptSnapshot(es, s, k))
            && (now.Some? ==>
                  && (exists k: nat :: StoredFrom(es, s, k, now.value))
                  && forall j: nat :: KeptSnapshot(es, s, j) ==> j + 1 <= now.value.seqNo)
  {
    ReachableConserves(caps, es, s);
    NewestSnapshotIsLargest(s.observed);
    var now := s.worker.store.snapshot;
    assert now == NewestSnapshot(s.observed);
    forall k: nat | KeptSnapshot(es, s, k) ensures now.Some? && k + 1 <= now.value.seqNo {
      var c := ObservedSnapshot(caps, es, s, k);
    }
    if now.Some? {
      var c :| c in s.observed && BearsSnapshot(c) && now.value == Persisted(c.seqNo, c.snapshot);
      var k := SnapshotWasHandedIn(caps, es, s, c);
      assert StoredFrom(es, s, k, now.value);
    }
  }
}
