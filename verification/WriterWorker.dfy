/** The database writer's worker: what it keeps between commands, what each command and each timer tick
    does to it, and what that means for the commands it has observed so far.

    A write to the database may fail; whether it does is an input of the step that performs it. */
module WriterWorker {
  import opened Numbers
  import opened FleetTrades

  // ---- commands --------------------------------------------------------------------------------

  /** The rows a portfolio snapshot replaces, as opaque content. */
  datatype Snapshot = Snapshot(states: seq<string>, guards: seq<string>, paperStates: seq<string>)

  datatype Command =
    | Trades(seqNo: nat, trades: seq<FleetTrade>)
    | TradesWithSnapshot(seqNo: nat, trades: seq<FleetTrade>, snapshot: Snapshot)
    | SnapshotOnly(seqNo: nat, snapshot: Snapshot)
    | Flush(ticket: Ticket)

  /** A flush request: the sequence number it waits for and the caller to be answered. */
  datatype Ticket = Ticket(target: nat, id: nat)

  function TradesOf(c: Command): seq<FleetTrade> {
    if c.Trades? || c.TradesWithSnapshot? then c.trades else []
  }

  predicate BearsSnapshot(c: Command) {
    c.TradesWithSnapshot? || c.SnapshotOnly?
  }

  // ---- state -----------------------------------------------------------------------------------

  datatype Persisted = Persisted(seqNo: nat, content: Snapshot)

  /** The database, as far as the writer uses it. `seqNo` of the persisted snapshot is not a column: it
      records which command the stored rows came from. */
  datatype Store = Store(table: Table, snapshot: Option<Persisted>)

  datatype Worker = Worker(
    buf: seq<FleetTrade>,
    observedMax: nat,
    pending: seq<Ticket>,
    latestSnapshot: nat,
    store: Store,
    answered: seq<Ticket>)

  const FRESH_WORKER: Worker := Worker([], 0, [], 0, Store(map[], None), [])

  // ---- steps -----------------------------------------------------------------------------------

  /** Write the buffer out; a failed write keeps it. */
  function FlushBuffer(w: Worker, ok: bool): Worker {
    if w.buf != [] && ok
    then w.(store := w.store.(table := Insert(w.store.table, w.buf)), buf := [])
    else w
  }

  datatype Sweep = Sweep(kept: seq<Ticket>, done: seq<Ticket>)

  /** Answer every ticket at or after `idx` whose target is reached, filling each hole with the last
      ticket of the list. */
  function SweepFrom(observed: nat, tickets: seq<Ticket>, idx: nat): Sweep
    requires idx <= |tickets|
    decreases |tickets| - idx
  {
    if idx == |tickets| then Sweep(tickets, [])
    else if tickets[idx].target <= observed then
      var rest := SweepFrom(observed, SwapRemove(tickets, idx), idx);
      rest.(done := [tickets[idx]] + rest.done)
    else SweepFrom(observed, tickets, idx + 1)
  }

  function SwapRemove(tickets: seq<Ticket>, idx: nat): seq<Ticket>
    requires idx < |tickets|
  {
    tickets[idx := tickets[|tickets| - 1]][..|tickets| - 1]
  }

  function CompleteReady(w: Worker): Worker {
    var sweep := SweepFrom(w.observedMax, w.pending, 0);
    w.(pending := sweep.kept, answered := w.answered + sweep.done)
  }

  function ApplySnapshot(w: Worker, seqNo: nat, trades: seq<FleetTrade>, snapshot: Snapshot, ok: bool): Worker {
    if seqNo <= w.latestSnapshot then
      if ok then w.(store := w.store.(table := Insert(w.store.table, trades))) else w
    else if ok then
      w.(store := Store(Insert(w.store.table, trades), Some(Persisted(seqNo, snapshot))), latestSnapshot := seqNo)
    else w
  }

  /** One received command. `flushOk` is the outcome of writing the buffer, `writeOk` that of the
      command's own transaction. */
  function Handle(w: Worker, c: Command, flushOk: bool, writeOk: bool): Worker {
    match c
    case Trades(n, trades) =>
      var seen := w.(observedMax := Max(w.observedMax, n), buf := w.buf + trades);
      if seen.pending != [] then CompleteReady(FlushBuffer(seen, flushOk)) else seen
    case SnapshotOnly(n, snapshot) =>
      var seen := FlushBuffer(w.(observedMax := Max(w.observedMax, n)), flushOk);
      CompleteReady(ApplySnapshot(seen, n, [], snapshot, writeOk))
    case TradesWithSnapshot(n, trades, snapshot) =>
      var seen := FlushBuffer(w.(observedMax := Max(w.observedMax, n)), flushOk);
      CompleteReady(ApplySnapshot(seen, n, trades, snapshot, writeOk))
    case Flush(ticket) =>
      var flushed := FlushBuffer(w, flushOk);
      if flushed.observedMax >= ticket.target
      then flushed.(answered := flushed.answered + [ticket])
      else flushed.(pending := flushed.pending + [ticket])
  }

  /** The interval timer. */
  function Tick(w: Worker, flushOk: bool): Worker {
    CompleteReady(FlushBuffer(w, flushOk))
  }

  /** Shutdown: the buffer is written once more and every waiting caller is released. */
  function Shutdown(w: Worker, flushOk: bool): Worker {
    var flushed := FlushBuffer(w, flushOk);
    flushed.(buf := [], pending := [], answered := flushed.answered + flushed.pending)
  }

  // ---- the worker as the source writes it -------------------------------------------------------

  class WriterTask {
    var buf: seq<FleetTrade>
    var observedMaxSeq: nat
    var pendingFlushes: seq<Ticket>
    var latestPortfolioSnapshotSeq: nat
    var store: Store
    var answered: seq<Ticket>

    function State(): Worker
      reads this
    {
      Worker(buf, observedMaxSeq, pendingFlushes, latestPortfolioSnapshotSeq, store, answered)
    }

    constructor ()
      ensures State() == FRESH_WORKER
    {
      buf, observedMaxSeq, pendingFlushes, latestPortfolioSnapshotSeq := [], 0, [], 0;
      store, answered := Store(map[], None), [];
    }

    method FlushTradeBuffer(ok: bool)
      modifies this
      ensures State() == FlushBuffer(old(State()), ok)
    {
      if buf != [] {
        if ok {
          store := store.(table := Insert(store.table, buf));
          buf := [];
        }
      }
    }

    method CompleteReadyFlushes()
      modifies this
      ensures State() == CompleteReady(old(State()))
    {
      var idx := 0;
      while idx < |pendingFlushes|
        invariant idx <= |pendingFlushes|
        invariant State() == old(State()).(pending := pendingFlushes, answered := answered)
        invariant SweepFrom(observedMaxSeq, old(pendingFlushes), 0).kept
               == SweepFrom(observedMaxSeq, pendingFlushes, idx).kept
        invariant old(answered) + SweepFrom(observedMaxSeq, old(pendingFlushes), 0).done
               == answered + SweepFrom(observedMaxSeq, pendingFlushes, idx).done
        decreases |pendingFlushes| - idx
      {
        if pendingFlushes[idx].target <= observedMaxSeq {
          var done := pendingFlushes[idx];
          pendingFlushes := SwapRemove(pendingFlushes, idx);
          answered := answered + [done];
        } else {
          idx := idx + 1;
        }
      }
    }

    method OnCommand(c: Command, flushOk: bool, writeOk: bool)
      modifies this
      ensures State() == Handle(old(State()), c, flushOk, writeOk)
    {
      match c {
        case Trades(n, trades) =>
          observedMaxSeq := Max(observedMaxSeq, n);
          buf := buf + trades;
          if pendingFlushes != [] {
            FlushTradeBuffer(flushOk);
            CompleteReadyFlushes();
          }
        case SnapshotOnly(n, snapshot) =>
          observedMaxSeq := Max(observedMaxSeq, n);
          FlushTradeBuffer(flushOk);
          if n > latestPortfolioSnapshotSeq && writeOk {
            store := store.(snapshot := Some(Persisted(n, snapshot)));
            latestPortfolioSnapshotSeq := n;
          }
          CompleteReadyFlushes();
        case TradesWithSnapshot(n, trades, snapshot) =>
          observedMaxSeq := Max(observedMaxSeq, n);
          FlushTradeBuffer(flushOk);
          if n <= latestPortfolioSnapshotSeq {
            if trades != [] && writeOk {
              store := store.(table := Insert(store.table, trades));
            }
          } else if writeOk {
            store := Store(Insert(store.table, trades), Some(Persisted(n, snapshot)));
            latestPortfolioSnapshotSeq := n;
          }
          CompleteReadyFlushes();
        case Flush(ticket) =>
          FlushTradeBuffer(flushOk);
          if observedMaxSeq >= ticket.target {
            answered := answered + [ticket];
          } else {
            pendingFlushes := pendingFlushes + [ticket];
          }
      }
    }

    method OnTick(flushOk: bool)
      modifies this
      ensures State() == Tick(old(State()), flushOk)
    {
      FlushTradeBuffer(flushOk);
      CompleteReadyFlushes();
    }

    /** The primary channel is closed: what is buffered is written or lost, and every waiting caller released. */
    method OnClosed(flushOk: bool)
      modifies this
      ensures State() == Shutdown(old(State()), flushOk)
    {
      if buf != [] && flushOk {
        store := store.(table := Insert(store.table, buf));
      }
      buf := [];
      answered, pendingFlushes := answered + pendingFlushes, [];
    }
  }

  // ---- what the observed log implies --------------------------------------------------------------

  /** Largest sequence number among the observed commands. */
  function MaxSeq(log: seq<Command>): nat {
    if log == [] then 0
    else
      var c := log[|log| - 1];
      var before := MaxSeq(log[..|log| - 1]);
      if c.Flush? then before else Max(before, c.seqNo)
  }

  /** The snapshot-bearing observed command with the largest sequence number. */
  function NewestSnapshot(log: seq<Command>): Option<Persisted> {
    if log == [] then None
    else
      var c := log[|log| - 1];
      var before := NewestSnapshot(log[..|log| - 1]);
      if BearsSnapshot(c) && (before.None? || before.value.seqNo < c.seqNo)
      then Some(Persisted(c.seqNo, c.snapshot))
      else before
  }

  function Tickets(log: seq<Command>): multiset<Ticket> {
    if log == [] then multiset{}
    else
      var c := log[|log| - 1];
      Tickets(log[..|log| - 1]) + (if c.Flush? then multiset{c.ticket} else multiset{})
  }

  /** Holds after every prefix of a run, whatever the database does. */
  ghost predicate Consistent(w: Worker, log: seq<Command>) {
    && w.observedMax == MaxSeq(log)
    && (forall t :: t in w.pending ==> t.target > w.observedMax)
    && multiset(w.pending) + multiset(w.answered) == Tickets(log)
    && (w.store.snapshot == None <==> w.latestSnapshot == 0)
    && (w.store.snapshot.Some? ==> w.store.snapshot.value.seqNo == w.latestSnapshot)
  }

  /** Holds after every prefix of a run in which every write succeeded. */
  ghost predicate Durable(w: Worker, log: seq<Command>) {
    && (forall c, t :: c in log && t in TradesOf(c) ==> Key(t) in w.store.table || t in w.buf)
    && w.store.snapshot == NewestSnapshot(log)
  }

  /** The in-place sweep answers exactly the tickets whose target is reached and keeps exactly the
      others, whatever order the holes are filled in. */
  lemma {:induction false} SweepExact(observed: nat, tickets: seq<Ticket>, idx: nat)
    requires idx <= |tickets|
    requires forall i :: 0 <= i < idx ==> tickets[i].target > observed
    ensures var s := SweepFrom(observed, tickets, idx);
            && multiset(s.kept) + multiset(s.done) == multiset(tickets)
            && (forall t :: t in s.kept ==> t.target > observed)
            && (forall t :: t in s.done ==> t.target <= observed)
    decreases |tickets| - idx
  {
    if idx < |tickets| {
      if tickets[idx].target <= observed {
        var shorter := SwapRemove(tickets, idx);
        SwapRemoveDropsOne(tickets, idx);
        SweepExact(observed, shorter, idx);
        var rest := SweepFrom(observed, shorter, idx);
        assert multiset([tickets[idx]] + rest.done) == multiset{tickets[idx]} + multiset(rest.done);
      } else {
        SweepExact(observed, tickets, idx + 1);
      }
    }
  }

  lemma ReplacedBag(front: seq<Ticket>, idx: nat, t: Ticket)
    requires idx < |front|
    ensures multiset(front[idx := t]) + multiset{front[idx]} == multiset(front) + multiset{t}
  {
  }

  lemma SwapRemoveDropsOne(tickets: seq<Ticket>, idx: nat)
    requires idx < |tickets|
    ensures multiset(SwapRemove(tickets, idx)) + multiset{tickets[idx]} == multiset(tickets)
    ensures forall i :: 0 <= i < idx && i < |tickets| - 1 ==> SwapRemove(tickets, idx)[i] == tickets[i]
  {
    var last := |tickets| - 1;
    var front := tickets[..last];
    assert tickets == front + [tickets[last]];
    assert multiset(tickets) == multiset(front) + multiset{tickets[last]};
    if idx < last {
      assert SwapRemove(tickets, idx) == front[idx := tickets[last]];
      ReplacedBag(front, idx, tickets[last]);
    } else {
      assert SwapRemove(tickets, idx) == front;
    }
  }

  /** Everything `CompleteReady` changes, and that it leaves nobody waiting who could be answered. */
  lemma CompleteReadyExact(w: Worker)
    ensures var w' := CompleteReady(w);
            && w' == w.(pending := w'.pending, answered := w'.answered)
            && multiset(w'.pending) + multiset(w'.answered) == multiset(w.pending) + multiset(w.answered)
            && (forall t :: t in w'.pending ==> t.target > w.observedMax)
            && w.answered <= w'.answered
            && (forall i :: |w.answered| <= i < |w'.answered| ==> w'.answered[i].target <= w.observedMax)
  {
    SweepExact(w.observedMax, w.pending, 0);
    var s := SweepFrom(w.observedMax, w.pending, 0);
    var w' := CompleteReady(w);
    assert multiset(w.answered + s.done) == multiset(w.answered) + multiset(s.done);
    forall i | |w.answered| <= i < |w'.answered| ensures w'.answered[i].target <= w.observedMax {
      assert w'.answered[i] in s.done;
    }
  }

  /** A flush never moves a trade out of reach: what was stored or buffered stays so. */
  lemma FlushBufferKeeps(w: Worker, ok: bool)
    ensures var w' := FlushBuffer(w, ok);
            && w' == w.(buf := w'.buf, store := w.store.(table := w'.store.table))
            && (forall k :: k in w.store.table ==> k in w'.store.table)
            && (forall t :: t in w.buf ==> Key(t) in w'.store.table || t in w'.buf)
            && (ok ==> w'.buf == [])
  {
    InsertStores(w.store.table, w.buf);
  }

  lemma LogExtends(log: seq<Command>, c: Command)
    ensures MaxSeq(log + [c]) == if c.Flush? then MaxSeq(log) else Max(MaxSeq(log), c.seqNo)
    ensures Tickets(log + [c]) == Tickets(log) + (if c.Flush? then multiset{c.ticket} else multiset{})
    ensures BearsSnapshot(c) && (NewestSnapshot(log) == None || NewestSnapshot(log).value.seqNo < c.seqNo)
            ==> NewestSnapshot(log + [c]) == Some(Persisted(c.seqNo, c.snapshot))
    ensures !(BearsSnapshot(c) && (NewestSnapshot(log) == None || NewestSnapshot(log).value.seqNo < c.seqNo))
            ==> NewestSnapshot(log + [c]) == NewestSnapshot(log)
  {
    assert (log + [c])[..|log|] == log;
  }

  /** `Consistent` without the clause the sweep establishes. */
  ghost predicate Unswept(w: Worker, log: seq<Command>) {
    && w.observedMax == MaxSeq(log)
    && multiset(w.pending) + multiset(w.answered) == Tickets(log)
    && (w.store.snapshot == None <==> w.latestSnapshot == 0)
    && (w.store.snapshot.Some? ==> w.store.snapshot.value.seqNo == w.latestSnapshot)
  }

  lemma SweepConsistent(w: Worker, log: seq<Command>)
    requires Unswept(w, log)
    ensures Consistent(CompleteReady(w), log)
    ensures w.answered <= CompleteReady(w).answered
    ensures CompleteReady(w).latestSnapshot == w.latestSnapshot
  {
    CompleteReadyExact(w);
  }

  /** What a data command has made of `w` by the time the waiting callers are looked at. */
  ghost predicate Progress(w: Worker, c: Command, x: Worker, writeOk: bool)
    requires !c.Flush?
  {
    && x.answered == w.answered && x.pending == w.pending && x.observedMax == Max(w.observedMax, c.seqNo)
    && (forall k :: k in w.store.table ==> k in x.store.table)
    && (forall t :: t in w.buf ==> Key(t) in x.store.table || t in x.buf)
    && (writeOk ==> forall t :: t in TradesOf(c) ==> Key(t) in x.store.table || t in x.buf)
    && (if BearsSnapshot(c) && c.seqNo > w.latestSnapshot && writeOk
        then x.latestSnapshot == c.seqNo && x.store.snapshot == Some(Persisted(c.seqNo, c.snapshot))
        else x.latestSnapshot == w.latestSnapshot && x.store.snapshot == w.store.snapshot)
  }

  lemma TradesUnfold(w: Worker, c: Command, flushOk: bool, writeOk: bool) returns (x: Worker)
    requires c.Trades?
    ensures Progress(w, c, x, writeOk)
    ensures w.pending == [] ==> Handle(w, c, flushOk, writeOk) == x
    ensures w.pending != [] ==> Handle(w, c, flushOk, writeOk) == CompleteReady(x) && (flushOk ==> x.buf == [])
  {
    var seen := w.(observedMax := Max(w.observedMax, c.seqNo), buf := w.buf + c.trades);
    FlushBufferKeeps(seen, flushOk);
    x := if w.pending == [] then seen else FlushBuffer(seen, flushOk);
  }

  lemma SnapshotUnfold(w: Worker, c: Command, flushOk: bool, writeOk: bool) returns (x: Worker)
    requires BearsSnapshot(c)
    ensures Progress(w, c, x, writeOk)
    ensures Handle(w, c, flushOk, writeOk) == CompleteReady(x) && (flushOk ==> x.buf == [])
  {
    var flushed := FlushBuffer(w.(observedMax := Max(w.observedMax, c.seqNo)), flushOk);
    FlushBufferKeeps(w.(observedMax := Max(w.observedMax, c.seqNo)), flushOk);
    InsertStores(flushed.store.table, TradesOf(c));
    x := ApplySnapshot(flushed, c.seqNo, TradesOf(c), c.snapshot, writeOk);
  }

  lemma DataUnfold(w: Worker, c: Command, flushOk: bool, writeOk: bool) returns (x: Worker, sweeps: bool)
    requires !c.Flush?
    ensures Progress(w, c, x, writeOk) && (!sweeps ==> w.pending == [])
    ensures Handle(w, c, flushOk, writeOk) == if sweeps then CompleteReady(x) else x
    ensures sweeps && flushOk ==> x.buf == []
  {
    sweeps := BearsSnapshot(c) || w.pending != [];
    if c.Trades? {
      x := TradesUnfold(w, c, flushOk, writeOk);
    } else {
      x := SnapshotUnfold(w, c, flushOk, writeOk);
    }
  }

  lemma ProgressConsistent(w: Worker, log: seq<Command>, c: Command, x: Worker, writeOk: bool)
    requires Consistent(w, log) && !c.Flush? && c.seqNo > 0 && Progress(w, c, x, writeOk)
    ensures Unswept(x, log + [c]) && w.latestSnapshot <= x.latestSnapshot
  {
    LogExtends(log, c);
  }

  /** What one command keeps, whether or not its writes succeed. */
  lemma HandleConsistent(w: Worker, log: seq<Command>, c: Command, flushOk: bool, writeOk: bool)
    requires Consistent(w, log)
    requires !c.Flush? ==> c.seqNo > 0
    ensures Consistent(Handle(w, c, flushOk, writeOk), log + [c])
    ensures w.latestSnapshot <= Handle(w, c, flushOk, writeOk).latestSnapshot
    ensures w.answered <= Handle(w, c, flushOk, writeOk).answered
  {
    if c.Flush? {
      FlushHandled(w, log, c.ticket, flushOk, writeOk);
    } else {
      var x, sweeps := DataUnfold(w, c, flushOk, writeOk);
      ProgressConsistent(w, log, c, x, writeOk);
      if sweeps {
        SweepConsistent(x, log + [c]);
      }
    }
  }

  lemma OneMoreTicket(a: seq<Ticket>, b: seq<Ticket>, t: Ticket)
    ensures multiset(a + [t]) + multiset(b) == multiset(a) + multiset(b) + multiset{t}
    ensures multiset(a) + multiset(b + [t]) == multiset(a) + multiset(b) + multiset{t}
  {
    assert multiset(a + [t]) == multiset(a) + multiset{t} && multiset(b + [t]) == multiset(b) + multiset{t};
  }

  lemma FlushUnfold(w: Worker, ticket: Ticket, flushOk: bool, writeOk: bool) returns (x: Worker)
    ensures x == w.(buf := x.buf, store := w.store.(table := x.store.table)) && (flushOk ==> x.buf == [])
    ensures forall k :: k in w.store.table ==> k in x.store.table
    ensures forall t :: t in w.buf ==> Key(t) in x.store.table || t in x.buf
    ensures Handle(w, Flush(ticket), flushOk, writeOk)
         == if w.observedMax >= ticket.target then x.(answered := w.answered + [ticket])
            else x.(pending := w.pending + [ticket])
  {
    FlushBufferKeeps(w, flushOk);
    x := FlushBuffer(w, flushOk);
  }

  lemma FlushHandled(w: Worker, log: seq<Command>, ticket: Ticket, flushOk: bool, writeOk: bool)
    requires Consistent(w, log)
    ensures Consistent(Handle(w, Flush(ticket), flushOk, writeOk), log + [Flush(ticket)])
    ensures w.latestSnapshot == Handle(w, Flush(ticket), flushOk, writeOk).latestSnapshot
    ensures w.answered <= Handle(w, Flush(ticket), flushOk, writeOk).answered
  {
    var x := FlushUnfold(w, ticket, flushOk, writeOk);
    LogExtends(log, Flush(ticket));
    OneMoreTicket(w.answered, w.pending, ticket);
    OneMoreTicket(w.pending, w.answered, ticket);
  }

  /** With every write succeeding, an observed trade is stored or buffered (the trades of a stale
      combined command included) and the persisted snapshot is that of the largest sequence number
      observed, in whatever order the commands arrived. */
  lemma HandleDurable(w: Worker, log: seq<Command>, c: Command)
    requires Consistent(w, log) && Durable(w, log)
    requires !c.Flush? ==> c.seqNo > 0
    ensures Durable(Handle(w, c, true, true), log + [c])
  {
    LogExtends(log, c);
    if c.Flush? {
      var x := FlushUnfold(w, c.ticket, true, true);
      StaysDurable(w, log, c, x);
    } else {
      var x, sweeps := DataUnfold(w, c, true, true);
      StaysDurable(w, log, c, x);
      CompleteReadyExact(x);
    }
  }

  lemma StaysDurable(w: Worker, log: seq<Command>, c: Command, x: Worker)
    requires Durable(w, log) && x.store.snapshot == NewestSnapshot(log + [c])
    requires forall k :: k in w.store.table ==> k in x.store.table
    requires forall t :: t in w.buf || t in TradesOf(c) ==> Key(t) in x.store.table || t in x.buf
    ensures Durable(x, log + [c])
  {
    forall d, t | d in log + [c] && t in TradesOf(d) ensures Key(t) in x.store.table || t in x.buf {
      if d in log {
        assert Key(t) in w.store.table || t in w.buf;
      }
    }
  }

  /** Whenever a command makes the worker answer a caller and the writes succeed, nothing is left in the
      buffer and the caller's target has been observed. */
  lemma HandleAnswers(w: Worker, log: seq<Command>, c: Command)
    requires Consistent(w, log)
    requires !c.Flush? ==> c.seqNo > 0
    ensures var w' := Handle(w, c, true, true);
            |w.answered| < |w'.answered| ==>
              && w'.buf == []
              && forall i :: |w.answered| <= i < |w'.answered| ==> w'.answered[i].target <= w'.observedMax
  {
    if c.Flush? {
      var x := FlushUnfold(w, c.ticket, true, true);
    } else {
      var x, sweeps := DataUnfold(w, c, true, true);
      CompleteReadyExact(x);
    }
  }

  /** A timer tick writes the buffer and never finds anyone to answer: they were answered by the command
      that reached their target. */
  lemma TickKeeps(w: Worker, log: seq<Command>, flushOk: bool)
    requires Consistent(w, log)
    ensures Consistent(Tick(w, flushOk), log)
    ensures Tick(w, flushOk).answered == w.answered && Tick(w, flushOk).pending == w.pending
    ensures Tick(w, flushOk).latestSnapshot == w.latestSnapshot
    ensures Durable(w, log) ==> Durable(Tick(w, flushOk), log)
  {
    FlushBufferKeeps(w, flushOk);
    NothingToSweep(w.observedMax, w.pending, 0);
  }

  lemma {:induction false} NothingToSweep(observed: nat, tickets: seq<Ticket>, idx: nat)
    requires idx <= |tickets|
    requires forall t :: t in tickets ==> t.target > observed
    ensures SweepFrom(observed, tickets, idx) == Sweep(tickets, [])
    decreases |tickets| - idx
  {
    if idx < |tickets| {
      NothingToSweep(observed, tickets, idx + 1);
    }
  }

  /** `NewestSnapshot` is the snapshot-bearing command of the log with the largest sequence number. */
  lemma {:induction false} NewestSnapshotIsLargest(log: seq<Command>)
    ensures NewestSnapshot(log).None? <==> forall c :: c in log ==> !BearsSnapshot(c)
    ensures NewestSnapshot(log).Some? ==>
              && (forall c :: c in log && BearsSnapshot(c) ==> c.seqNo <= NewestSnapshot(log).value.seqNo)
              && exists c :: c in log && BearsSnapshot(c)
                          && NewestSnapshot(log).value == Persisted(c.seqNo, c.snapshot)
  {
    if log != [] {
      var init, c := log[..|log| - 1], log[|log| - 1];
      NewestSnapshotIsLargest(init);
      assert log == init + [c];
      if NewestSnapshot(log) == NewestSnapshot(init) && NewestSnapshot(init).Some? {
        var d :| d in init && BearsSnapshot(d) && NewestSnapshot(init).value == Persisted(d.seqNo, d.snapshot);
        assert d in log;
      }
    }
  }

  lemma {:induction false} MaxSeqBounds(log: seq<Command>)
    ensures forall c :: c in log && !c.Flush? ==> c.seqNo <= MaxSeq(log)
  {
    if log != [] {
      MaxSeqBounds(log[..|log| - 1]);
      assert log == log[..|log| - 1] + [log[|log| - 1]];
    }
  }
}
