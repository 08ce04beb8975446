/** What the trades table holds: which row is stored under a key, and that with successful writes it is the table
    that inserting every observed trade in turn would have left. */
module WriterTable {
  import opened Numbers
  import opened FleetTrades
  import opened WriterWorker
  import opened WriterPipeline
  import opened PipelineTheorems

  // ---- which row is stored ----------------------------------------------------------------------------------

  lemma {:induction false} InsertAppend(table: Table, a: seq<FleetTrade>, b: seq<FleetTrade>)
    ensures Insert(table, a + b) == Insert(Insert(table, a), b)
  {
    if b == [] {
      assert a + b == a;
    } else {
      assert (a + b)[..|a + b| - 1] == a + b[..|b| - 1];
      InsertAppend(table, a, b[..|b| - 1]);
    }
  }

  /** Under every key stands the row that was there or, if there was none, the first trade of the batch that has
      that key. */
  lemma {:induction false} FirstRowWins(table: Table, trades: seq<FleetTrade>, k: NaturalKey)
    ensures k in table ==> k in Insert(table, trades) && Insert(table, trades)[k] == table[k]
    ensures k !in table && k in Insert(table, trades) ==>
              exists i :: 0 <= i < |trades| && Insert(table, trades)[k] == trades[i] && FirstOf(trades, i, k)
    ensures k !in Insert(table, trades) ==> forall t :: t in trades ==> Key(t) != k
  {
    if trades != [] {
      var init, last := trades[..|trades| - 1], trades[|trades| - 1];
      FirstRowWins(table, init, k);
      assert trades == init + [last];
      if k !in table && k in Insert(table, init) {
        var i :| 0 <= i < |init| && Insert(table, init)[k] == init[i] && FirstOf(init, i, k);
        assert FirstOf(trades, i, k) && Insert(table, trades)[k] == trades[i];
      } else if k !in table && k in Insert(table, trades) {
        assert forall j :: 0 <= j < |init| ==> init[j] in init;
        assert FirstOf(trades, |init|, k);
      }
    }
  }

  predicate FirstOf(trades: seq<FleetTrade>, i: nat, k: NaturalKey) {
    i < |trades| && Key(trades[i]) == k && forall j :: 0 <= j < i ==> Key(trades[j]) != k
  }

  // ---- the table after a log of commands ----------------------------------------------------------------------

  /** The trades of all commands of the log, in order. */
  function AllTrades(log: seq<Command>): seq<FleetTrade> {
    if log == [] then []
    else
      var c := log[|log| - 1];
      AllTrades(log[..|log| - 1]) + (if c.Trades? || c.TradesWithSnapshot? then c.trades else [])
  }

  /** Once the buffer is written, the table is that of all trades observed so far, inserted one after another. */
  ghost predicate TableExact(w: Worker, log: seq<Command>) {
    Insert(w.store.table, w.buf) == Insert(map[], AllTrades(log))
  }

  lemma WrittenOut(w: Worker)
    ensures FlushBuffer(w, true) == w.(store := w.store.(table := Insert(w.store.table, w.buf)), buf := [])
  {
  }

  lemma AllTradesSnoc(log: seq<Command>, c: Command)
    ensures AllTrades(log + [c]) == AllTrades(log) + TradesOf(c)
  {
    assert (log + [c])[..|log|] == log;
  }

  lemma HandleTable(w: Worker, log: seq<Command>, c: Command)
    requires TableExact(w, log)
    ensures TableExact(Handle(w, c, true, true), log + [c])
  {
    AllTradesSnoc(log, c);
    InsertAppend(map[], AllTrades(log), TradesOf(c));
    InsertAppend(w.store.table, w.buf, TradesOf(c));
    if c.Flush? {
      WrittenOut(w);
      assert AllTrades(log) + [] == AllTrades(log);
    } else if c.Trades? {
      WrittenOut(w.(observedMax := Max(w.observedMax, c.seqNo), buf := w.buf + c.trades));
    } else {
      WrittenOut(w.(observedMax := Max(w.observedMax, c.seqNo)));
    }
  }

  /** A timer tick whose write succeeds leaves nothing in the buffer and all of it in the table. */
  lemma TickStores(w: Worker)
    ensures Tick(w, true).buf == [] && Tick(w, true).store.table == Insert(w.store.table, w.buf)
    ensures forall t :: t in w.buf ==> Key(t) in Tick(w, true).store.table
    ensures Tick(w, false).buf == w.buf && Tick(w, false).store == w.store
  {
    WrittenOut(w);
    InsertStores(w.store.table, w.buf);
  }

  /** When its writes fail a command changes nothing that is stored, and nothing is lost from the buffer. */
  lemma FailedWritesChangeNothing(w: Worker, c: Command)
    ensures Handle(w, c, false, false).store == w.store
    ensures w.buf <= Handle(w, c, false, false).buf
    ensures Tick(w, false).store == w.store && Shutdown(w, false).store == w.store
  {
  }

  // ---- over whole runs ------------------------------------------------------------------------------------------

  ghost predicate Exact(s: System) {
    s.writesOk ==> TableExact(s.worker, s.observed)
  }

  lemma ExactKept(s: System, e: Event)
    requires Shape(s) && Enabled(s, e) && Exact(s)
    ensures Exact(Apply(s, e))
  {
    if e.Receive? {
      if s.writesOk && e.flushOk && e.writeOk {
        HandleTable(s.worker, s.observed, s.queues[0][0]);
      }
    } else if e.TimerTick? || e.Exit? {
      WrittenOut(s.worker);
    } else {
      OthersLeaveWorker(s, e);
    }
  }

  lemma {:induction false} ExactRun(s: System, es: seq<Event>)
    requires Shape(s) && Runnable(s, es) && Exact(s)
    ensures Exact(Run(s, es))
    decreases |es|
  {
    if es != [] {
      ApplyShape(s, es[0]);
      ExactKept(s, es[0]);
      ExactRun(Apply(s, es[0]), es[1..]);
    }
  }
}
