/** What a returned flush means for the database: if writes succeed, everything that had entered the primary channel
    when it began is stored, and with nothing staged elsewhere that is every batch accepted by then. */
module FlushDurability {
  import opened FleetTrades
  import opened WriterWorker
  import opened WriterPipeline
  import opened PipelineTheorems
  import opened PipelinePromises
  import opened PayloadPromises
  import opened FlushGap

  ghost predicate AllStored(table: Table, log: seq<Command>) {
    forall c :: c in log ==> Stored(table, TradesOf(c))
  }

  /** The flush with that ticket is entry `k` of the primary channel's history, and all ahead of it is stored. */
  ghost predicate AheadStored(s: System, ticket: Ticket, k: nat) {
    k < |s.primaryIn| && s.primaryIn[k] == Flush(ticket) && AllStored(s.worker.store.table, s.primaryIn[..k])
  }

  ghost predicate AnsweredStored(s: System) {
    s.writesOk ==> forall ticket :: ticket in s.worker.answered ==> exists k :: AheadStored(s, ticket, k)
  }

  /** Nothing is ever taken out of the table. */
  lemma TableKept(w: Worker, c: Command, flushOk: bool, writeOk: bool)
    ensures forall k :: k in w.store.table ==> k in Handle(w, c, flushOk, writeOk).store.table
  {
    if c.Flush? {
      var x := FlushUnfold(w, c.ticket, flushOk, writeOk);
    } else {
      var x, sweeps := DataUnfold(w, c, flushOk, writeOk);
    }
  }

  lemma TableGrows(s: System, e: Event)
    requires Shape(s) && Enabled(s, e)
    ensures forall k :: k in s.worker.store.table ==> k in Apply(s, e).worker.store.table
  {
    if e.Receive? {
      TableKept(s.worker, s.queues[0][0], e.flushOk, e.writeOk);
    } else if e.TimerTick? || e.Exit? {
      FlushBufferKeeps(s.worker, e.flushOk);
    } else {
      OthersLeaveWorker(s, e);
    }
  }

  lemma StillAheadStored(s: System, t: System, ticket: Ticket, k: nat)
    requires AheadStored(s, ticket, k) && s.primaryIn <= t.primaryIn
    requires forall key :: key in s.worker.store.table ==> key in t.worker.store.table
    ensures AheadStored(t, ticket, k)
  {
    assert t.primaryIn[..k] == s.primaryIn[..k];
  }

  lemma NewAnswerStored(s: System, e: Event, i: nat)
    requires Inv(s) && Enabled(s, e) && Apply(s, e).writesOk
    requires |s.worker.answered| <= i < |Apply(s, e).worker.answered|
    ensures exists k :: AheadStored(Apply(s, e), Apply(s, e).worker.answered[i], k)
  {
    AnswerMeansDurable(s, e, i);
    var t := Apply(s, e);
    var ticket := t.worker.answered[i];
    var k :| 0 <= k < |t.observed| && t.primaryIn[k] == Flush(ticket) && t.primaryIn[..k] <= t.observed;
    assert AheadStored(t, ticket, k);
  }

  lemma WritesOkBefore(s: System, e: Event)
    requires Shape(s) && Enabled(s, e) && Apply(s, e).writesOk
    ensures s.writesOk
  {
    if !ByWorker(e) {
      OthersLeaveWorker(s, e);
    }
  }

  lemma PrimaryGrows(s: System, e: Event)
    requires Shape(s) && Enabled(s, e)
    ensures s.primaryIn <= Apply(s, e).primaryIn
  {
    if s.producers != [] {
      TicketSinceStep(s, e, 0, 0);
    } else {
      assert !ByProducer(e);
    }
  }

  /** What was answered before the step, and what is answered by it. */
  lemma EitherStored(s: System, e: Event, t: System, i: nat)
    requires Inv(s) && Enabled(s, e) && t == Apply(s, e) && t.writesOk && AnsweredStored(s)
    requires i < |t.worker.answered|
    ensures exists k :: AheadStored(t, t.worker.answered[i], k)
  {
    if i < |s.worker.answered| {
      InvKept(s, e);
      WritesOkBefore(s, e);
      TableGrows(s, e);
      PrimaryGrows(s, e);
      var ticket := s.worker.answered[i];
      assert ticket in s.worker.answered;
      var k: nat :| AheadStored(s, ticket, k);
      StillAheadStored(s, t, ticket, k);
    } else {
      NewAnswerStored(s, e, i);
    }
  }

  lemma AnsweredStoredKept(s: System, e: Event, t: System)
    requires Inv(s) && Enabled(s, e) && t == Apply(s, e) && AnsweredStored(s)
    ensures AnsweredStored(t)
  {
    if t.writesOk {
      forall ticket | ticket in t.worker.answered ensures exists k :: AheadStored(t, ticket, k) {
        var i :| 0 <= i < |t.worker.answered| && t.worker.answered[i] == ticket;
        EitherStored(s, e, t, i);
      }
    }
  }

  lemma {:induction false} AnsweredStoredRun(s: System, es: seq<Event>)
    requires Inv(s) && Runnable(s, es) && AnsweredStored(s)
    ensures AnsweredStored(Run(s, es))
    decreases |es|
  {
    if es != [] {
      AnsweredStoredKept(s, es[0], Apply(s, es[0]));
      InvKept(s, es[0]);
      AnsweredStoredRun(Apply(s, es[0]), es[1..]);
    }
  }

  lemma AnsweredMeansStored(s: System, t: System, p: nat, c: Command)
    requires Inv(s) && Inv(t) && AnsweredStored(t) && t.writesOk && s.primaryIn <= t.primaryIn
    requires AnsweredFor(t, p) && TicketSince(t, p, |s.flushes|) && c in s.primaryIn
    ensures Stored(t.worker.store.table, TradesOf(c))
  {
    var ticket := t.producers[p].ticket;
    var k: nat :| AheadStored(t, ticket, k);
    if k < |s.primaryIn| {
      assert s.primaryIn[k] == Flush(ticket);
      NoOldTicketInPrimary(s, ticket);
    }
    var j :| 0 <= j < |s.primaryIn| && s.primaryIn[j] == c;
    assert t.primaryIn[..k][j] == c;
  }

  /** `t` is a state in which the flush that `p` began in `s` is answered, every write having succeeded. */
  ghost predicate Flushed(s: System, p: nat, es: seq<Event>, t: System)
    requires Shape(s)
  {
    Runnable(s, [BeginFlush(p)] + es) && t == Run(s, [BeginFlush(p)] + es) && AnsweredFor(t, p) && t.writesOk
  }

  /** When a flush is answered and writes succeeded, every trade of every command that had entered the primary channel
      when it began is stored. */
  lemma FlushedPrimaryIsStored(s: System, p: nat, es: seq<Event>, t: System, c: Command)
    requires Inv(s) && AnsweredStored(s) && Flushed(s, p, es, t) && c in s.primaryIn
    ensures Stored(t.worker.store.table, TradesOf(c))
  {
    var all := [BeginFlush(p)] + es;
    assert all[0] == BeginFlush(p) && all[1..] == es;
    BeginFlushStarts(s, p);
    TicketSinceRun(Apply(s, BeginFlush(p)), es, p, |s.flushes|);
    InvRun(s, all);
    AnsweredStoredRun(s, all);
    AnsweredMeansStored(s, t, p, c);
  }

  /** From the calls to the table: when a flush that began with nothing staged is answered and writes succeeded, every
      trade of every batch accepted by the time it began is in the table, whatever was sent meanwhile. */
  lemma FlushedBatchesAreStored(caps: seq<nat>, es: seq<Event>, s: System, p: nat, fs: seq<Event>, t: System, k: nat)
    requires ReachableBy(caps, es, s) && NothingStaged(s) && Flushed(s, p, fs, t)
    requires k < |Payloads(es)| && k < |s.issued| && Landed(s, s.issued[k])
    ensures forall trade :: trade in TradesIn(Payloads(es)[k]) ==> Key(trade) in t.worker.store.table
  {
    ReachableCarries(caps, es, s);
    InvInit(caps);
    assert AnsweredStored(Init(caps));
    AnsweredStoredRun(Init(caps), es);
    LandedInPrimary(s, s.issued[k]);
    FlushedPrimaryIsStored(s, p, fs, t, s.issued[k]);
    assert Carries(s.issued[k], Payloads(es)[k]);
  }
}
