/** Exactly when a flush waits for every batch enqueued before it. The documentation of the flush promises
    this for all batches, those staged in the overflow, retry, spillover and backpressure channels
    included; the code waits for the largest sequence number only. */
module FlushGap {
  import opened Multisets
  import opened WriterWorker
  import opened WriterPipeline
  import opened PipelineInvariants
  import opened PipelineLines
  import opened PipelineTheorems
  import opened PipelinePromises

  /** Every command enqueued by the time of `s` is observed in `t`. */
  ghost predicate AllObserved(s: System, t: System) {
    forall c :: Landed(s, c) ==> c in t.observed
  }

  /** The documented promise for a flush that `p` begins in `s`, over every schedule. */
  ghost predicate FlushWaitsForAll(s: System, p: nat)
    requires Shape(s)
  {
    forall es :: Runnable(s, [BeginFlush(p)] + es) && BeginFlush(p) !in es
                 && AnsweredFor(Run(s, [BeginFlush(p)] + es), p)
                 ==> AllObserved(s, Run(s, [BeginFlush(p)] + es))
  }

  /** Nothing waits outside the primary channel. */
  predicate NothingStaged(s: System) {
    && (forall t :: 1 <= t < |s.queues| ==> s.queues[t] == [])
    && (forall i :: 0 <= i < |s.forwarders| ==> !s.forwarders[i].Holding?)
  }

  // ---- nothing staged: the promise holds ------------------------------------------------------------

  /** Any ticket `p` holds was issued at or after ticket number `first`. */
  ghost predicate TicketSince(s: System, p: nat, first: nat) {
    && first <= |s.flushes| && p < |s.producers|
    && (s.producers[p].AwaitingFlush? ==> s.producers[p].ticket.id >= first)
  }

  lemma {:induction false} TicketSinceRun(s: System, es: seq<Event>, p: nat, first: nat)
    requires Shape(s) && Runnable(s, es) && TicketSince(s, p, first)
    ensures TicketSince(Run(s, es), p, first)
    ensures s.primaryIn <= Run(s, es).primaryIn
    decreases |es|
  {
    if es != [] {
      ApplyShape(s, es[0]);
      TicketSinceStep(s, es[0], p, first);
      TicketSinceRun(Apply(s, es[0]), es[1..], p, first);
    }
  }

  lemma TicketSinceStep(s: System, e: Event, p: nat, first: nat)
    requires Shape(s) && Enabled(s, e) && TicketSince(s, p, first)
    ensures TicketSince(Apply(s, e), p, first)
    ensures s.primaryIn <= Apply(s, e).primaryIn
  {
    if e.SendFlush? {
      TicketSinceSend(s, e.p, p, first);
    } else if ByProducer(e) {
      TicketSinceByProducer(s, e, p, first);
    } else {
      IssuedKeptInside(s, e);
    }
  }

  lemma TicketSinceSend(s: System, q: nat, p: nat, first: nat)
    requires Shape(s) && Enabled(s, SendFlush(q)) && TicketSince(s, p, first)
    ensures TicketSince(Apply(s, SendFlush(q)), p, first)
    ensures s.primaryIn <= Apply(s, SendFlush(q)).primaryIn
  {
  }

  lemma TicketSinceByProducer(s: System, e: Event, p: nat, first: nat)
    requires Shape(s) && Enabled(s, e) && TicketSince(s, p, first) && ByProducer(e) && !e.SendFlush?
    ensures TicketSince(Apply(s, e), p, first)
    ensures s.primaryIn <= Apply(s, e).primaryIn
  {
  }

  lemma NoOldTicketInPrimary(s: System, ticket: Ticket)
    requires Inv(s) && Flush(ticket) in s.primaryIn
    ensures ticket.id < |s.flushes|
  {
    if Flush(ticket) in s.queues[0] {
      QueuedWitness(s, 0, Flush(ticket));
    }
    NoStrangers(s, Flush(ticket));
  }

  lemma BeginFlushStarts(s: System, p: nat)
    requires Inv(s) && Enabled(s, BeginFlush(p))
    ensures Inv(Apply(s, BeginFlush(p))) && TicketSince(Apply(s, BeginFlush(p)), p, |s.flushes|)
    ensures Apply(s, BeginFlush(p)).primaryIn == s.primaryIn
  {
    InvKept(s, BeginFlush(p));
  }

  lemma WaitsWhenNothingStaged(s: System, p: nat, es: seq<Event>)
    requires Inv(s) && NothingStaged(s)
    requires Runnable(s, [BeginFlush(p)] + es) && AnsweredFor(Run(s, [BeginFlush(p)] + es), p)
    ensures AllObserved(s, Run(s, [BeginFlush(p)] + es))
  {
    var all := [BeginFlush(p)] + es;
    assert all[0] == BeginFlush(p) && all[1..] == es;
    BeginFlushStarts(s, p);
    var begun := Apply(s, BeginFlush(p));
    TicketSinceRun(begun, es, p, |s.flushes|);
    InvRun(begun, es);
    AnsweredSawPrimary(s, Run(begun, es), p);
  }

  /** A caller answered for a ticket issued after `s` had everything in the primary channel of `s` observed. */
  lemma PrimaryWasSeen(s: System, t: System, p: nat, c: Command)
    requires Inv(s) && Inv(t) && s.primaryIn <= t.primaryIn && c in s.primaryIn
    requires AnsweredFor(t, p) && TicketSince(t, p, |s.flushes|)
    ensures c in t.observed
  {
    var ticket := t.producers[p].ticket;
    AheadIsObserved(t, ticket);
    var k :| 0 <= k < |t.observed| && t.primaryIn[k] == Flush(ticket) && t.primaryIn[..k] <= t.observed;
    if k < |s.primaryIn| {
      assert s.primaryIn[k] == Flush(ticket);
      NoOldTicketInPrimary(s, ticket);
    }
    var j :| 0 <= j < |s.primaryIn| && s.primaryIn[j] == c;
    assert t.primaryIn[..k][j] == c;
  }

  lemma AnsweredSawPrimary(s: System, t: System, p: nat)
    requires Inv(s) && Inv(t) && NothingStaged(s) && s.primaryIn <= t.primaryIn
    requires AnsweredFor(t, p) && TicketSince(t, p, |s.flushes|)
    ensures AllObserved(s, t)
  {
    forall c | Landed(s, c) ensures c in t.observed {
      LandedInPrimary(s, c);
      PrimaryWasSeen(s, t, p, c);
    }
  }

  lemma LandedInPrimary(s: System, c: Command)
    requires Inv(s) && NothingStaged(s) && Landed(s, c)
    ensures c in s.primaryIn
  {
    LandedIsInPipeOrObserved(s, c);
    GatherEmpty(s.forwarders, HandItems);
    if c !in s.observed {
      var t := GatherWitness(s.queues, QueueItems, c);
      assert t == 0;
    }
  }

  // ---- something staged: a schedule breaks the promise ------------------------------------------------

  predicate NoFlushBegun(es: seq<Event>) {
    forall e :: e in es ==> !e.BeginFlush?
  }

  ghost predicate SameStage(s: System, t: System) {
    && |t.queues| == |s.queues| > 0 && t.queues[1..] == s.queues[1..]
    && t.forwarders == s.forwarders && t.running == s.running && t.caps == s.caps
  }

  /** `t` is `s` after steps that moved nothing staged, with the primary channel empty. */
  ghost predicate Emptied(s: System, t: System) {
    && Inv(t) && t.running && t.queues[0] == [] && SameStage(s, t)
    && s.issued <= t.issued && s.enqueuedSeq == t.enqueuedSeq
  }

  /** The worker empties the primary channel while every forwarder stands still. */
  lemma {:induction false} DrainPrimary(s: System) returns (es: seq<Event>)
    requires Inv(s) && s.running
    ensures Runnable(s, es) && NoFlushBegun(es)
    ensures Emptied(s, Run(s, es)) && Run(s, es).producers == s.producers && Run(s, es).lines == s.lines
    decreases |s.queues[0]|
  {
    if s.queues[0] == [] {
      es := [];
    } else {
      var e := Receive(true, true);
      InvKept(s, e);
      var rest := DrainPrimary(Apply(s, e));
      es := [e] + rest;
      assert es[1..] == rest;
    }
  }

  /** A caller in line for the empty primary channel, whose turn it is, gets in and is received. */
  lemma LetIn(s: System, q: nat) returns (es: seq<Event>)
    requires Inv(s) && s.running && s.queues[0] == [] && q < |s.producers| && Calling(q) in s.lines[0]
    requires MayEnter(s, 0, Calling(q))
    ensures Runnable(s, es) && NoFlushBegun(es)
    ensures Emptied(s, Run(s, es)) && Run(s, es).lines == s.lines[0 := Without(s.lines[0], Calling(q))]
    ensures |Run(s, es).producers| == |s.producers|
    ensures forall p :: 0 <= p < |s.producers| && p != q ==> Run(s, es).producers[p] == s.producers[p]
  {
    assert WaitsIn(s, 0, Calling(q));
    FlushPushed(s, q);
    InvKept(s, SendFlush(q));
    var rest := DrainPrimary(Apply(s, SendFlush(q)));
    RunFirst(s, SendFlush(q), rest);
    es := [SendFlush(q)] + rest;
  }

  /** The first caller in line, unless a single slot is promised to the forwarder before it. */
  lemma FirstCaller(s: System) returns (q: nat)
    requires Inv(s) && s.queues[0] == [] && (s.caps[0] > 1 || Forwarding !in s.lines[0]) && !HasRoom(s, 0)
    ensures q < |s.producers| && Calling(q) in s.lines[0] && MayEnter(s, 0, Calling(q))
  {
    var line := s.lines[0];
    assert OnceEach(line);
    assert forall w :: w in line ==> WaitsIn(s, 0, w);
    if line[0].Calling? {
      q := line[0].p;
      assert line[0] in line;
    } else {
      assert line[0] in line;
      Different(line, 0, 1);
      assert line[1] in line;
      q := line[1].p;
    }
  }

  /** The callers that wait for the primary channel get in one after the other, until there is room. */
  lemma {:induction false} LetCallersIn(s: System, p: nat) returns (es: seq<Event>)
    requires Inv(s) && s.running && s.queues[0] == [] && p < |s.producers| && Calling(p) !in s.lines[0]
    requires s.caps[0] > 1 || Forwarding !in s.lines[0]
    ensures Runnable(s, es) && NoFlushBegun(es)
    ensures Emptied(s, Run(s, es)) && HasRoom(Run(s, es), 0) && Calling(p) !in Run(s, es).lines[0]
    ensures p < |Run(s, es).producers| && Run(s, es).producers[p] == s.producers[p]
    decreases |s.lines[0]|
  {
    if HasRoom(s, 0) {
      es := [];
    } else {
      var q := FirstCaller(s);
      var es1 := LetIn(s, q);
      var t := Run(s, es1);
      assert OnceEach(s.lines[0]);
      WithoutExact(s.lines[0], Calling(q));
      var es2 := LetCallersIn(t, p);
      RunAppend(s, es1, es2);
      es := es1 + es2;
    }
  }

  lemma BeganSend(s: System, m: nat, payload: Payload)
    requires Inv(s) && m < |s.producers| && s.producers[m].Idle? && payload.OnlySnapshot?
    ensures Enabled(s, BeginSend(m, payload)) && Inv(Apply(s, BeginSend(m, payload)))
    ensures var c := Stamp(payload, s.nextSeq + 1);
            && Apply(s, BeginSend(m, payload)) == s.(producers := s.producers[m := Offering(0, c)],
                                                    nextSeq := s.nextSeq + 1, issued := s.issued + [c])
            && c.seqNo > s.enqueuedSeq
  {
    InvKept(s, BeginSend(m, payload));
  }

  lemma SendOver(s: System, m: nat) returns (es: seq<Event>)
    requires Inv(s) && s.running && s.queues[0] == [] && HasRoom(s, 0) && m < |s.producers| && s.producers[m].Idle?
    ensures Runnable(s, es) && NoFlushBegun(es)
    ensures var t := Run(s, es);
            && Inv(t) && t.queues[0] == [] && SameStage(s, t) && t.worker.observedMax > s.enqueuedSeq
            && |t.producers| == |s.producers| && s.issued <= t.issued && t.lines == s.lines
            && forall k :: 0 <= k < |s.producers| && k != m ==> t.producers[k] == s.producers[k]
  {
    var payload := OnlySnapshot(Snapshot([], [], []));
    var c := Stamp(payload, s.nextSeq + 1);
    BeganSend(s, m, payload);
    var rest := SendPast(Apply(s, BeginSend(m, payload)), m, c);
    RunFirst(s, BeginSend(m, payload), rest);
    es := [BeginSend(m, payload)] + rest;
  }

  /** A fresh handle gets a command through the empty primary channel, past whatever is staged. */
  lemma Overtake(s: System, p: nat) returns (es: seq<Event>)
    requires Inv(s) && s.running && s.queues[0] == [] && HasRoom(s, 0)
    requires p < |s.producers| && s.producers[p].SendingFlush?
    ensures Runnable(s, es) && NoFlushBegun(es)
    ensures var t := Run(s, es);
            Inv(t) && t.queues[0] == [] && SameStage(s, t) && p < |t.producers| && t.producers[p] == s.producers[p]
            && t.worker.observedMax > s.enqueuedSeq && s.issued <= t.issued && t.lines == s.lines
  {
    InvKept(s, CloneHandle(p));
    var rest := SendOver(Apply(s, CloneHandle(p)), |s.producers|);
    RunFirst(s, CloneHandle(p), rest);
    es := [CloneHandle(p)] + rest;
  }

  lemma SendPast(s: System, m: nat, c: Command) returns (es: seq<Event>)
    requires Inv(s) && s.running && s.queues[0] == [] && HasRoom(s, 0)
    requires m < |s.producers| && s.producers[m] == Offering(0, c) && !c.Flush? && c.seqNo > s.enqueuedSeq
    ensures Runnable(s, es) && NoFlushBegun(es)
    ensures var t := Run(s, es);
            && Inv(t) && t.queues[0] == [] && SameStage(s, t) && t.worker.observedMax > s.enqueuedSeq
            && t.producers == s.producers[m := Accepted(c.seqNo)] && t.issued == s.issued && t.lines == s.lines
  {
    InvKept(s, TryTier(m));
    PushedPast(s, m, c);
    var rest := ReceiveLast(Apply(s, TryTier(m)), c);
    RunFirst(s, TryTier(m), rest);
    es := [TryTier(m)] + rest;
  }

  lemma ReceiveLast(s: System, c: Command) returns (es: seq<Event>)
    requires Inv(s) && s.running && s.queues[0] == [c] && !c.Flush? && c.seqNo > s.enqueuedSeq
    ensures Runnable(s, es) && NoFlushBegun(es)
    ensures var t := Run(s, es);
            && Inv(t) && t.queues[0] == [] && SameStage(s, t) && t.worker.observedMax > s.enqueuedSeq
            && t.producers == s.producers && t.issued == s.issued && t.lines == s.lines
  {
    InvKept(s, Receive(true, true));
    ReceivedLast(s, c);
    RunFirst(s, Receive(true, true), []);
    es := [Receive(true, true)] + [];
  }

  lemma PushedPast(s: System, m: nat, c: Command)
    requires Shape(s) && s.running && s.queues[0] == [] && HasRoom(s, 0)
    requires m < |s.producers| && s.producers[m] == Offering(0, c)
    ensures Apply(s, TryTier(m)) == s.(producers := s.producers[m := Accepted(c.seqNo)],
                                       queues := s.queues[0 := [c]], primaryIn := s.primaryIn + [c])
  {
    assert s.queues[0] + [c] == [c];
  }

  lemma ReceivedLast(s: System, c: Command)
    requires Inv(s) && s.running && s.queues[0] == [c] && !c.Flush? && c.seqNo > s.enqueuedSeq
    requires Inv(Apply(s, Receive(true, true)))
    ensures var t := Apply(s, Receive(true, true));
            && t.queues[0] == [] && SameStage(s, t) && t.worker.observedMax > s.enqueuedSeq
            && t.producers == s.producers && t.issued == s.issued && t.lines == s.lines
  {
    var t := Apply(s, Receive(true, true));
    MaxSeqBounds(t.observed);
    assert c in t.observed;
  }

  /** The flush command itself then goes straight through and is answered at once. */
  lemma Answer(s: System, p: nat) returns (es: seq<Event>)
    requires Inv(s) && s.running && s.queues[0] == [] && p < |s.producers| && s.producers[p].SendingFlush?
    requires MayEnter(s, 0, Calling(p))
    requires s.producers[p].target <= s.worker.observedMax
    ensures Runnable(s, es) && NoFlushBegun(es) && AnsweredPast(s, Run(s, es), p)
  {
    FlushPushed(s, p);
    InvKept(s, SendFlush(p));
    var rest := AnswerNow(Apply(s, SendFlush(p)), p);
    RunFirst(s, SendFlush(p), rest);
    es := [SendFlush(p)] + rest;
  }

  lemma AnswerNow(s: System, p: nat) returns (es: seq<Event>)
    requires Inv(s) && s.running && p < |s.producers| && s.producers[p].AwaitingFlush?
    requires s.queues[0] == [Flush(s.producers[p].ticket)] && s.producers[p].ticket.target <= s.worker.observedMax
    ensures Runnable(s, es) && NoFlushBegun(es)
    ensures var t := Run(s, es); Inv(t) && AnsweredFor(t, p) && SameStage(s, t) && t.issued == s.issued
  {
    AnswerOnReceive(s, s.producers[p].ticket);
    InvKept(s, Receive(true, true));
    RunFirst(s, Receive(true, true), []);
    es := [Receive(true, true)] + [];
  }

  lemma FlushPushed(s: System, p: nat)
    requires Inv(s) && s.running && s.queues[0] == [] && p < |s.producers| && s.producers[p].SendingFlush?
    requires MayEnter(s, 0, Calling(p))
    ensures Enabled(s, SendFlush(p))
    ensures var ticket, t := Ticket(s.producers[p].target, |s.flushes|), Apply(s, SendFlush(p));
            && t.queues[0] == [Flush(ticket)] && |t.queues| == |s.queues| && t.queues[1..] == s.queues[1..]
            && t.forwarders == s.forwarders && t.running && t.worker == s.worker && t.issued == s.issued
            && t.producers == s.producers[p := AwaitingFlush(ticket)] && t.enqueuedSeq == s.enqueuedSeq
            && t.lines == s.lines[0 := Without(s.lines[0], Calling(p))] && t.caps == s.caps
  {
  }

  lemma AnswerOnReceive(s: System, ticket: Ticket)
    requires Inv(s) && s.running && s.queues[0] == [Flush(ticket)] && ticket.target <= s.worker.observedMax
    ensures var t := Apply(s, Receive(true, true));
            && ticket in t.worker.answered && SameStage(s, t) && t.producers == s.producers && t.issued == s.issued
  {
    var w := Handle(s.worker, Flush(ticket), true, true);
    assert w.answered == s.worker.answered + [ticket];
  }

  lemma StagedIsNotObserved(s: System, t: System)
    requires Inv(s) && Inv(t) && SameStage(s, t) && s.issued <= t.issued && !NothingStaged(s)
    ensures exists c :: Landed(s, c) && c !in t.observed
  {
    var c := StagedCommand(s, t);
    InPipeIsLanded(s, c);
    CountByNumber(t.issued, 1, c);
    ExactlyOnePlace(t, c.seqNo);
  }

  lemma StagedCommand(s: System, t: System) returns (c: Command)
    requires Inv(s) && Inv(t) && SameStage(s, t) && !NothingStaged(s)
    ensures !c.Flush? && Queued(s)[c] + InHand(s)[c] > 0 && Queued(t)[c] + InHand(t)[c] > 0
  {
    if i :| 0 <= i < |s.forwarders| && s.forwarders[i].Holding? {
      c := s.forwarders[i].command;
      InHandWitness(s, i);
      InHandWitness(t, i);
    } else {
      var q :| 1 <= q < |s.queues| && s.queues[q] != [];
      c := s.queues[q][0];
      assert t.queues[1..][q - 1] == s.queues[1..][q - 1];
      QueuedWitness(s, q, c);
      QueuedWitness(t, q, c);
    }
  }

  // ---- exactly when -----------------------------------------------------------------------------------

  /** `p` is answered in `t` and nothing that was staged in `s` has moved. */
  ghost predicate AnsweredPast(s: System, t: System, p: nat) {
    Inv(t) && AnsweredFor(t, p) && SameStage(s, t) && s.issued <= t.issued
  }

  lemma PastEmptied(s: System, t: System, u: System, p: nat)
    requires SameStage(s, t) && s.issued <= t.issued && AnsweredPast(t, u, p)
    ensures AnsweredPast(s, u, p)
  {
  }

  lemma OvertakeAndAnswer(s: System, p: nat) returns (es: seq<Event>)
    requires Inv(s) && s.running && s.queues[0] == [] && HasRoom(s, 0) && p < |s.producers|
    requires s.producers[p] == SendingFlush(s.enqueuedSeq) && Calling(p) !in s.lines[0]
    ensures Runnable(s, es) && NoFlushBegun(es) && AnsweredPast(s, Run(s, es), p)
  {
    var es1 := Overtake(s, p);
    var es2 := Answer(Run(s, es1), p);
    RunAppend(s, es1, es2);
    PastEmptied(s, Run(s, es1), Run(Run(s, es1), es2), p);
    es := es1 + es2;
  }

  lemma MakeRoom(s: System, p: nat) returns (es: seq<Event>)
    requires Inv(s) && s.running && p < |s.producers| && Calling(p) !in s.lines[0] && Overtakable(s)
    ensures Runnable(s, es) && NoFlushBegun(es)
    ensures Emptied(s, Run(s, es)) && HasRoom(Run(s, es), 0) && Calling(p) !in Run(s, es).lines[0]
    ensures p < |Run(s, es).producers| && Run(s, es).producers[p] == s.producers[p]
  {
    var es1 := DrainPrimary(s);
    var es2 := LetCallersIn(Run(s, es1), p);
    RunAppend(s, es1, es2);
    es := es1 + es2;
  }

  lemma OvertakingRun(s: System, p: nat) returns (es: seq<Event>)
    requires Inv(s) && s.running && p < |s.producers| && s.producers[p] == SendingFlush(s.enqueuedSeq)
    requires Calling(p) !in s.lines[0] && Overtakable(s)
    ensures Runnable(s, es) && BeginFlush(p) !in es && AnsweredPast(s, Run(s, es), p)
  {
    var es1 := MakeRoom(s, p);
    var es2 := OvertakeAndAnswer(Run(s, es1), p);
    RunAppend(s, es1, es2);
    PastEmptied(s, Run(s, es1), Run(Run(s, es1), es2), p);
    es := es1 + es2;
  }

  /** The primary channel has more than one slot, or its forwarder is not in line for the only one. */
  predicate Overtakable(s: System)
    requires |s.caps| == |s.lines| == TIERS
  {
    s.caps[0] > 1 || Forwarding !in s.lines[0]
  }

  lemma BeganFlush(s: System, p: nat)
    requires Inv(s) && p < |s.producers| && s.producers[p].Idle?
    ensures Enabled(s, BeginFlush(p)) && Inv(Apply(s, BeginFlush(p))) && Apply(s, BeginFlush(p)).running
    ensures Apply(s, BeginFlush(p)) == s.(producers := s.producers[p := SendingFlush(s.enqueuedSeq)])
    ensures Calling(p) !in s.lines[0]
  {
    InvKept(s, BeginFlush(p));
    NobodyMeetsAClosedChannel(s);
    assert !Closed(s, 0);
    assert Calling(p) in s.lines[0] ==> WaitsIn(s, 0, Calling(p));
  }

  /** With anything staged some schedule answers the flush while a batch enqueued before it is still
      unobserved. */
  lemma StagedBreaksThePromise(s: System, p: nat)
    requires Inv(s) && p < |s.producers| && s.producers[p].Idle? && Overtakable(s) && !NothingStaged(s)
    ensures !FlushWaitsForAll(s, p)
  {
    BeganFlush(s, p);
    var begun := Apply(s, BeginFlush(p));
    var es := OvertakingRun(begun, p);
    var all := [BeginFlush(p)] + es;
    RunFirst(s, BeginFlush(p), es);
    StagedIsNotObserved(s, Run(s, all));
  }
}
