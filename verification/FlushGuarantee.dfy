/** What a flush does guarantee: the high-water mark covers every send that returned, and an answered flush
    has waited for the mark it read. */
module FlushGuarantee {
  import opened Numbers
  import opened WriterWorker
  import opened WriterPipeline
  import opened PipelineTheorems
  import opened PipelinePromises

  // ---- the mark covers every send that returned -----------------------------------------------------------

  /** Some producer still has to raise the mark to `n`, or to find it there. */
  ghost predicate BeingMarked(s: System, n: nat) {
    exists p :: 0 <= p < |s.producers| && Marks(s.producers[p], n)
  }

  predicate Marks(p: Producer, n: nat) {
    (p.Accepted? || p.Marking?) && p.seqNo == n
  }

  /** Every accepted command is covered by the mark or about to be; what a producer has read of the mark is
      at most the mark. */
  ghost predicate Covered(s: System) {
    && (forall c :: Landed(s, c) && !c.Flush? ==> c.seqNo <= s.enqueuedSeq || BeingMarked(s, c.seqNo))
    && (forall p :: 0 <= p < |s.producers| && s.producers[p].Marking? ==> s.producers[p].seen <= s.enqueuedSeq)
  }

  lemma MarkersStayOnOffer(s: System, p: nat, n: nat)
    requires Shape(s) && Enabled(s, TryTier(p)) && BeingMarked(s, n)
    ensures BeingMarked(Apply(s, TryTier(p)), n)
  {
    var q :| 0 <= q < |s.producers| && Marks(s.producers[q], n);
    assert Marks(Apply(s, TryTier(p)).producers[q], n);
  }

  lemma MarkersStayOnCas(s: System, p: nat, spurious: bool, n: nat)
    requires Shape(s) && Enabled(s, CasMark(p, spurious)) && s.producers[p].seen <= s.enqueuedSeq && BeingMarked(s, n)
    ensures var t := Apply(s, CasMark(p, spurious)); n <= t.enqueuedSeq || BeingMarked(t, n)
  {
    var q :| 0 <= q < |s.producers| && Marks(s.producers[q], n);
    var t := Apply(s, CasMark(p, spurious));
    assert n <= t.enqueuedSeq || Marks(t.producers[q], n);
  }

  lemma MarkersStayOtherwise(s: System, e: Event, n: nat)
    requires Shape(s) && Enabled(s, e) && ByProducer(e) && !e.TryTier? && !e.CasMark? && BeingMarked(s, n)
    ensures BeingMarked(Apply(s, e), n)
  {
    var q :| 0 <= q < |s.producers| && Marks(s.producers[q], n);
    assert Marks(Apply(s, e).producers[q], n);
  }

  lemma MarkersStay(s: System, e: Event, n: nat)
    requires Shape(s) && Enabled(s, e) && Covered(s) && BeingMarked(s, n)
    ensures n <= Apply(s, e).enqueuedSeq || BeingMarked(Apply(s, e), n)
  {
    if e.TryTier? {
      MarkersStayOnOffer(s, e.p, n);
    } else if e.CasMark? {
      MarkersStayOnCas(s, e.p, e.spurious, n);
    } else if ByProducer(e) {
      MarkersStayOtherwise(s, e, n);
    } else {
      IssuedKeptInside(s, e);
    }
  }

  lemma OfferLands(s: System, p: nat, c: Command)
    requires !c.Flush? && Shape(s) && Enabled(s, TryTier(p)) && Landed(Apply(s, TryTier(p)), c)
    ensures Landed(s, c) || BeingMarked(Apply(s, TryTier(p)), c.seqNo)
  {
    var t := Apply(s, TryTier(p));
    if !Landed(s, c) {
      assert s.producers[p].command == c by { OthersUnoffered(s, p, c); }
      OfferOutcome(s, p);
      assert Marks(t.producers[p], c.seqNo);
    }
  }

  lemma OfferOutcome(s: System, p: nat)
    requires Shape(s) && Enabled(s, TryTier(p))
    ensures var t, c := Apply(s, TryTier(p)), s.producers[p].command;
            t.producers[p] == Accepted(c.seqNo) || c in t.dropped
            || (t.producers[p].Offering? && t.producers[p].command == c)
  {
  }

  lemma OthersUnoffered(s: System, p: nat, c: Command)
    requires Shape(s) && Enabled(s, TryTier(p)) && Landed(Apply(s, TryTier(p)), c) && !Landed(s, c)
    ensures s.producers[p].command == c
  {
    var t := Apply(s, TryTier(p));
    assert forall q :: 0 <= q < |s.producers| && q != p ==> t.producers[q] == s.producers[q];
    assert t.issued == s.issued && s.dropped <= t.dropped;
  }

  lemma OthersLandNothing(s: System, e: Event, c: Command)
    requires Shape(s) && Enabled(s, e) && !e.TryTier? && Landed(Apply(s, e), c)
    ensures Landed(s, c)
  {
    if ByProducer(e) {
      ProducersLandNothing(s, e, c);
    } else {
      IssuedKeptInside(s, e);
    }
  }

  lemma ProducersLandNothing(s: System, e: Event, c: Command)
    requires Shape(s) && Enabled(s, e) && ByProducer(e) && !e.TryTier? && Landed(Apply(s, e), c)
    ensures Landed(s, c)
  {
    var t := Apply(s, e);
    if e.BeginSend? {
      assert t.producers[e.p].Offering?;
    }
    forall q | 0 <= q < |s.producers| && s.producers[q].Offering? ensures s.producers[q].command != c {
      assert t.producers[q] == s.producers[q];
    }
  }

  /** A producer that marks after the step marked before it, or has just read the mark. */
  lemma MarkersByProducer(s: System, e: Event)
    requires Shape(s) && Enabled(s, e) && ByProducer(e) && !e.TryTier?
    ensures var t := Apply(s, e);
            forall q :: 0 <= q < |t.producers| && t.producers[q].Marking? ==>
              (q < |s.producers| && t.producers[q] == s.producers[q]) || t.producers[q].seen == s.enqueuedSeq
  {
  }

  lemma MarkersByOffer(s: System, p: nat)
    requires Shape(s) && Enabled(s, TryTier(p))
    ensures var t := Apply(s, TryTier(p));
            && |t.producers| == |s.producers| && !t.producers[p].Marking?
            && forall q :: 0 <= q < |s.producers| && q != p ==> t.producers[q] == s.producers[q]
  {
  }

  lemma ReadsStayPast(s: System, e: Event)
    requires Shape(s) && Enabled(s, e) && Covered(s)
    ensures forall p :: 0 <= p < |Apply(s, e).producers| && Apply(s, e).producers[p].Marking? ==>
                          Apply(s, e).producers[p].seen <= Apply(s, e).enqueuedSeq
  {
    IssuedGrows(s, e);
    if e.TryTier? {
      MarkersByOffer(s, e.p);
    } else if ByProducer(e) {
      MarkersByProducer(s, e);
    } else {
      IssuedKeptInside(s, e);
    }
  }

  lemma CoveredKept(s: System, e: Event)
    requires Shape(s) && Enabled(s, e) && Covered(s)
    ensures Covered(Apply(s, e))
  {
    var t := Apply(s, e);
    IssuedGrows(s, e);
    ReadsStayPast(s, e);
    forall c | Landed(t, c) && !c.Flush? ensures c.seqNo <= t.enqueuedSeq || BeingMarked(t, c.seqNo) {
      if e.TryTier? {
        OfferLands(s, e.p, c);
      } else {
        OthersLandNothing(s, e, c);
      }
      if Landed(s, c) && BeingMarked(s, c.seqNo) {
        MarkersStay(s, e, c.seqNo);
      }
    }
  }

  // ---- an answer means the target was reached ---------------------------------------------------------------

  ghost predicate Reached(w: Worker) {
    forall t :: t in w.answered ==> t.target <= w.observedMax
  }

  lemma HandleReaches(w: Worker, c: Command, flushOk: bool, writeOk: bool)
    requires Reached(w)
    ensures Reached(Handle(w, c, flushOk, writeOk))
  {
    var seen := if c.Flush? then w else w.(observedMax := Max(w.observedMax, c.seqNo));
    var filled := if c.Trades? then seen.(buf := seen.buf + c.trades) else seen;
    var flushed := FlushBuffer(filled, flushOk);
    SweepReaches(flushed);
    if BearsSnapshot(c) {
      SweepReaches(ApplySnapshot(flushed, c.seqNo, TradesOf(c), c.snapshot, writeOk));
    }
  }

  lemma SweepReaches(w: Worker)
    requires Reached(w)
    ensures Reached(CompleteReady(w))
  {
    CompleteReadyExact(w);
    var w' := CompleteReady(w);
    forall t | t in w'.answered ensures t.target <= w'.observedMax {
      var i :| 0 <= i < |w'.answered| && w'.answered[i] == t;
      if i < |w.answered| {
        assert w.answered[i] == t;
      }
    }
  }

  lemma ReachedKept(s: System, e: Event)
    requires Inv(s) && Enabled(s, e) && Reached(s.worker)
    ensures Reached(Apply(s, e).worker)
  {
    if e.Receive? {
      HandleReaches(s.worker, s.queues[0][0], e.flushOk, e.writeOk);
    } else if e.TimerTick? {
      SweepReaches(FlushBuffer(s.worker, e.flushOk));
    } else if e.Exit? {
      ExitKeepsWorker(s, e.flushOk);
    } else {
      OthersLeaveWorker(s, e);
    }
  }

  // ---- whole runs ---------------------------------------------------------------------------------------------

  ghost predicate Guarantee(s: System) {
    Inv(s) && Covered(s) && Reached(s.worker)
  }

  lemma {:induction false} GuaranteeRun(s: System, es: seq<Event>)
    requires Guarantee(s) && Runnable(s, es)
    ensures Guarantee(Run(s, es))
    decreases |es|
  {
    if es != [] {
      GuaranteeStep(s, es[0]);
      GuaranteeRun(Apply(s, es[0]), es[1..]);
    }
  }

  lemma GuaranteeStep(s: System, e: Event)
    requires Guarantee(s) && Enabled(s, e)
    ensures Guarantee(Apply(s, e))
  {
    InvKept(s, e);
    CoveredKept(s, e);
    ReachedKept(s, e);
  }

  lemma ReachableGuarantees(caps: seq<nat>, es: seq<Event>, s: System)
    requires ReachableBy(caps, es, s)
    ensures Guarantee(s)
  {
    InvInit(caps);
    GuaranteeRun(Init(caps), es);
  }

  /** Whatever flush `p` has under way waits for `target`. */
  predicate WaitsFor(s: System, p: nat, target: nat) {
    && p < |s.producers|
    && (s.producers[p].SendingFlush? ==> s.producers[p].target == target)
    && (s.producers[p].AwaitingFlush? ==> s.producers[p].ticket.target == target)
  }

  lemma WaitsForKept(s: System, e: Event, p: nat, target: nat)
    requires Shape(s) && Enabled(s, e) && e != BeginFlush(p) && WaitsFor(s, p, target)
    ensures WaitsFor(Apply(s, e), p, target)
  {
    if e.SendFlush? {
      WaitsForSend(s, e.p, p, target);
    } else if ByProducer(e) {
      WaitsForByProducer(s, e, p, target);
    } else {
      IssuedKeptInside(s, e);
    }
  }

  lemma WaitsForSend(s: System, q: nat, p: nat, target: nat)
    requires Shape(s) && Enabled(s, SendFlush(q)) && WaitsFor(s, p, target)
    ensures WaitsFor(Apply(s, SendFlush(q)), p, target)
  {
  }

  lemma WaitsForByProducer(s: System, e: Event, p: nat, target: nat)
    requires Shape(s) && Enabled(s, e) && ByProducer(e) && e != BeginFlush(p) && !e.SendFlush? && WaitsFor(s, p, target)
    ensures WaitsFor(Apply(s, e), p, target)
  {
  }

  lemma {:induction false} WaitsForRun(s: System, es: seq<Event>, p: nat, target: nat)
    requires Shape(s) && Runnable(s, es) && BeginFlush(p) !in es && WaitsFor(s, p, target)
    ensures WaitsFor(Run(s, es), p, target)
    decreases |es|
  {
    if es != [] {
      ApplyShape(s, es[0]);
      WaitsForKept(s, es[0], p, target);
      WaitsForRun(Apply(s, es[0]), es[1..], p, target);
    }
  }

  /** When a flush that `p` began in `s` is answered, the worker has observed a sequence number at least as
      large as that of every command whose send had returned by then. */
  lemma FlushCoversReturnedSends(s: System, p: nat, es: seq<Event>)
    requires Guarantee(s) && Enabled(s, BeginFlush(p))
    requires Runnable(Apply(s, BeginFlush(p)), es) && BeginFlush(p) !in es
    requires AnsweredFor(Run(Apply(s, BeginFlush(p)), es), p)
    ensures var t := Run(Apply(s, BeginFlush(p)), es);
            && s.enqueuedSeq <= t.worker.observedMax
            && forall c :: Landed(s, c) && !c.Flush? && !BeingMarked(s, c.seqNo) ==> c.seqNo <= t.worker.observedMax
  {
    var begun := Apply(s, BeginFlush(p));
    GuaranteeStep(s, BeginFlush(p));
    GuaranteeRun(begun, es);
    WaitsForRun(begun, es, p, s.enqueuedSeq);
  }

  /** A flush returns only with its answer. */
  lemma ReturnMeansAnswered(t: System, p: nat)
    requires Inv(t) && Enabled(t, FlushReturns(p))
    ensures AnsweredFor(t, p)
  {
    assert !t.producers[p].Gone?;
  }

  /** The same for a flush that returns. */
  lemma ReturnedFlushCovers(s: System, p: nat, es: seq<Event>, t: System)
    requires Guarantee(s) && Enabled(s, BeginFlush(p))
    requires Runnable(Apply(s, BeginFlush(p)), es) && BeginFlush(p) !in es && t == Run(Apply(s, BeginFlush(p)), es)
    requires Enabled(t, FlushReturns(p))
    ensures s.enqueuedSeq <= t.worker.observedMax
    ensures forall c :: Landed(s, c) && !c.Flush? && !BeingMarked(s, c.seqNo) ==> c.seqNo <= t.worker.observedMax
  {
    GuaranteeStep(s, BeginFlush(p));
    GuaranteeRun(Apply(s, BeginFlush(p)), es);
    ReturnMeansAnswered(t, p);
    FlushCoversReturnedSends(s, p, es);
  }
}
