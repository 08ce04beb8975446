/** The promises of the writer pipeline, over every run from an empty pipeline. */
module PipelineTheorems {
  import opened Multisets
  import opened WriterWorker
  import opened WriterPipeline
  import opened PipelineInvariants
  import opened PipelineLines

  // ---- uniqueness -----------------------------------------------------------------------------

  lemma {:induction false} CountByNumber(log: seq<Command>, first: nat, c: Command)
    requires forall k :: 0 <= k < |log| ==> !log[k].Flush? && log[k].seqNo == first + k
    ensures multiset(log)[c] <= 1
    ensures c in log <==> !c.Flush? && first <= c.seqNo < first + |log| && log[c.seqNo - first] == c
  {
    if log != [] {
      CountByNumber(log[1..], first + 1, c);
      CountTail(log, c);
      assert log == [log[0]] + log[1..];
    }
  }

  lemma FlushesAreFlushes(log: seq<Command>, c: Command)
    requires forall k :: 0 <= k < |log| ==> log[k].Flush?
    ensures !c.Flush? ==> multiset(log)[c] == 0
  {
    assert !c.Flush? ==> c !in log;
  }

  /** Sequence number `n` is in exactly one place: dropped and counted, observed, in a queue, in a
      forwarder's hand, or still with its producer. */
  ghost predicate InOnePlace(s: System, n: nat)
    requires 1 <= n <= |s.issued|
  {
    var c := s.issued[n - 1];
    && !c.Flush? && c.seqNo == n
    && multiset(s.dropped)[c] + multiset(s.observed)[c] + Queued(s)[c] + InHand(s)[c] + Offered(s)[c] == 1
  }

  lemma ExactlyOnePlace(s: System, n: nat)
    requires Conserved(s) && Numbered(s) && 1 <= n <= s.nextSeq
    ensures InOnePlace(s, n)
  {
    var c := s.issued[n - 1];
    CountByNumber(s.issued, 1, c);
    FlushesAreFlushes(s.flushes, c);
    assert Copies(s, c) == multiset(s.issued)[c] + multiset(s.flushes)[c];
  }

  /** Nothing is anywhere that was not issued or sent. */
  lemma NoStrangers(s: System, c: Command)
    requires Conserved(s) && Numbered(s) && Copies(s, c) > 0
    ensures !c.Flush? ==> c in s.issued && 1 <= c.seqNo <= s.nextSeq && s.issued[c.seqNo - 1] == c
    ensures c.Flush? ==> c in s.flushes
  {
    assert Copies(s, c) == multiset(s.issued)[c] + multiset(s.flushes)[c];
    CountByNumber(s.issued, 1, c);
    FlushesAreFlushes(s.flushes, c);
    assert c.Flush? ==> c !in s.issued;
  }

  // ---- acceptance and the high-water mark -------------------------------------------------------

  /** The command was allocated and is neither dropped nor still with a producer. */
  ghost predicate Landed(s: System, c: Command) {
    && c in s.issued
    && c !in s.dropped
    && forall p :: 0 <= p < |s.producers| && s.producers[p].Offering? ==> s.producers[p].command != c
  }

  lemma OfferedWitness(s: System, p: nat)
    requires p < |s.producers| && s.producers[p].Offering?
    ensures Offered(s)[s.producers[p].command] > 0
  {
    GatherUpdate(s.producers, ProducerItems, p, Idle);
  }

  lemma QueuedWitness(s: System, t: nat, c: Command)
    requires t < |s.queues| && c in s.queues[t]
    ensures Queued(s)[c] > 0
  {
    GatherUpdate(s.queues, QueueItems, t, []);
    assert QueueItems(s.queues[t])[c] > 0;
  }

  lemma InHandWitness(s: System, i: nat)
    requires i < |s.forwarders| && s.forwarders[i].Holding?
    ensures InHand(s)[s.forwarders[i].command] > 0
  {
    GatherUpdate(s.forwarders, HandItems, i, Ready);
  }

  lemma LandedIsInPipeOrObserved(s: System, c: Command)
    requires Conserved(s) && Numbered(s) && Landed(s, c)
    ensures c in s.observed || Queued(s)[c] + InHand(s)[c] > 0
  {
    CountByNumber(s.issued, 1, c);
    ExactlyOnePlace(s, c.seqNo);
    if Offered(s)[c] > 0 {
      var p := GatherWitness(s.producers, ProducerItems, c);
    }
  }

  lemma InPipeIsLanded(s: System, c: Command)
    requires Conserved(s) && Numbered(s) && !c.Flush?
    requires c in s.observed || Queued(s)[c] + InHand(s)[c] > 0
    ensures Landed(s, c)
  {
    NoStrangers(s, c);
    ExactlyOnePlace(s, c.seqNo);
    if p :| 0 <= p < |s.producers| && s.producers[p].Offering? && s.producers[p].command == c {
      OfferedWitness(s, p);
    }
  }

  lemma OfferKeepsLanded(s: System, p: nat, tier: nat, d: Command, c: Command)
    requires |s.caps| == |s.queues| == |s.lines| == TIERS && |s.forwarders| == TIERS - 1 && tier < TIERS && !d.Flush?
    requires p < |s.producers| && s.producers[p] == Offering(tier, d) && Landed(s, c)
    ensures Landed(Offer(s, p, tier, d), c)
  {
  }

  lemma BeginSendKeepsLanded(s: System, p: nat, payload: Payload, c: Command)
    requires Shape(s) && Enabled(s, BeginSend(p, payload)) && Numbered(s) && Landed(s, c)
    ensures Landed(Apply(s, BeginSend(p, payload)), c)
  {
    CountByNumber(s.issued, 1, c);
    assert Stamp(payload, s.nextSeq + 1) != c;
  }

  lemma PassKeepsLanded(s: System, i: nat, c: Command)
    requires Shape(s) && Enabled(s, Pass(i)) && Cascade(s) && Landed(s, c)
    ensures Landed(Apply(s, Pass(i)), c)
  {
    NobodyMeetsAClosedChannel(s);
  }

  /** Once a command is in the pipeline it is never dropped. */
  lemma LandedKept(s: System, e: Event, c: Command)
    requires Shape(s) && Enabled(s, e) && Cascade(s) && Numbered(s) && Landed(s, c)
    ensures Landed(Apply(s, e), c)
  {
    if e.TryTier? {
      OfferKeepsLanded(s, e.p, s.producers[e.p].tier, s.producers[e.p].command, c);
    } else if e.BeginSend? {
      BeginSendKeepsLanded(s, e.p, e.payload, c);
    } else if e.Pass? {
      PassKeepsLanded(s, e.i, c);
    }
  }

  ghost predicate Marked(s: System) {
    && s.enqueuedSeq <= |s.issued|
    && (s.enqueuedSeq > 0 ==> Landed(s, s.issued[s.enqueuedSeq - 1]))
    && (forall p :: 0 <= p < |s.producers| && (s.producers[p].Accepted? || s.producers[p].Marking?) ==>
          1 <= s.producers[p].seqNo <= |s.issued| && Landed(s, s.issued[s.producers[p].seqNo - 1]))
  }

  /** No flush waits for more than the high-water mark, and whoever awaits an answer has sent a flush. */
  ghost predicate Targeted(s: System) {
    && (forall p :: 0 <= p < |s.producers| && s.producers[p].SendingFlush? ==> s.producers[p].target <= s.enqueuedSeq)
    && (forall k :: 0 <= k < |s.flushes| ==> s.flushes[k].Flush? && s.flushes[k].ticket.target <= s.enqueuedSeq)
    && (forall p :: 0 <= p < |s.producers| && s.producers[p].AwaitingFlush? ==>
          Flush(s.producers[p].ticket) in s.flushes)
  }

  /** A flush command is never staged outside the primary channel, and never dropped. */
  ghost predicate FlushesUnstaged(s: System) {
    && (forall d :: d in s.dropped ==> !d.Flush?)
    && (forall t, k :: 1 <= t < |s.queues| && 0 <= k < |s.queues[t]| ==> !s.queues[t][k].Flush?)
    && (forall i :: 0 <= i < |s.forwarders| && s.forwarders[i].Holding? ==> !s.forwarders[i].command.Flush?)
  }

  lemma IssuedGrows(s: System, e: Event)
    requires Shape(s) && Enabled(s, e)
    ensures s.issued <= Apply(s, e).issued && s.flushes <= Apply(s, e).flushes && s.dropped <= Apply(s, e).dropped
    ensures s.observed <= Apply(s, e).observed
    ensures e.CasMark? || Apply(s, e).enqueuedSeq == s.enqueuedSeq
    ensures s.enqueuedSeq <= Apply(s, e).enqueuedSeq
  {
    if ByProducer(e) {
      IssuedGrowsByProducer(s, e);
    } else {
      IssuedKeptInside(s, e);
    }
  }

  lemma IssuedGrowsByProducer(s: System, e: Event)
    requires Shape(s) && Enabled(s, e) && ByProducer(e)
    ensures s.issued <= Apply(s, e).issued && s.flushes <= Apply(s, e).flushes && s.dropped <= Apply(s, e).dropped
    ensures s.observed == Apply(s, e).observed
    ensures e.CasMark? || Apply(s, e).enqueuedSeq == s.enqueuedSeq
    ensures s.enqueuedSeq <= Apply(s, e).enqueuedSeq
  {
    if e.TryTier? {
      OfferKeepsIssued(s, e.p);
    } else if e.SendFlush? {
      SendFlushKeepsIssued(s, e.p);
    }
  }

  lemma OfferKeepsIssued(s: System, p: nat)
    requires Shape(s) && Enabled(s, TryTier(p))
    ensures var t := Apply(s, TryTier(p));
            && s.issued == t.issued && s.flushes == t.flushes && s.dropped <= t.dropped && s.observed == t.observed
            && t.enqueuedSeq == s.enqueuedSeq
  {
  }

  lemma SendFlushKeepsIssued(s: System, p: nat)
    requires Shape(s) && Enabled(s, SendFlush(p))
    ensures var t := Apply(s, SendFlush(p));
            && s.issued == t.issued && s.flushes <= t.flushes && s.dropped == t.dropped && s.observed == t.observed
            && t.enqueuedSeq == s.enqueuedSeq
  {
  }

  lemma IssuedKeptInside(s: System, e: Event)
    requires Shape(s) && Enabled(s, e) && !ByProducer(e)
    ensures s.issued == Apply(s, e).issued && s.flushes == Apply(s, e).flushes && s.dropped <= Apply(s, e).dropped
    ensures s.observed <= Apply(s, e).observed && Apply(s, e).enqueuedSeq == s.enqueuedSeq
    ensures Apply(s, e).producers == s.producers
  {
  }

  lemma FlushesUnstagedKept(s: System, e: Event)
    requires Shape(s) && Enabled(s, e) && FlushesUnstaged(s)
    ensures FlushesUnstaged(Apply(s, e))
  {
    if e.TryTier? {
      OfferUnstaged(s, e.p, s.producers[e.p].tier, s.producers[e.p].command);
    } else if e.Pass? {
      PassUnstaged(s, e.i);
    }
  }

  lemma PushUnstaged(s: System, t: nat, c: Command)
    requires t < |s.queues| && !c.Flush? && FlushesUnstaged(s)
    ensures FlushesUnstaged(Push(s, t, c))
  {
  }

  lemma DropUnstaged(s: System, c: Command)
    requires !c.Flush? && FlushesUnstaged(s)
    ensures FlushesUnstaged(Drop(s, c))
  {
  }

  /** Where the producer stands does not matter. */
  lemma SetProducerUnstaged(s: System, p: nat, pc: Producer)
    requires p < |s.producers| && FlushesUnstaged(s)
    ensures FlushesUnstaged(SetProducer(s, p, pc))
  {
  }

  lemma OfferUnstaged(s: System, p: nat, tier: nat, c: Command)
    requires |s.caps| == |s.queues| == |s.lines| == TIERS && |s.forwarders| == TIERS - 1 && p < |s.producers|
    requires tier < TIERS && !c.Flush? && FlushesUnstaged(s)
    ensures FlushesUnstaged(Offer(s, p, tier, c))
  {
    if Closed(s, tier) || (!HasRoom(s, tier) && tier + 1 == TIERS) {
      DropUnstaged(s, c);
      SetProducerUnstaged(Drop(s, c), p, Idle);
    } else if HasRoom(s, tier) {
      PushUnstaged(s, tier, c);
      SetProducerUnstaged(Push(s, tier, c), p, Accepted(c.seqNo));
    } else {
      SetProducerUnstaged(s, p, Offering(tier + 1, c));
    }
  }

  lemma PassUnstaged(s: System, i: nat)
    requires Shape(s) && Enabled(s, Pass(i)) && FlushesUnstaged(s)
    ensures FlushesUnstaged(Apply(s, Pass(i)))
  {
  }

  lemma TargetedByProducer(s: System, e: Event)
    requires Shape(s) && Enabled(s, e) && Targeted(s) && ByProducer(e) && !e.SendFlush?
    ensures Targeted(Apply(s, e))
  {
    IssuedGrowsByProducer(s, e);
    if e.TryTier? {
      OfferStartsNoFlush(s, e.p);
    } else {
      FlushersByProducer(s, e);
    }
  }

  lemma OfferStartsNoFlush(s: System, p: nat)
    requires Shape(s) && Enabled(s, TryTier(p))
    ensures var t := Apply(s, TryTier(p));
            && |t.producers| == |s.producers| && t.flushes == s.flushes
            && !t.producers[p].SendingFlush? && !t.producers[p].AwaitingFlush?
            && forall q :: 0 <= q < |s.producers| && q != p ==> t.producers[q] == s.producers[q]
  {
  }

  predicate Flushes(p: Producer) {
    p.SendingFlush? || p.AwaitingFlush?
  }

  /** A producer that flushes after the step flushed before it, or has just read the mark. */
  lemma FlushersByProducer(s: System, e: Event)
    requires Shape(s) && Enabled(s, e) && ByProducer(e) && !e.SendFlush? && !e.TryTier?
    ensures Apply(s, e).flushes == s.flushes
    ensures var t := Apply(s, e);
            forall q :: 0 <= q < |t.producers| && Flushes(t.producers[q]) ==>
              (q < |s.producers| && t.producers[q] == s.producers[q]) || t.producers[q] == SendingFlush(s.enqueuedSeq)
  {
  }

  lemma TargetedBySendFlush(s: System, p: nat)
    requires Shape(s) && Enabled(s, SendFlush(p)) && Targeted(s)
    ensures Targeted(Apply(s, SendFlush(p)))
  {
  }

  lemma TargetedKept(s: System, e: Event)
    requires Shape(s) && Enabled(s, e) && Targeted(s)
    ensures Targeted(Apply(s, e))
  {
    if e.SendFlush? {
      TargetedBySendFlush(s, e.p);
    } else if ByProducer(e) {
      TargetedByProducer(s, e);
    } else {
      IssuedKeptInside(s, e);
    }
  }

  /** The high-water mark and the marks about to be made, one step later. */
  lemma MarkKept(s: System, e: Event)
    requires Shape(s) && Enabled(s, e) && Cascade(s) && Numbered(s) && Marked(s)
    ensures var t := Apply(s, e);
            t.enqueuedSeq <= |t.issued| && (t.enqueuedSeq > 0 ==> Landed(t, t.issued[t.enqueuedSeq - 1]))
  {
    IssuedGrows(s, e);
    if e.CasMark? {
      CasTakesEither(s, e.p, e.spurious);
      LandedKept(s, e, s.issued[s.producers[e.p].seqNo - 1]);
    }
    if s.enqueuedSeq > 0 {
      LandedKept(s, e, s.issued[s.enqueuedSeq - 1]);
    }
  }

  lemma CasTakesEither(s: System, p: nat, spurious: bool)
    requires Shape(s) && Enabled(s, CasMark(p, spurious))
    ensures var t := Apply(s, CasMark(p, spurious));
            t.issued == s.issued && (t.enqueuedSeq == s.enqueuedSeq || t.enqueuedSeq == s.producers[p].seqNo)
  {
  }

  lemma MarkedKept(s: System, e: Event)
    requires Shape(s) && Enabled(s, e) && Cascade(s) && Numbered(s) && Conserved(s) && Marked(s)
    ensures Marked(Apply(s, e))
  {
    var t := Apply(s, e);
    IssuedGrows(s, e);
    ConservedKept(s, e);
    NumberedKept(s, e);
    MarkKept(s, e);
    forall p | 0 <= p < |t.producers| && (t.producers[p].Accepted? || t.producers[p].Marking?)
      ensures 1 <= t.producers[p].seqNo <= |t.issued| && Landed(t, t.issued[t.producers[p].seqNo - 1])
    {
      MarkedProducerKept(s, e, p);
    }
  }

  lemma OfferAccepts(s: System, p: nat, tier: nat, c: Command)
    requires |s.caps| == |s.queues| == |s.lines| == TIERS && |s.forwarders| == TIERS - 1 && tier < TIERS && !c.Flush?
    requires p < |s.producers| && s.producers[p] == Offering(tier, c)
    requires var t := Offer(s, p, tier, c); t.producers[p].Accepted? || t.producers[p].Marking?
    ensures var t := Offer(s, p, tier, c); t.producers[p] == Accepted(c.seqNo) && Queued(t)[c] > 0
  {
    var t := Offer(s, p, tier, c);
    assert t.queues[tier] == s.queues[tier] + [c];
    QueuedWitness(t, tier, c);
  }

  lemma MarkedProducerKept(s: System, e: Event, p: nat)
    requires Shape(s) && Enabled(s, e) && Cascade(s) && Numbered(s) && Marked(s)
    requires Conserved(Apply(s, e)) && Numbered(Apply(s, e)) && s.issued <= Apply(s, e).issued
    requires p < |Apply(s, e).producers| && (Apply(s, e).producers[p].Accepted? || Apply(s, e).producers[p].Marking?)
    ensures var t := Apply(s, e);
            1 <= t.producers[p].seqNo <= |t.issued| && Landed(t, t.issued[t.producers[p].seqNo - 1])
  {
    if e == TryTier(p) {
      var c := s.producers[p].command;
      OfferAccepts(s, p, s.producers[p].tier, c);
      InPipeIsLanded(Apply(s, e), c);
      CountByNumber(Apply(s, e).issued, 1, c);
    } else {
      MarkerUnmoved(s, e, p);
      LandedKept(s, e, s.issued[s.producers[p].seqNo - 1]);
    }
  }

  lemma MarkerUnmoved(s: System, e: Event, p: nat)
    requires Shape(s) && Enabled(s, e) && e != TryTier(p)
    requires p < |Apply(s, e).producers| && (Apply(s, e).producers[p].Accepted? || Apply(s, e).producers[p].Marking?)
    ensures p < |s.producers| && (s.producers[p].Accepted? || s.producers[p].Marking?)
    ensures Apply(s, e).producers[p].seqNo == s.producers[p].seqNo
  {
    if e.TryTier? {
      OtherProducersUnmoved(s, e.p, p);
    } else if ByProducer(e) {
      MarkerUnmovedByProducer(s, e, p);
    } else {
      IssuedKeptInside(s, e);
    }
  }

  lemma OtherProducersUnmoved(s: System, q: nat, p: nat)
    requires Shape(s) && Enabled(s, TryTier(q)) && p != q && p < |Apply(s, TryTier(q)).producers|
    ensures p < |s.producers| && Apply(s, TryTier(q)).producers[p] == s.producers[p]
  {
  }

  lemma MarkerUnmovedByProducer(s: System, e: Event, p: nat)
    requires Shape(s) && Enabled(s, e) && ByProducer(e) && !e.TryTier?
    requires p < |Apply(s, e).producers| && (Apply(s, e).producers[p].Accepted? || Apply(s, e).producers[p].Marking?)
    ensures p < |s.producers| && (s.producers[p].Accepted? || s.producers[p].Marking?)
    ensures Apply(s, e).producers[p].seqNo == s.producers[p].seqNo
  {
  }

  // ---- the worker ------------------------------------------------------------------------------

  ghost predicate WorkerHolds(s: System) {
    && Consistent(s.worker, s.observed)
    && (s.writesOk ==> Durable(s.worker, s.observed))
    && (!s.running ==> s.worker.buf == [])
  }

  ghost predicate Drained(s: System) {
    && (forall t :: 0 <= t < |s.queues| ==> s.queues[t] == [])
    && (forall i :: 0 <= i < |s.forwarders| ==> !s.forwarders[i].Holding?)
  }

  lemma DrainedPipeIsEmpty(s: System)
    requires Drained(s)
    ensures Queued(s) == multiset{} && InHand(s) == multiset{}
  {
    GatherEmpty(s.queues, QueueItems);
    GatherEmpty(s.forwarders, HandItems);
  }

  lemma {:induction false} TicketsAreFlushes(log: seq<Command>, t: Ticket)
    requires t in Tickets(log)
    ensures Flush(t) in log
  {
    var init, c := log[..|log| - 1], log[|log| - 1];
    assert log == init + [c];
    if c != Flush(t) {
      TicketsAreFlushes(init, t);
    }
  }

  /** A ticket the worker knows was sent, and waits for at most the high-water mark. */
  lemma KnownTicket(s: System, t: Ticket)
    requires Conserved(s) && Numbered(s) && Targeted(s) && Consistent(s.worker, s.observed)
    requires t in s.worker.pending || t in s.worker.answered
    ensures Flush(t) in s.observed && Flush(t) in s.flushes && t.target <= s.enqueuedSeq
  {
    assert t in multiset(s.worker.pending) + multiset(s.worker.answered);
    TicketsAreFlushes(s.observed, t);
    NoStrangers(s, Flush(t));
  }

  /** `enqueuedSeq` never runs ahead of what the worker has observed and what is still on its way. */
  lemma HighWaterMark(s: System)
    requires Conserved(s) && Numbered(s) && Marked(s) && Consistent(s.worker, s.observed)
    ensures s.enqueuedSeq <= s.worker.observedMax
         || exists c: Command :: !c.Flush? && c.seqNo == s.enqueuedSeq && Queued(s)[c] + InHand(s)[c] > 0
  {
    if s.enqueuedSeq > 0 {
      var c := s.issued[s.enqueuedSeq - 1];
      LandedIsInPipeOrObserved(s, c);
      MaxSeqBounds(s.observed);
    }
  }

  /** With nothing on its way to the worker, nobody waits. */
  lemma DrainedMeansAnswered(s: System)
    requires Conserved(s) && Numbered(s) && Marked(s) && Targeted(s) && Consistent(s.worker, s.observed)
    requires Drained(s)
    ensures s.worker.pending == []
  {
    if s.worker.pending != [] {
      var t := s.worker.pending[0];
      KnownTicket(s, t);
      HighWaterMark(s);
      DrainedPipeIsEmpty(s);
      assert false;
    }
  }

  /** The worker can see a closed primary channel only when all five queues and all four forwarder hands
      are empty. */
  lemma ClosedPrimaryMeansDrained(s: System)
    requires Shape(s) && Cascade(s) && s.queues[0] == [] && SendersGone(s, 0)
    ensures Drained(s)
    ensures forall i :: 0 <= i < TIERS - 1 ==> s.forwarders[i].Stopped?
    ensures Offered(s) == multiset{}
  {
    assert s.forwarders[0].Stopped? && s.forwarders[1].Stopped? && s.forwarders[2].Stopped? && s.forwarders[3].Stopped?;
    assert s.queues[1] == [] && s.queues[2] == [] && s.queues[3] == [] && s.queues[4] == [];
    GatherEmpty(s.producers, ProducerItems);
  }

  lemma ReceiveKeepsWorker(s: System, flushOk: bool, writeOk: bool)
    requires Shape(s) && Enabled(s, Receive(flushOk, writeOk))
    requires Conserved(s) && Numbered(s) && WorkerHolds(s)
    ensures WorkerHolds(Apply(s, Receive(flushOk, writeOk)))
    ensures s.worker.answered <= Apply(s, Receive(flushOk, writeOk)).worker.answered
    ensures s.worker.latestSnapshot <= Apply(s, Receive(flushOk, writeOk)).worker.latestSnapshot
  {
    var c := s.queues[0][0];
    QueuedWitness(s, 0, c);
    NoStrangers(s, c);
    HandleConsistent(s.worker, s.observed, c, flushOk, writeOk);
    if s.writesOk && flushOk && writeOk {
      HandleDurable(s.worker, s.observed, c);
    }
  }

  lemma ExitKeepsWorker(s: System, flushOk: bool)
    requires Shape(s) && Enabled(s, Exit(flushOk)) && Cascade(s)
    requires Conserved(s) && Numbered(s) && Marked(s) && Targeted(s) && WorkerHolds(s)
    ensures WorkerHolds(Apply(s, Exit(flushOk)))
    ensures s.worker.pending == [] && Apply(s, Exit(flushOk)).worker.answered == s.worker.answered
    ensures Apply(s, Exit(flushOk)).worker.latestSnapshot == s.worker.latestSnapshot
  {
    ClosedPrimaryMeansDrained(s);
    DrainedMeansAnswered(s);
    FlushBufferKeeps(s.worker, flushOk);
  }

  // ---- every reachable state ---------------------------------------------------------------------

  ghost predicate Inv(s: System) {
    Shape(s) && Cascade(s) && Orderly(s) && Fifo(s) && Conserved(s) && Numbered(s) && Marked(s) && Targeted(s)
    && FlushesUnstaged(s) && WorkerHolds(s)
  }

  lemma InitMarked(caps: seq<nat>)
    ensures Marked(Init(caps)) && Targeted(Init(caps))
  {
  }

  lemma InitUnstaged(caps: seq<nat>)
    ensures FlushesUnstaged(Init(caps)) && WorkerHolds(Init(caps))
  {
    assert forall t :: 0 <= t < TIERS ==> Init(caps).queues[t] == [];
  }

  lemma InvInit(caps: seq<nat>)
    requires |caps| == TIERS && forall i :: 0 <= i < TIERS ==> caps[i] > 0
    ensures Inv(Init(caps))
  {
    InitOpen(caps);
    InitConserved(caps);
    InitOrderly(caps);
    InitMarked(caps);
    InitUnstaged(caps);
  }

  lemma WorkerKept(s: System, e: Event)
    requires Shape(s) && Enabled(s, e) && Cascade(s)
    requires Conserved(s) && Numbered(s) && Marked(s) && Targeted(s) && WorkerHolds(s)
    ensures WorkerHolds(Apply(s, e))
    ensures s.worker.answered <= Apply(s, e).worker.answered
    ensures s.worker.latestSnapshot <= Apply(s, e).worker.latestSnapshot
  {
    if e.Receive? {
      ReceiveKeepsWorker(s, e.flushOk, e.writeOk);
    } else if e.TimerTick? {
      TickKeepsWorker(s, e.flushOk);
    } else if e.Exit? {
      ExitKeepsWorker(s, e.flushOk);
    } else {
      OthersKeepWorker(s, e);
    }
  }

  lemma OthersKeepWorker(s: System, e: Event)
    requires Shape(s) && Enabled(s, e) && !ByWorker(e) && WorkerHolds(s)
    ensures WorkerHolds(Apply(s, e)) && Apply(s, e).worker == s.worker
  {
    OthersLeaveWorker(s, e);
  }

  lemma TickKeepsWorker(s: System, flushOk: bool)
    requires Shape(s) && s.running && WorkerHolds(s)
    ensures WorkerHolds(Apply(s, TimerTick(flushOk)))
    ensures Apply(s, TimerTick(flushOk)).worker.answered == s.worker.answered
    ensures Apply(s, TimerTick(flushOk)).worker.latestSnapshot == s.worker.latestSnapshot
  {
    TickKeeps(s.worker, s.observed, flushOk);
  }

  lemma OthersLeaveWorker(s: System, e: Event)
    requires Shape(s) && Enabled(s, e) && !ByWorker(e)
    ensures var t := Apply(s, e);
            t.worker == s.worker && t.observed == s.observed && t.writesOk == s.writesOk && t.running == s.running
  {
    if ByProducer(e) {
      ProducersLeaveWorker(s, e);
    }
  }

  lemma ProducersLeaveWorker(s: System, e: Event)
    requires Shape(s) && Enabled(s, e) && ByProducer(e)
    ensures var t := Apply(s, e);
            t.worker == s.worker && t.observed == s.observed && t.writesOk == s.writesOk && t.running == s.running
  {
  }

  lemma InvKept(s: System, e: Event)
    requires Inv(s) && Enabled(s, e)
    ensures Inv(Apply(s, e))
    ensures s.worker.answered <= Apply(s, e).worker.answered
    ensures s.worker.latestSnapshot <= Apply(s, e).worker.latestSnapshot
  {
    CascadeKept(s, e);
    OrderlyKept(s, e);
    FifoKept(s, e);
    ConservedKept(s, e);
    NumberedKept(s, e);
    MarkedKept(s, e);
    TargetedKept(s, e);
    FlushesUnstagedKept(s, e);
    WorkerKept(s, e);
  }

  /** The invariant over whole runs; answers are never taken back and the snapshot never rolls back. */
  lemma {:induction false} InvRun(s: System, es: seq<Event>)
    requires Inv(s) && Runnable(s, es)
    ensures Inv(Run(s, es))
    ensures s.worker.answered <= Run(s, es).worker.answered
    ensures s.worker.latestSnapshot <= Run(s, es).worker.latestSnapshot
    ensures s.issued <= Run(s, es).issued && s.observed <= Run(s, es).observed
    decreases |es|
  {
    if es != [] {
      InvKept(s, es[0]);
      IssuedGrows(s, es[0]);
      InvRun(Apply(s, es[0]), es[1..]);
    }
  }
}
