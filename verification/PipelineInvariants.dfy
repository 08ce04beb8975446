/** What holds in every reachable state of the writer pipeline. */
module PipelineInvariants {
  import opened Multisets
  import opened WriterWorker
  import opened WriterPipeline

  // ---- where commands are ---------------------------------------------------------------------

  function QueueItems(q: seq<Command>): multiset<Command> { multiset(q) }

  function HandItems(f: Forwarder): multiset<Command> {
    if f.Holding? then multiset{f.command} else multiset{}
  }

  function ProducerItems(p: Producer): multiset<Command> {
    if p.Offering? then multiset{p.command} else multiset{}
  }

  function Queued(s: System): multiset<Command> { Gather(s.queues, QueueItems) }
  function InHand(s: System): multiset<Command> { Gather(s.forwarders, HandItems) }
  function Offered(s: System): multiset<Command> { Gather(s.producers, ProducerItems) }

  /** How many copies of `c` there are: dropped, observed, queued, in a forwarder's hand, or still with
      the producer that offers it. */
  function Copies(s: System, c: Command): nat {
    multiset(s.dropped)[c] + multiset(s.observed)[c] + Queued(s)[c] + InHand(s)[c] + Offered(s)[c]
  }

  /** Every command issued, and every flush sent, is in exactly one place; nothing else is anywhere. */
  ghost predicate Conserved(s: System) {
    forall c {:trigger Copies(s, c)} :: Copies(s, c) == multiset(s.issued)[c] + multiset(s.flushes)[c]
  }

  ghost predicate Numbered(s: System) {
    && |s.issued| == s.nextSeq
    && (forall k :: 0 <= k < |s.issued| ==> !s.issued[k].Flush? && s.issued[k].seqNo == k + 1)
    && (forall k :: 0 <= k < |s.flushes| ==> s.flushes[k].Flush? && s.flushes[k].ticket.id == k)
  }

  /** A stopped forwarder or worker has nothing left to receive and nobody left to receive from. */
  ghost predicate Cascade(s: System)
    requires Shape(s)
  {
    && (forall i :: 0 <= i < TIERS - 1 && s.forwarders[i].Stopped? ==> s.queues[i + 1] == [] && SendersGone(s, i + 1))
    && (!s.running ==> s.queues[0] == [] && SendersGone(s, 0))
  }

  /** The primary channel is first in, first out. */
  ghost predicate Fifo(s: System)
    requires Shape(s)
  {
    s.primaryIn == s.observed + s.queues[0]
  }

  lemma NothingAnywhere(s: System, c: Command)
    requires forall t :: 0 <= t < |s.queues| ==> s.queues[t] == []
    requires forall i :: 0 <= i < |s.forwarders| ==> !s.forwarders[i].Holding?
    requires forall p :: 0 <= p < |s.producers| ==> !s.producers[p].Offering?
    requires s.dropped == [] && s.observed == []
    ensures Copies(s, c) == 0
  {
    GatherEmpty(s.queues, QueueItems);
    GatherEmpty(s.forwarders, HandItems);
    GatherEmpty(s.producers, ProducerItems);
  }

  lemma InitConserved(caps: seq<nat>)
    ensures Conserved(Init(caps))
  {
    forall c ensures Copies(Init(caps), c) == 0 {
      NothingAnywhere(Init(caps), c);
    }
  }

  lemma InitOpen(caps: seq<nat>)
    requires |caps| == TIERS && forall i :: 0 <= i < TIERS ==> caps[i] > 0
    ensures Shape(Init(caps)) && Cascade(Init(caps)) && Fifo(Init(caps)) && Numbered(Init(caps))
  {
    assert forall i :: 0 <= i < TIERS ==> Init(caps).queues[i] == [];
  }

  lemma NobodyMeetsAClosedChannel(s: System)
    requires Shape(s) && Cascade(s)
    ensures forall p, t :: 0 <= p < |s.producers| && !s.producers[p].Gone? && 0 <= t < TIERS ==> !Closed(s, t)
    ensures forall i :: 0 <= i < TIERS - 1 && !s.forwarders[i].Stopped? ==> !Closed(s, i)
  {
  }

  lemma ProducersKeepCascade(s: System, e: Event)
    requires Shape(s) && Enabled(s, e) && Cascade(s) && ByProducer(e)
    ensures Shape(Apply(s, e)) && Cascade(Apply(s, e))
  {
    ApplyShape(s, e);
    NobodyMeetsAClosedChannel(s);
  }

  lemma ForwardersKeepCascade(s: System, e: Event)
    requires Shape(s) && Enabled(s, e) && Cascade(s) && !ByProducer(e) && !ByWorker(e)
    ensures Shape(Apply(s, e)) && Cascade(Apply(s, e))
  {
    ApplyShape(s, e);
    NobodyMeetsAClosedChannel(s);
  }

  lemma WorkerKeepsCascade(s: System, e: Event)
    requires Shape(s) && Enabled(s, e) && Cascade(s) && ByWorker(e)
    ensures Shape(Apply(s, e)) && Cascade(Apply(s, e))
  {
    ApplyShape(s, e);
  }

  lemma CascadeKept(s: System, e: Event)
    requires Shape(s) && Enabled(s, e) && Cascade(s)
    ensures Shape(Apply(s, e)) && Cascade(Apply(s, e))
  {
    if ByProducer(e) {
      ProducersKeepCascade(s, e);
    } else if ByWorker(e) {
      WorkerKeepsCascade(s, e);
    } else {
      ForwardersKeepCascade(s, e);
    }
  }

  lemma FifoKept(s: System, e: Event)
    requires Shape(s) && Enabled(s, e) && Fifo(s)
    ensures Shape(Apply(s, e)) && Fifo(Apply(s, e))
  {
    ApplyShape(s, e);
    if e.Receive? {
      assert s.observed + s.queues[0] == (s.observed + [s.queues[0][0]]) + s.queues[0][1..];
    } else if e.TryTier? || e.SendFlush? || e.Pass? {
      assert forall c: Command :: s.observed + (s.queues[0] + [c]) == (s.observed + s.queues[0]) + [c];
    }
  }

  // ---- conservation ---------------------------------------------------------------------------

  lemma ProducerSet(s: System, p: nat, pc: Producer, c: Command)
    requires p < |s.producers|
    ensures Offered(SetProducer(s, p, pc))[c] + ProducerItems(s.producers[p])[c] == Offered(s)[c] + ProducerItems(pc)[c]
  {
    GatherUpdate(s.producers, ProducerItems, p, pc);
    var now, was := Offered(SetProducer(s, p, pc)), Offered(s);
    assert (now + ProducerItems(s.producers[p]))[c] == (was + ProducerItems(pc))[c];
  }

  lemma QueueSet(s: System, t: nat, q: seq<Command>, c: Command)
    requires t < |s.queues|
    ensures Gather(s.queues[t := q], QueueItems)[c] + multiset(s.queues[t])[c] == Queued(s)[c] + multiset(q)[c]
  {
    GatherUpdate(s.queues, QueueItems, t, q);
    var now := Gather(s.queues[t := q], QueueItems);
    assert (now + QueueItems(s.queues[t]))[c] == (Queued(s) + QueueItems(q))[c];
  }

  lemma HandSet(s: System, i: nat, f: Forwarder, c: Command)
    requires i < |s.forwarders|
    ensures Gather(s.forwarders[i := f], HandItems)[c] + HandItems(s.forwarders[i])[c] == InHand(s)[c] + HandItems(f)[c]
  {
    GatherUpdate(s.forwarders, HandItems, i, f);
    var now := Gather(s.forwarders[i := f], HandItems);
    assert (now + HandItems(s.forwarders[i]))[c] == (InHand(s) + HandItems(f))[c];
  }

  function One(d: Command, c: Command): nat {
    if d == c then 1 else 0
  }

  lemma CountAppend(xs: seq<Command>, d: Command, c: Command)
    ensures multiset(xs + [d])[c] == multiset(xs)[c] + One(d, c)
  {
    assert multiset(xs + [d]) == multiset(xs) + multiset{d};
  }

  lemma CountTail(xs: seq<Command>, c: Command)
    requires xs != []
    ensures multiset(xs)[c] == One(xs[0], c) + multiset(xs[1..])[c]
  {
    assert xs == [xs[0]] + xs[1..];
    assert multiset(xs) == multiset{xs[0]} + multiset(xs[1..]);
  }

  lemma PushCount(s: System, t: nat, d: Command, c: Command)
    requires t < |s.queues|
    ensures Queued(Push(s, t, d))[c] == Queued(s)[c] + One(d, c)
  {
    QueueSet(s, t, s.queues[t] + [d], c);
    CountAppend(s.queues[t], d, c);
  }

  lemma PopCount(s: System, t: nat, c: Command)
    requires t < |s.queues| && s.queues[t] != []
    ensures Gather(s.queues[t := s.queues[t][1..]], QueueItems)[c] + One(s.queues[t][0], c) == Queued(s)[c]
  {
    QueueSet(s, t, s.queues[t][1..], c);
    CountTail(s.queues[t], c);
  }

  /** What one event adds to the supply of `c`. */
  ghost function Created(s: System, e: Event, c: Command): nat
    requires Shape(s) && Enabled(s, e)
  {
    if e.BeginSend? then One(Stamp(e.payload, s.nextSeq + 1), c)
    else if e.SendFlush? && !Closed(s, 0) then One(Flush(Ticket(s.producers[e.p].target, |s.flushes|)), c)
    else 0
  }

  /** Moving a producer on changes the copies by what it holds. */
  lemma SetProducerCopies(s: System, p: nat, pc: Producer, c: Command)
    requires p < |s.producers|
    ensures Copies(SetProducer(s, p, pc), c) + ProducerItems(s.producers[p])[c] == Copies(s, c) + ProducerItems(pc)[c]
  {
    ProducerSet(s, p, pc, c);
  }

  lemma PushCopies(s: System, t: nat, d: Command, c: Command)
    requires t < |s.queues|
    ensures Copies(Push(s, t, d), c) == Copies(s, c) + One(d, c)
  {
    PushCount(s, t, d, c);
  }

  lemma DropCopies(s: System, d: Command, c: Command)
    ensures Copies(Drop(s, d), c) == Copies(s, c) + One(d, c)
  {
    CountAppend(s.dropped, d, c);
  }

  lemma SetHandCopies(s: System, i: nat, f: Forwarder, c: Command)
    requires i < |s.forwarders|
    ensures Copies(s.(forwarders := s.forwarders[i := f]), c) + HandItems(s.forwarders[i])[c]
         == Copies(s, c) + HandItems(f)[c]
  {
    HandSet(s, i, f, c);
  }

  lemma OfferCopies(s: System, p: nat, tier: nat, d: Command, c: Command)
    requires |s.caps| == |s.queues| == |s.lines| == TIERS && |s.forwarders| == TIERS - 1 && tier < TIERS && !d.Flush?
    requires p < |s.producers| && s.producers[p] == Offering(tier, d)
    ensures Copies(Offer(s, p, tier, d), c) == Copies(s, c)
  {
    if Closed(s, tier) || (!HasRoom(s, tier) && tier + 1 == TIERS) {
      OfferDropCopies(s, p, tier, d, c);
    } else if HasRoom(s, tier) {
      OfferPushCopies(s, p, tier, d, c);
    } else {
      SetProducerCopies(s, p, Offering(tier + 1, d), c);
    }
  }

  lemma OfferDropCopies(s: System, p: nat, tier: nat, d: Command, c: Command)
    requires p < |s.producers| && s.producers[p] == Offering(tier, d)
    ensures Copies(SetProducer(Drop(s, d), p, Idle), c) == Copies(s, c)
  {
    DropCopies(s, d, c);
    SetProducerCopies(Drop(s, d), p, Idle, c);
  }

  lemma OfferPushCopies(s: System, p: nat, tier: nat, d: Command, c: Command)
    requires p < |s.producers| && s.producers[p] == Offering(tier, d) && tier < |s.queues| && !d.Flush?
    ensures Copies(SetProducer(Push(s, tier, d), p, Accepted(d.seqNo)), c) == Copies(s, c)
  {
    PushCopies(s, tier, d, c);
    SetProducerCopies(Push(s, tier, d), p, Accepted(d.seqNo), c);
  }

  lemma MarkCopies(s: System, p: nat, n: nat, seen: nat, spurious: bool, c: Command)
    requires p < |s.producers| && s.producers[p] == Marking(n, seen)
    ensures Copies(Mark(s, p, n, seen, spurious), c) == Copies(s, c)
  {
    SetProducerCopies(s, p, Idle, c);
    SetProducerCopies(s.(enqueuedSeq := n), p, Idle, c);
    SetProducerCopies(s, p, Marking(n, s.enqueuedSeq), c);
  }

  lemma BeginSendCopies(s: System, p: nat, d: Command, c: Command)
    requires p < |s.producers| && s.producers[p].Idle?
    ensures Copies(SetProducer(s.(nextSeq := s.nextSeq + 1, issued := s.issued + [d]), p, Offering(0, d)), c)
         == Copies(s, c) + One(d, c)
  {
    SetProducerCopies(s.(nextSeq := s.nextSeq + 1, issued := s.issued + [d]), p, Offering(0, d), c);
  }

  /** The lines hold no commands. */
  lemma LinesHoldNothing(s: System, lines: seq<seq<Waiter>>, c: Command)
    ensures Copies(s.(lines := lines), c) == Copies(s, c)
  {
  }

  lemma SendFlushCopies(s: System, p: nat, c: Command)
    requires Shape(s) && Enabled(s, SendFlush(p))
    ensures Copies(Apply(s, SendFlush(p)), c) == Copies(s, c) + Created(s, SendFlush(p), c)
  {
    EnterFlushCopies(s, p, s.producers[p].target, c);
    LinesHoldNothing(EnterFlush(s, p, s.producers[p].target), Apply(s, SendFlush(p)).lines, c);
  }

  lemma EnterFlushCopies(s: System, p: nat, target: nat, c: Command)
    requires |s.queues| == TIERS && |s.forwarders| == TIERS - 1 && p < |s.producers| && s.producers[p].SendingFlush?
    ensures Copies(EnterFlush(s, p, target), c)
         == Copies(s, c) + if Closed(s, 0) then 0 else One(Flush(Ticket(target, |s.flushes|)), c)
  {
    if Closed(s, 0) {
      SetProducerCopies(s, p, Idle, c);
    } else {
      var ticket := Ticket(target, |s.flushes|);
      PushCopies(s, 0, Flush(ticket), c);
      var sent := Push(s, 0, Flush(ticket)).(flushes := s.flushes + [Flush(ticket)]);
      SetProducerCopies(sent, p, AwaitingFlush(ticket), c);
    }
  }

  lemma TakeCopies(s: System, i: nat, c: Command)
    requires Shape(s) && Enabled(s, Take(i))
    ensures Copies(Apply(s, Take(i)), c) == Copies(s, c)
  {
    PopCount(s, i + 1, c);
    var popped := s.(queues := s.queues[i + 1 := s.queues[i + 1][1..]]);
    SetHandCopies(popped, i, Holding(s.queues[i + 1][0]), c);
  }

  lemma PassCopies(s: System, i: nat, c: Command)
    requires Shape(s) && Enabled(s, Pass(i))
    ensures Copies(Apply(s, Pass(i)), c) == Copies(s, c)
  {
    ForwardCopies(s, i, s.forwarders[i].command, c);
    LinesHoldNothing(Forward(s, i, s.forwarders[i].command), Apply(s, Pass(i)).lines, c);
  }

  lemma ForwardCopies(s: System, i: nat, d: Command, c: Command)
    requires |s.queues| == TIERS && |s.forwarders| == TIERS - 1 && i < TIERS - 1 && s.forwarders[i] == Holding(d)
    ensures Copies(Forward(s, i, d), c) == Copies(s, c)
  {
    if Closed(s, i) {
      PassDropCopies(s, i, d, c);
    } else {
      PassPushCopies(s, i, d, c);
    }
  }

  lemma PassDropCopies(s: System, i: nat, d: Command, c: Command)
    requires i < |s.forwarders| && s.forwarders[i] == Holding(d)
    ensures Copies(Drop(s, d).(forwarders := s.forwarders[i := Stopped]), c) == Copies(s, c)
  {
    DropCopies(s, d, c);
    SetHandCopies(Drop(s, d), i, Stopped, c);
  }

  lemma PassPushCopies(s: System, i: nat, d: Command, c: Command)
    requires i < |s.forwarders| && i < |s.queues| && s.forwarders[i] == Holding(d)
    ensures Copies(Push(s, i, d).(forwarders := s.forwarders[i := Ready]), c) == Copies(s, c)
  {
    PushCopies(s, i, d, c);
    SetHandCopies(Push(s, i, d), i, Ready, c);
  }

  lemma ReceiveCopies(s: System, flushOk: bool, writeOk: bool, c: Command)
    requires Shape(s) && Enabled(s, Receive(flushOk, writeOk))
    ensures Copies(Apply(s, Receive(flushOk, writeOk)), c) == Copies(s, c)
  {
    PopCount(s, 0, c);
    CountAppend(s.observed, s.queues[0][0], c);
  }

  lemma BeginSendStepCopies(s: System, p: nat, payload: Payload, c: Command)
    requires Shape(s) && Enabled(s, BeginSend(p, payload))
    ensures Copies(Apply(s, BeginSend(p, payload)), c) == Copies(s, c) + Created(s, BeginSend(p, payload), c)
  {
    var d := Stamp(payload, s.nextSeq + 1);
    assert Apply(s, BeginSend(p, payload))
        == SetProducer(s.(nextSeq := s.nextSeq + 1, issued := s.issued + [d]), p, Offering(0, d));
    BeginSendCopies(s, p, d, c);
  }

  lemma TryTierCopies(s: System, p: nat, c: Command)
    requires Shape(s) && Enabled(s, TryTier(p))
    ensures Copies(Apply(s, TryTier(p)), c) == Copies(s, c)
  {
    OfferCopies(s, p, s.producers[p].tier, s.producers[p].command, c);
  }

  lemma CasMarkCopies(s: System, p: nat, spurious: bool, c: Command)
    requires Shape(s) && Enabled(s, CasMark(p, spurious))
    ensures Copies(Apply(s, CasMark(p, spurious)), c) == Copies(s, c)
  {
    MarkCopies(s, p, s.producers[p].seqNo, s.producers[p].seen, spurious, c);
  }

  /** Events that only move one producer, or add one, and hold nothing before or after. */
  lemma QuietCopies(s: System, e: Event, c: Command)
    requires Shape(s) && Enabled(s, e)
    requires e.DropHandle? || e.LoadMark? || e.BeginFlush? || e.FlushReturns?
    ensures Copies(Apply(s, e), c) == Copies(s, c)
  {
    SetProducerCopies(s, e.p, Apply(s, e).producers[e.p], c);
  }

  lemma CancelFlushCopies(s: System, p: nat, c: Command)
    requires Shape(s) && Enabled(s, CancelFlush(p))
    ensures Copies(Apply(s, CancelFlush(p)), c) == Copies(s, c)
  {
    SetProducerCopies(s, p, Idle, c);
    LinesHoldNothing(SetProducer(s, p, Idle), Apply(s, CancelFlush(p)).lines, c);
  }

  lemma CloneCopies(s: System, p: nat, c: Command)
    requires Shape(s) && Enabled(s, CloneHandle(p))
    ensures Copies(Apply(s, CloneHandle(p)), c) == Copies(s, c)
  {
    GatherAppend(s.producers, ProducerItems, Idle);
  }

  lemma StopCopies(s: System, i: nat, c: Command)
    requires Shape(s) && Enabled(s, Stop(i))
    ensures Copies(Apply(s, Stop(i)), c) == Copies(s, c)
  {
    SetHandCopies(s, i, Stopped, c);
  }

  lemma ProducerStepCopies(s: System, e: Event, c: Command)
    requires Shape(s) && Enabled(s, e) && ByProducer(e) && !e.BeginSend? && !e.SendFlush?
    ensures Copies(Apply(s, e), c) == Copies(s, c)
  {
    if e.CloneHandle? {
      CloneCopies(s, e.p, c);
    } else if e.TryTier? {
      TryTierCopies(s, e.p, c);
    } else if e.CasMark? {
      CasMarkCopies(s, e.p, e.spurious, c);
    } else if e.WaitCall? {
      LinesHoldNothing(s, Apply(s, e).lines, c);
    } else if e.CancelFlush? {
      CancelFlushCopies(s, e.p, c);
    } else {
      QuietCopies(s, e, c);
    }
  }

  lemma InnerStepCopies(s: System, e: Event, c: Command)
    requires Shape(s) && Enabled(s, e) && !ByProducer(e)
    ensures Copies(Apply(s, e), c) == Copies(s, c)
  {
    if e.Take? {
      TakeCopies(s, e.i, c);
    } else if e.Pass? {
      PassCopies(s, e.i, c);
    } else if e.WaitForward? {
      LinesHoldNothing(s, Apply(s, e).lines, c);
    } else if e.Stop? {
      StopCopies(s, e.i, c);
    } else if e.Receive? {
      ReceiveCopies(s, e.flushOk, e.writeOk, c);
    }
  }

  lemma CopiesStep(s: System, e: Event, c: Command)
    requires Shape(s) && Enabled(s, e)
    ensures Copies(Apply(s, e), c) == Copies(s, c) + Created(s, e, c)
  {
    if e.BeginSend? {
      BeginSendStepCopies(s, e.p, e.payload, c);
    } else if e.SendFlush? {
      SendFlushCopies(s, e.p, c);
    } else if ByProducer(e) {
      ProducerStepCopies(s, e, c);
    } else {
      InnerStepCopies(s, e, c);
    }
  }

  lemma BeginSendSupply(s: System, p: nat, payload: Payload, c: Command)
    requires Shape(s) && Enabled(s, BeginSend(p, payload))
    ensures var t := Apply(s, BeginSend(p, payload));
            t.flushes == s.flushes
            && multiset(t.issued)[c] == multiset(s.issued)[c] + Created(s, BeginSend(p, payload), c)
  {
    CountAppend(s.issued, Stamp(payload, s.nextSeq + 1), c);
  }

  lemma SendFlushSupply(s: System, p: nat, c: Command)
    requires Shape(s) && Enabled(s, SendFlush(p))
    ensures var t := Apply(s, SendFlush(p));
            t.issued == s.issued && multiset(t.flushes)[c] == multiset(s.flushes)[c] + Created(s, SendFlush(p), c)
  {
    CountAppend(s.flushes, Flush(Ticket(s.producers[p].target, |s.flushes|)), c);
  }

  lemma OthersSupplyNothing(s: System, e: Event)
    requires Shape(s) && Enabled(s, e) && !e.BeginSend? && !e.SendFlush?
    ensures Apply(s, e).issued == s.issued && Apply(s, e).flushes == s.flushes
  {
    if ByProducer(e) {
      ProducersSupplyNothing(s, e);
    }
  }

  lemma ProducersSupplyNothing(s: System, e: Event)
    requires Shape(s) && Enabled(s, e) && ByProducer(e) && !e.BeginSend? && !e.SendFlush?
    ensures Apply(s, e).issued == s.issued && Apply(s, e).flushes == s.flushes
  {
  }

  lemma NumberedByBeginSend(s: System, p: nat, payload: Payload)
    requires Shape(s) && Enabled(s, BeginSend(p, payload)) && Numbered(s)
    ensures Numbered(Apply(s, BeginSend(p, payload)))
  {
  }

  lemma NumberedBySendFlush(s: System, p: nat)
    requires Shape(s) && Enabled(s, SendFlush(p)) && Numbered(s)
    ensures Numbered(Apply(s, SendFlush(p)))
  {
  }

  lemma OthersKeepCounter(s: System, e: Event)
    requires Shape(s) && Enabled(s, e) && !e.BeginSend?
    ensures Apply(s, e).nextSeq == s.nextSeq
  {
    if ByProducer(e) {
      ProducersKeepCounter(s, e);
    }
  }

  lemma ProducersKeepCounter(s: System, e: Event)
    requires Shape(s) && Enabled(s, e) && ByProducer(e) && !e.BeginSend?
    ensures Apply(s, e).nextSeq == s.nextSeq
  {
  }

  lemma NumberedKept(s: System, e: Event)
    requires Shape(s) && Enabled(s, e) && Numbered(s)
    ensures Numbered(Apply(s, e))
  {
    if e.BeginSend? {
      NumberedByBeginSend(s, e.p, e.payload);
    } else if e.SendFlush? {
      NumberedBySendFlush(s, e.p);
    } else {
      OthersSupplyNothing(s, e);
      OthersKeepCounter(s, e);
    }
  }

  lemma SupplyStep(s: System, e: Event, c: Command)
    requires Shape(s) && Enabled(s, e)
    ensures multiset(Apply(s, e).issued)[c] + multiset(Apply(s, e).flushes)[c]
         == multiset(s.issued)[c] + multiset(s.flushes)[c] + Created(s, e, c)
  {
    if e.BeginSend? {
      BeginSendSupply(s, e.p, e.payload, c);
    } else if e.SendFlush? {
      SendFlushSupply(s, e.p, c);
    } else {
      OthersSupplyNothing(s, e);
    }
  }

  /** No step loses or duplicates a command. */
  lemma ConservedKept(s: System, e: Event)
    requires Shape(s) && Enabled(s, e) && Conserved(s)
    ensures Conserved(Apply(s, e))
  {
    forall c ensures Copies(Apply(s, e), c) == multiset(Apply(s, e).issued)[c] + multiset(Apply(s, e).flushes)[c] {
      CopiesStep(s, e, c);
      SupplyStep(s, e, c);
      assert Copies(s, c) == multiset(s.issued)[c] + multiset(s.flushes)[c];
    }
  }
}
