/** In what order a send tries the channels, told by where its command ends up. */
module EnqueueOrder {
  import opened WriterWorker
  import opened WriterPipeline
  import opened PipelineInvariants
  import opened PipelineTheorems
  import opened PayloadPromises

  /** The first channel from `tier` on that has room, or `TIERS` if none has. */
  ghost function FirstWithRoom(s: System, tier: nat): (t: nat)
    requires Shape(s) && tier <= TIERS
    ensures tier <= t <= TIERS
    ensures t < TIERS ==> |s.queues[t]| + |s.lines[t]| < s.caps[t]
    ensures forall k :: tier <= k < t ==> |s.queues[k]| + |s.lines[k]| >= s.caps[k]
    decreases TIERS - tier
  {
    if tier == TIERS || HasRoom(s, tier) then tier else FirstWithRoom(s, tier + 1)
  }

  /** `c` in the first channel with room, or dropped and counted when all are full. */
  ghost function Placed(s: System, p: nat, c: Command, t: nat): System
    requires Shape(s) && p < |s.producers| && !c.Flush?
  {
    if t < TIERS then SetProducer(Push(s, t, c), p, Accepted(c.seqNo)) else SetProducer(Drop(s, c), p, Idle)
  }

  lemma TryOne(s: System, p: nat, tier: nat, c: Command)
    requires Inv(s) && p < |s.producers| && s.producers[p] == Offering(tier, c)
    ensures Enabled(s, TryTier(p)) && tier < TIERS && !c.Flush?
    ensures var t := Apply(s, TryTier(p));
            t == if HasRoom(s, tier) then Placed(s, p, c, tier)
                 else if tier + 1 < TIERS then SetProducer(s, p, Offering(tier + 1, c))
                 else Placed(s, p, c, TIERS)
  {
    NobodyMeetsAClosedChannel(s);
    assert !s.producers[p].Gone? && !Closed(s, tier);
  }

  /** Being refused by one channel changes neither which channel is next nor where the command ends up. */
  lemma SameRoom(s: System, p: nat, tier: nat, c: Command)
    requires Shape(s) && p < |s.producers| && tier < TIERS && !c.Flush? && Shape(SetProducer(s, p, Offering(tier, c)))
    ensures var t := SetProducer(s, p, Offering(tier, c));
            Placed(t, p, c, FirstWithRoom(t, tier)) == Placed(s, p, c, FirstWithRoom(s, tier))
  {
    var t := SetProducer(s, p, Offering(tier, c));
    assert forall k :: 0 <= k < TIERS ==> HasRoom(t, k) == HasRoom(s, k);
    var k := FirstWithRoom(t, tier);
    assert k == FirstWithRoom(s, tier);
    var last := if k < TIERS then Accepted(c.seqNo) else Idle;
    assert t.producers[p := last] == s.producers[p := last];
  }

  /** While nobody else moves, a send that is at `tier` puts its command into the first channel from there on
      that has room; it drops and counts it only if all of them are full. */
  lemma {:induction false} TryInOrder(s: System, p: nat, tier: nat, c: Command) returns (es: seq<Event>)
    requires Inv(s) && p < |s.producers| && s.producers[p] == Offering(tier, c)
    ensures tier < TIERS && !c.Flush? && Runnable(s, es) && forall e :: e in es ==> e == TryTier(p)
    ensures Run(s, es) == Placed(s, p, c, FirstWithRoom(s, tier))
    decreases TIERS - tier, 1
  {
    TryOne(s, p, tier, c);
    if HasRoom(s, tier) || tier + 1 == TIERS {
      ApplyShape(s, TryTier(p));
      RunFirst(s, TryTier(p), []);
      es := [TryTier(p)] + [];
    } else {
      es := TryNext(s, p, tier, c);
    }
  }

  lemma Refused(s: System, p: nat, tier: nat, c: Command)
    requires Inv(s) && p < |s.producers| && s.producers[p] == Offering(tier, c)
    requires tier + 1 < TIERS && !c.Flush? && !HasRoom(s, tier)
    ensures Enabled(s, TryTier(p)) && Inv(Apply(s, TryTier(p)))
    ensures var t := Apply(s, TryTier(p));
            && p < |t.producers| && t.producers[p] == Offering(tier + 1, c)
            && Placed(t, p, c, FirstWithRoom(t, tier + 1)) == Placed(s, p, c, FirstWithRoom(s, tier))
  {
    TryOne(s, p, tier, c);
    InvKept(s, TryTier(p));
    SameRoom(s, p, tier + 1, c);
  }

  lemma TryNext(s: System, p: nat, tier: nat, c: Command) returns (es: seq<Event>)
    requires Inv(s) && p < |s.producers| && s.producers[p] == Offering(tier, c)
    requires tier + 1 < TIERS && !c.Flush? && !HasRoom(s, tier)
    ensures Runnable(s, es) && forall e :: e in es ==> e == TryTier(p)
    ensures Run(s, es) == Placed(s, p, c, FirstWithRoom(s, tier))
    decreases TIERS - tier, 0
  {
    Refused(s, p, tier, c);
    var rest := TryInOrder(Apply(s, TryTier(p)), p, tier + 1, c);
    RunFirst(s, TryTier(p), rest);
    es := [TryTier(p)] + rest;
  }

  lemma SameFirst(s: System, begun: System, tier: nat)
    requires Shape(s) && Shape(begun) && tier <= TIERS
    requires begun.queues == s.queues && begun.lines == s.lines && begun.caps == s.caps
    ensures FirstWithRoom(begun, tier) == FirstWithRoom(s, tier)
    decreases TIERS - tier
  {
    if tier < TIERS {
      SameFirst(s, begun, tier + 1);
    }
  }

  /** What a whole undisturbed send of `payload` leaves: the next number is taken, and a command with that number that
      carries what was handed in is in the first channel with room, or dropped and counted. */
  ghost predicate SentOrDropped(s: System, t: System, p: nat, payload: Payload, c: Command, at: nat)
    requires |s.queues| == TIERS && at <= TIERS
  {
    && Carries(c, payload) && !c.Flush? && c.seqNo == s.nextSeq + 1
    && t.nextSeq == s.nextSeq + 1 && t.issued == s.issued + [c]
    && t.queues == (if at < TIERS then s.queues[at := s.queues[at] + [c]] else s.queues)
    && t.dropped == (if at < TIERS then s.dropped else s.dropped + [c])
    && p < |t.producers| && t.producers[p] == if at < TIERS then Accepted(s.nextSeq + 1) else Idle
  }

  lemma PlacedIsSent(s: System, begun: System, p: nat, payload: Payload, c: Command, at: nat)
    requires Shape(s) && Shape(begun) && p < |begun.producers| && at <= TIERS
    requires Carries(c, payload) && !c.Flush? && c.seqNo == s.nextSeq + 1
    requires begun.queues == s.queues && begun.dropped == s.dropped
    requires begun.nextSeq == s.nextSeq + 1 && begun.issued == s.issued + [c]
    ensures SentOrDropped(s, Placed(begun, p, c, at), p, payload, c, at)
  {
  }

  lemma SendInOrder(s: System, p: nat, payload: Payload) returns (es: seq<Event>, c: Command)
    requires Inv(s) && Enabled(s, BeginSend(p, payload))
    ensures Runnable(s, [BeginSend(p, payload)] + es) && forall e :: e in es ==> e == TryTier(p)
    ensures SentOrDropped(s, Run(s, [BeginSend(p, payload)] + es), p, payload, c, FirstWithRoom(s, 0))
  {
    var begun := Apply(s, BeginSend(p, payload));
    InvKept(s, BeginSend(p, payload));
    c := SendCarries(s, p, payload);
    es := TryInOrder(begun, p, 0, c);
    RunFirst(s, BeginSend(p, payload), es);
    SameFirst(s, begun, 0);
    PlacedIsSent(s, begun, p, payload, c, FirstWithRoom(s, 0));
  }
}
