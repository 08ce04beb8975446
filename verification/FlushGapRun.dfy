/** A run, for channels of any capacities, after which a flush does not wait for everything. */
module FlushGapRun {
  import opened FleetTrades
  import opened WriterWorker
  import opened WriterPipeline
  import opened PipelineInvariants
  import opened PipelineTheorems
  import opened PipelinePromises
  import opened FlushGap

  /** The capacities the writer is started with. */
  const CAPACITIES: seq<nat> := [100_000, 8_192, 2_048, 8_192, 512]

  /** What every send of the run hands over. */
  const A_BATCH: Payload := Batch([FleetTrade(1, "BTCUSDT", None, 100, 1_000, 0.5, false)])

  ghost predicate Unlined(s: System) {
    forall t :: 0 <= t < |s.lines| ==> s.lines[t] == []
  }

  /** One handle, at rest; nobody waits and nothing is staged in the overflow channel. */
  ghost predicate Lone(s: System) {
    Inv(s) && s.running && s.producers == [Idle] && Unlined(s) && s.queues[1] == []
  }

  /** One handle, at rest, and something in the overflow channel. */
  ghost predicate Staged(s: System) {
    Inv(s) && s.producers == [Idle] && Unlined(s) && s.queues[1] != []
  }

  /** One accepted and marked send through the primary channel. */
  lemma SendThroughPrimary(s: System, payload: Payload) returns (es: seq<Event>)
    requires Lone(s) && HasRoom(s, 0) && payload.Batch? && payload.trades != []
    ensures Runnable(s, es)
    ensures Lone(Run(s, es)) && Run(s, es).caps == s.caps && |Run(s, es).queues[0]| == |s.queues[0]| + 1
  {
    var c := Stamp(payload, s.nextSeq + 1);
    InvKept(s, BeginSend(0, payload));
    var s1 := Apply(s, BeginSend(0, payload));
    assert s1.producers == [Offering(0, c)];
    var rest := AcceptInPrimary(s1, c);
    RunFirst(s, BeginSend(0, payload), rest);
    es := [BeginSend(0, payload)] + rest;
  }

  lemma PushedFirst(s: System, c: Command)
    requires Shape(s) && s.running && s.producers == [Offering(0, c)] && !c.Flush? && HasRoom(s, 0)
    ensures Enabled(s, TryTier(0))
    ensures Apply(s, TryTier(0)) == s.(producers := [Accepted(c.seqNo)],
                                       queues := s.queues[0 := s.queues[0] + [c]], primaryIn := s.primaryIn + [c])
  {
  }

  lemma AcceptInPrimary(s: System, c: Command) returns (es: seq<Event>)
    requires Inv(s) && s.running && s.producers == [Offering(0, c)] && HasRoom(s, 0) && Unlined(s) && s.queues[1] == []
    ensures Runnable(s, es)
    ensures Lone(Run(s, es)) && Run(s, es).caps == s.caps && |Run(s, es).queues[0]| == |s.queues[0]| + 1
  {
    assert s.producers[0].Offering?;
    PushedFirst(s, c);
    InvKept(s, TryTier(0));
    var rest := FinishMark(Apply(s, TryTier(0)));
    RunFirst(s, TryTier(0), rest);
    es := [TryTier(0)] + rest;
  }

  lemma LoadedMark(s: System)
    requires Inv(s) && |s.producers| == 1 && s.producers[0].Accepted?
    ensures Enabled(s, LoadMark(0)) && Inv(Apply(s, LoadMark(0)))
    ensures Apply(s, LoadMark(0)) == s.(producers := [Marking(s.producers[0].seqNo, s.enqueuedSeq)])
  {
    InvKept(s, LoadMark(0));
  }

  lemma CasSettles(s: System)
    requires Shape(s) && |s.producers| == 1 && s.producers[0].Marking? && s.producers[0].seen == s.enqueuedSeq
    ensures Enabled(s, CasMark(0, false))
    ensures var t := Apply(s, CasMark(0, false)); t == s.(producers := [Idle], enqueuedSeq := t.enqueuedSeq)
  {
  }

  lemma FinishCas(s: System) returns (es: seq<Event>)
    requires Inv(s) && |s.producers| == 1 && s.producers[0].Marking? && s.producers[0].seen == s.enqueuedSeq
    ensures Runnable(s, es)
    ensures var t := Run(s, es); Inv(t) && t == s.(producers := [Idle], enqueuedSeq := t.enqueuedSeq)
  {
    CasSettles(s);
    InvKept(s, CasMark(0, false));
    RunFirst(s, CasMark(0, false), []);
    es := [CasMark(0, false)] + [];
  }

  lemma FinishMark(s: System) returns (es: seq<Event>)
    requires Inv(s) && |s.producers| == 1 && s.producers[0].Accepted?
    ensures Runnable(s, es)
    ensures var t := Run(s, es);
            && Inv(t) && t.running == s.running && |t.producers| == 1 && t.producers[0].Idle? && t.caps == s.caps
            && t.queues == s.queues && t.forwarders == s.forwarders && t.lines == s.lines
  {
    LoadedMark(s);
    var rest := FinishCas(Apply(s, LoadMark(0)));
    RunFirst(s, LoadMark(0), rest);
    es := [LoadMark(0)] + rest;
  }

  lemma PushedSecond(s: System, c: Command)
    requires Shape(s) && !Closed(s, 1) && s.producers == [Offering(1, c)] && !c.Flush? && HasRoom(s, 1)
    ensures Enabled(s, TryTier(0))
    ensures Apply(s, TryTier(0)) == s.(producers := [Accepted(c.seqNo)], queues := s.queues[1 := s.queues[1] + [c]])
  {
  }

  /** A command that found the primary channel full is accepted by the overflow channel. */
  lemma AcceptInOverflow(s: System, c: Command) returns (es: seq<Event>)
    requires Inv(s) && s.running && s.producers == [Offering(1, c)] && HasRoom(s, 1) && Unlined(s)
    ensures Runnable(s, es) && Staged(Run(s, es))
  {
    NobodyMeetsAClosedChannel(s);
    assert s.producers[0].Offering? && !Closed(s, 1);
    PushedSecond(s, c);
    InvKept(s, TryTier(0));
    var rest := FinishMark(Apply(s, TryTier(0)));
    RunFirst(s, TryTier(0), rest);
    es := [TryTier(0)] + rest;
  }

  /** The primary channel is full, so the command is offered to the overflow channel next. */
  lemma Bounce(s: System, c: Command) returns (es: seq<Event>)
    requires Inv(s) && s.running && s.producers == [Offering(0, c)] && !HasRoom(s, 0) && HasRoom(s, 1) && Unlined(s)
    ensures Runnable(s, es) && Staged(Run(s, es))
  {
    InvKept(s, TryTier(0));
    var s1 := Apply(s, TryTier(0));
    assert s1 == s.(producers := [Offering(1, c)]);
    var rest := AcceptInOverflow(s1, c);
    RunFirst(s, TryTier(0), rest);
    es := [TryTier(0)] + rest;
  }

  lemma SendThroughOverflow(s: System, payload: Payload) returns (es: seq<Event>)
    requires Lone(s) && !HasRoom(s, 0) && payload.Batch? && payload.trades != []
    ensures Runnable(s, es) && Staged(Run(s, es))
  {
    var c := Stamp(payload, s.nextSeq + 1);
    InvKept(s, BeginSend(0, payload));
    var s1 := Apply(s, BeginSend(0, payload));
    assert s1.producers == [Offering(0, c)];
    var rest := Bounce(s1, c);
    RunFirst(s, BeginSend(0, payload), rest);
    es := [BeginSend(0, payload)] + rest;
  }

  /** Sends until the primary channel is full. */
  lemma {:induction false} FillPrimary(s: System) returns (es: seq<Event>)
    requires Lone(s)
    ensures Runnable(s, es)
    ensures Lone(Run(s, es)) && !HasRoom(Run(s, es), 0)
    decreases s.caps[0] - |s.queues[0]|
  {
    if HasRoom(s, 0) {
      var es1 := SendThroughPrimary(s, A_BATCH);
      var es2 := FillPrimary(Run(s, es1));
      RunAppend(s, es1, es2);
      es := es1 + es2;
    } else {
      es := [];
    }
  }

  lemma OverflowStaged(s: System) returns (es: seq<Event>)
    requires Lone(s)
    ensures Runnable(s, es) && Staged(Run(s, es))
  {
    var es1 := FillPrimary(s);
    var es2 := SendThroughOverflow(Run(s, es1), A_BATCH);
    RunAppend(s, es1, es2);
    es := es1 + es2;
  }

  /** Whatever the capacities, the gap is reachable: enough sends to fill the primary channel, one more that the
      overflow channel accepts, and a flush that some schedule answers before that last batch is observed. */
  lemma GapIsReachable(caps: seq<nat>) returns (es: seq<Event>, s: System)
    requires |caps| == TIERS && forall i :: 0 <= i < TIERS ==> caps[i] > 0
    ensures ReachableBy(caps, es, s)
    ensures |s.producers| == 1 && s.producers[0].Idle? && !FlushWaitsForAll(s, 0)
  {
    InvInit(caps);
    assert Lone(Init(caps));
    es := OverflowStaged(Init(caps));
    s := Run(Init(caps), es);
    StagedBreaksThePromise(s, 0);
  }

  lemma GapIsReachableAsShipped() returns (es: seq<Event>, s: System)
    ensures ReachableBy(CAPACITIES, es, s)
    ensures |s.producers| == 1 && s.producers[0].Idle? && !FlushWaitsForAll(s, 0)
  {
    es, s := GapIsReachable(CAPACITIES);
  }
}
