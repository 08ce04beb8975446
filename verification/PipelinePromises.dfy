/** What the writer pipeline promises its callers, and exactly when a flush waits for everything. */
module PipelinePromises {
  import opened Multisets
  import opened FleetTrades
  import opened WriterWorker
  import opened WriterPipeline
  import opened PipelineInvariants
  import opened PipelineLines
  import opened PipelineTheorems

  /** Reachable from an empty pipeline with positive capacities. */
  ghost predicate ReachableBy(caps: seq<nat>, es: seq<Event>, s: System) {
    && |caps| == TIERS && (forall i :: 0 <= i < TIERS ==> caps[i] > 0)
    && Shape(Init(caps)) && Runnable(Init(caps), es) && s == Run(Init(caps), es)
  }

  /** In every reachable state each allocated sequence number is in exactly one place and no queue is
      over its capacity. */
  lemma ReachableConserves(caps: seq<nat>, es: seq<Event>, s: System)
    requires ReachableBy(caps, es, s)
    ensures Inv(s)
    ensures forall t :: 0 <= t < TIERS ==> |s.queues[t]| <= caps[t]
    ensures forall n :: 1 <= n <= s.nextSeq ==> InOnePlace(s, n)
  {
    InvInit(caps);
    InvRun(Init(caps), es);
    forall n | 1 <= n <= s.nextSeq ensures InOnePlace(s, n) {
      ExactlyOnePlace(s, n);
    }
  }

  // ---- shutdown --------------------------------------------------------------------------------

  /** After exit, every allocated command was dropped and counted or observed; if the writes succeeded,
      every trade of an observed command has its natural key in the table. */
  lemma ExitStoresEverything(s: System, c: Command)
    requires Inv(s) && !s.running && c in s.issued && c !in s.dropped
    ensures c in s.observed
    ensures s.writesOk ==> Stored(s.worker.store.table, TradesOf(c))
    ensures s.worker.pending == []
  {
    ClosedPrimaryMeansDrained(s);
    DrainedPipeIsEmpty(s);
    DrainedMeansAnswered(s);
    CountByNumber(s.issued, 1, c);
    ExactlyOnePlace(s, c.seqNo);
  }

  // ---- progress ---------------------------------------------------------------------------------

  function HandLoad(s: System, i: nat): nat
    requires |s.lines| == TIERS && |s.forwarders| == TIERS - 1 && i < TIERS - 1
  {
    if !s.forwarders[i].Holding? then 0 else if Forwarding in s.lines[i] then 3 * i + 2 else 3 * i + 3
  }

  function CallLoad(s: System, p: nat): nat
    requires |s.lines| == TIERS && p < |s.producers|
  {
    if !s.producers[p].SendingFlush? then 0 else if Calling(p) in s.lines[0] then 2 else 3
  }

  function CallLoads(s: System): seq<nat>
    requires |s.lines| == TIERS
  {
    seq(|s.producers|, p requires 0 <= p < |s.producers| => CallLoad(s, p))
  }

  function Same(n: nat): nat { n }

  function Calls(s: System): nat
    requires |s.lines| == TIERS
  {
    Total(CallLoads(s), Same)
  }

  /** How many internal steps may be left until the worker has observed everything: a command in queue `t` has
      up to `3 * t + 1` to go, one in the hand of forwarder `i` up to `3 * i + 3`, a flush not yet in the primary
      channel up to 3. */
  function Load(s: System): nat
    requires |s.queues| == |s.lines| == TIERS && |s.forwarders| == TIERS - 1
  {
    |s.queues[0]| + 4 * |s.queues[1]| + 7 * |s.queues[2]| + 10 * |s.queues[3]| + 13 * |s.queues[4]|
    + HandLoad(s, 0) + HandLoad(s, 1) + HandLoad(s, 2) + HandLoad(s, 3) + Calls(s)
  }

  /** Steps that move a command on, or put who cannot move yet in line. */
  predicate Internal(e: Event) {
    e.Take? || e.WaitForward? || e.Pass? || e.WaitCall? || e.SendFlush? || e.Receive?
  }

  lemma OneCallMoves(s: System, t: System, p: nat)
    requires |s.lines| == |t.lines| == TIERS && p < |s.producers| == |t.producers|
    requires forall q :: 0 <= q < |s.producers| && q != p ==> CallLoad(t, q) == CallLoad(s, q)
    ensures Calls(t) + CallLoad(s, p) == Calls(s) + CallLoad(t, p)
  {
    assert CallLoads(t) == CallLoads(s)[p := CallLoad(t, p)];
    TotalUpdate(CallLoads(s), Same, p, CallLoad(t, p));
  }

  lemma NoCallMoves(s: System, t: System)
    requires |s.lines| == |t.lines| == TIERS && |s.producers| == |t.producers|
    requires forall q :: 0 <= q < |s.producers| ==> CallLoad(t, q) == CallLoad(s, q)
    ensures Calls(t) == Calls(s)
  {
    assert CallLoads(t) == CallLoads(s);
  }

  predicate Sized(s: System) {
    |s.queues| == |s.lines| == TIERS && |s.forwarders| == TIERS - 1
  }

  lemma TakeLoad(s: System, t: System, i: nat, c: Command)
    requires Sized(s) && i < TIERS - 1 && s.queues[i + 1] != [] && s.forwarders[i].Ready? && Forwarding !in s.lines[i]
    requires t.queues == s.queues[i + 1 := s.queues[i + 1][1..]] && t.forwarders == s.forwarders[i := Holding(c)]
    requires t.lines == s.lines && t.producers == s.producers
    ensures Load(t) < Load(s)
  {
    NoCallMoves(s, t);
    assert i == 0 || i == 1 || i == 2 || i == 3;
  }

  lemma TakeLowersLoad(s: System, i: nat)
    requires Shape(s) && Orderly(s) && Enabled(s, Take(i)) && Shape(Apply(s, Take(i)))
    ensures Load(Apply(s, Take(i))) < Load(s)
  {
    assert Forwarding in s.lines[i] ==> WaitsIn(s, i, Forwarding);
    TakeLoad(s, Apply(s, Take(i)), i, s.queues[i + 1][0]);
  }

  lemma WaitForwardLoad(s: System, t: System, i: nat)
    requires Sized(s) && i < TIERS - 1 && s.forwarders[i].Holding? && Forwarding !in s.lines[i]
    requires t.queues == s.queues && t.forwarders == s.forwarders && t.producers == s.producers
    requires t.lines == s.lines[i := s.lines[i] + [Forwarding]]
    ensures Load(t) < Load(s)
  {
    NoCallMoves(s, t);
    assert i == 0 || i == 1 || i == 2 || i == 3;
  }

  lemma WaitForwardLowersLoad(s: System, i: nat)
    requires Shape(s) && Orderly(s) && Enabled(s, WaitForward(i)) && Shape(Apply(s, WaitForward(i)))
    ensures Load(Apply(s, WaitForward(i))) < Load(s)
  {
    WaitForwardLoad(s, Apply(s, WaitForward(i)), i);
  }

  lemma PassLoad(s: System, t: System, i: nat, c: Command)
    requires Sized(s) && i < TIERS - 1 && s.forwarders[i].Holding? && OnceEach(s.lines[i])
    requires t.queues == s.queues[i := s.queues[i] + [c]] && t.forwarders == s.forwarders[i := Ready]
    requires t.lines == s.lines[i := Without(s.lines[i], Forwarding)] && t.producers == s.producers
    ensures Load(t) < Load(s)
  {
    WithoutExact(s.lines[i], Forwarding);
    NoCallMoves(s, t);
    assert i == 0 || i == 1 || i == 2 || i == 3;
  }

  lemma PassLowersLoad(s: System, i: nat)
    requires Shape(s) && Cascade(s) && Orderly(s) && Enabled(s, Pass(i)) && Shape(Apply(s, Pass(i)))
    ensures Load(Apply(s, Pass(i))) < Load(s)
  {
    NobodyMeetsAClosedChannel(s);
    assert OnceEach(s.lines[i]);
    PassLoad(s, Apply(s, Pass(i)), i, s.forwarders[i].command);
  }

  lemma WaitCallLowersLoad(s: System, p: nat)
    requires Shape(s) && Orderly(s) && Enabled(s, WaitCall(p)) && Shape(Apply(s, WaitCall(p)))
    ensures Load(Apply(s, WaitCall(p))) < Load(s)
  {
    OneCallMoves(s, Apply(s, WaitCall(p)), p);
  }

  lemma SendFlushLoad(s: System, t: System, p: nat, ticket: Ticket)
    requires Sized(s) && p < |s.producers| && s.producers[p].SendingFlush? && OnceEach(s.lines[0])
    requires t.queues == s.queues[0 := s.queues[0] + [Flush(ticket)]] && t.forwarders == s.forwarders
    requires t.lines == s.lines[0 := Without(s.lines[0], Calling(p))]
    requires t.producers == s.producers[p := AwaitingFlush(ticket)]
    ensures Load(t) < Load(s)
  {
    WithoutExact(s.lines[0], Calling(p));
    OneCallMoves(s, t, p);
  }

  lemma FlushEnters(s: System, p: nat)
    requires Shape(s) && Cascade(s) && Enabled(s, SendFlush(p))
    ensures var t, ticket := Apply(s, SendFlush(p)), Ticket(s.producers[p].target, |s.flushes|);
            && t.queues == s.queues[0 := s.queues[0] + [Flush(ticket)]] && t.forwarders == s.forwarders
            && t.lines == s.lines[0 := Without(s.lines[0], Calling(p))]
            && t.producers == s.producers[p := AwaitingFlush(ticket)]
  {
    NobodyMeetsAClosedChannel(s);
    assert !s.producers[p].Gone? && !Closed(s, 0);
  }

  lemma SendFlushLowersLoad(s: System, p: nat)
    requires Shape(s) && Cascade(s) && Orderly(s) && Enabled(s, SendFlush(p)) && Shape(Apply(s, SendFlush(p)))
    ensures Load(Apply(s, SendFlush(p))) < Load(s)
  {
    FlushEnters(s, p);
    assert OnceEach(s.lines[0]);
    SendFlushLoad(s, Apply(s, SendFlush(p)), p, Ticket(s.producers[p].target, |s.flushes|));
  }

  lemma ReceiveLowersLoad(s: System, flushOk: bool, writeOk: bool)
    requires Shape(s) && Enabled(s, Receive(flushOk, writeOk)) && Shape(Apply(s, Receive(flushOk, writeOk)))
    ensures Load(Apply(s, Receive(flushOk, writeOk))) < Load(s)
  {
    NoCallMoves(s, Apply(s, Receive(flushOk, writeOk)));
  }

  lemma InternalStepLowersLoad(s: System, e: Event)
    requires Shape(s) && Cascade(s) && Orderly(s) && Enabled(s, e) && Internal(e)
    ensures Shape(Apply(s, e)) && Load(Apply(s, e)) < Load(s)
  {
    ApplyShape(s, e);
    if e.Take? {
      TakeLowersLoad(s, e.i);
    } else if e.WaitForward? {
      WaitForwardLowersLoad(s, e.i);
    } else if e.Pass? {
      PassLowersLoad(s, e.i);
    } else if e.WaitCall? {
      WaitCallLowersLoad(s, e.p);
    } else if e.SendFlush? {
      SendFlushLowersLoad(s, e.p);
    } else {
      ReceiveLowersLoad(s, e.flushOk, e.writeOk);
    }
  }

  /** Whoever wants into an empty channel finds that the first of its line, or itself, may enter. */
  lemma SomebodyMayEnter(s: System, t: nat, w: Waiter) returns (first: Waiter)
    requires Shape(s) && Orderly(s) && t < TIERS && s.queues[t] == [] && WaitsIn(s, t, w)
    ensures WaitsIn(s, t, first) && MayEnter(s, t, first)
  {
    if s.lines[t] == [] {
      first := w;
    } else {
      first := s.lines[t][0];
      FirstMayEnter(s, t);
      assert first in s.lines[t] && WaitsIn(s, t, first);
    }
  }

  lemma EntersNext(s: System, t: nat, w: Waiter) returns (e: Event)
    requires Inv(s) && t < TIERS && s.queues[t] == [] && WaitsIn(s, t, w)
    ensures Internal(e) && Enabled(s, e)
  {
    var first := SomebodyMayEnter(s, t, w);
    e := if first.Forwarding? then Pass(t) else SendFlush(first.p);
  }

  lemma {:induction false} SomeCall(loads: seq<nat>) returns (k: nat)
    requires Total(loads, Same) > 0
    ensures k < |loads| && loads[k] > 0
  {
    if loads[0] > 0 {
      k := 0;
    } else {
      var j := SomeCall(loads[1..]);
      k := j + 1;
    }
  }

  /** While anything is on its way some internal step is possible, whatever the producers do. */
  lemma SomeStepIsEnabled(s: System) returns (e: Event)
    requires Inv(s) && Load(s) > 0
    ensures Internal(e) && Enabled(s, e)
  {
    if s.queues[0] != [] {
      if !s.running {
        ClosedPrimaryMeansDrained(s);
      }
      return Receive(true, true);
    }
    var i := 0;
    while i < TIERS - 1
      invariant i <= TIERS - 1
      invariant s.queues[i] == []
      invariant forall k :: 0 <= k < i ==> s.queues[k] == [] && !s.forwarders[k].Holding?
    {
      if s.forwarders[i].Holding? {
        e := EntersNext(s, i, Forwarding);
        return;
      }
      if s.queues[i + 1] != [] {
        return Take(i);
      }
      i := i + 1;
    }
    assert s.queues[1] == [] && s.queues[2] == [] && s.queues[3] == [] && s.queues[4] == [];
    var p := SomeCall(CallLoads(s));
    e := EntersNext(s, 0, Calling(p));
  }

  lemma {:induction false} InternalRunCounts(s: System, es: seq<Event>)
    requires Inv(s) && Runnable(s, es) && forall e :: e in es ==> Internal(e)
    ensures |es| <= Load(s) - Load(Run(s, es))
    decreases |es|
  {
    if es != [] {
      InternalStepLowersLoad(s, es[0]);
      InvKept(s, es[0]);
      assert forall e :: e in es[1..] ==> e in es;
      InternalRunCounts(Apply(s, es[0]), es[1..]);
    }
  }

  lemma {:induction false} FlushesRemembered(s: System, es: seq<Event>)
    requires Inv(s) && Runnable(s, es)
    ensures s.flushes <= Run(s, es).flushes && s.enqueuedSeq <= Run(s, es).enqueuedSeq
    decreases |es|
  {
    if es != [] {
      InvKept(s, es[0]);
      IssuedGrows(s, es[0]);
      FlushesRemembered(Apply(s, es[0]), es[1..]);
    }
  }

  lemma StillFlushes(s: System, e: Event, p: nat)
    requires Inv(s) && Enabled(s, e) && Internal(e) && p < |s.producers| && Flushes(s.producers[p])
    ensures p < |Apply(s, e).producers| && Flushes(Apply(s, e).producers[p])
  {
    if e.SendFlush? {
      NobodyMeetsAClosedChannel(s);
      assert !s.producers[e.p].Gone? && !Closed(s, 0);
    }
  }

  lemma {:induction false} StillFlushesRun(s: System, es: seq<Event>, p: nat)
    requires Inv(s) && Runnable(s, es) && (forall e :: e in es ==> Internal(e))
    requires p < |s.producers| && Flushes(s.producers[p])
    ensures p < |Run(s, es).producers| && Flushes(Run(s, es).producers[p])
    decreases |es|
  {
    if es != [] {
      StillFlushes(s, es[0], p);
      InvKept(s, es[0]);
      assert forall e :: e in es[1..] ==> e in es;
      StillFlushesRun(Apply(s, es[0]), es[1..], p);
    }
  }

  /** Everything that entered the pipeline is through: drained, every flush answered. */
  ghost predicate Through(t: System) {
    && Drained(t) && t.worker.pending == [] && t.enqueuedSeq <= t.worker.observedMax
    && (forall k :: 0 <= k < |t.flushes| ==> t.flushes[k].Flush? && t.flushes[k].ticket in t.worker.answered)
    && (forall p :: 0 <= p < |t.producers| ==> !t.producers[p].SendingFlush?)
  }

  /** No flush waits forever: any schedule of internal steps takes at most `Load(s)` of them, can always go
      on while any load is left, and then the pipeline is drained and every flush is answered, those included
      that were still waiting for room or about to be sent. */
  lemma FlushesAreAnswered(s: System, es: seq<Event>)
    requires Inv(s) && Runnable(s, es) && forall e :: e in es ==> Internal(e)
    ensures var t := Run(s, es);
            && Inv(t)
            && |es| <= Load(s) - Load(t)
            && (Load(t) > 0 ==> exists e :: Internal(e) && Enabled(t, e))
            && (Load(t) == 0 ==> Through(t) && s.flushes <= t.flushes
                                 && forall p :: 0 <= p < |s.producers| && Flushes(s.producers[p]) ==> AnsweredFor(t, p))
  {
    InvRun(s, es);
    InternalRunCounts(s, es);
    FlushesRemembered(s, es);
    var t := Run(s, es);
    if Load(t) > 0 {
      var e := SomeStepIsEnabled(t);
    } else {
      ThroughOnceUnloaded(t);
      forall p | 0 <= p < |s.producers| && Flushes(s.producers[p]) ensures AnsweredFor(t, p) {
        StillFlushesRun(s, es, p);
        AwaitedIsAnswered(t, p);
      }
    }
  }

  /** The flush that `p` began is answered. */
  ghost predicate AnsweredFor(t: System, p: nat) {
    p < |t.producers| && t.producers[p].AwaitingFlush? && t.producers[p].ticket in t.worker.answered
  }

  lemma AwaitedIsAnswered(t: System, p: nat)
    requires Inv(t) && Through(t) && p < |t.producers| && Flushes(t.producers[p])
    ensures AnsweredFor(t, p)
  {
    assert Flush(t.producers[p].ticket) in t.flushes;
    var k :| 0 <= k < |t.flushes| && t.flushes[k] == Flush(t.producers[p].ticket);
  }

  lemma NoCallersOnceUnloaded(s: System, p: nat)
    requires |s.lines| == TIERS && Calls(s) == 0 && p < |s.producers|
    ensures !s.producers[p].SendingFlush?
  {
    TotalUpdate(CallLoads(s), Same, p, 0);
  }

  lemma ThroughOnceUnloaded(s: System)
    requires Inv(s) && Load(s) == 0
    ensures Through(s)
  {
    AllAnsweredOnceDrained(s);
    forall p | 0 <= p < |s.producers| ensures !s.producers[p].SendingFlush? {
      NoCallersOnceUnloaded(s, p);
    }
  }

  lemma AllAnsweredOnceDrained(s: System)
    requires Inv(s) && Load(s) == 0
    ensures Drained(s) && s.worker.pending == [] && s.enqueuedSeq <= s.worker.observedMax
    ensures forall k :: 0 <= k < |s.flushes| ==> s.flushes[k].ticket in s.worker.answered
  {
    assert Drained(s);
    DrainedMeansAnswered(s);
    DrainedPipeIsEmpty(s);
    HighWaterMark(s);
    forall k | 0 <= k < |s.flushes| ensures s.flushes[k].ticket in s.worker.answered {
      var f := s.flushes[k];
      FlushIsObservedOnceDrained(s, f);
      FlushTicketCounted(s.observed, f.ticket);
      assert f.ticket in multiset(s.worker.pending) + multiset(s.worker.answered);
    }
  }

  lemma FlushIsObservedOnceDrained(s: System, f: Command)
    requires Inv(s) && Drained(s) && f in s.flushes
    ensures f in s.observed && f.Flush?
  {
    DrainedPipeIsEmpty(s);
    assert Copies(s, f) == multiset(s.issued)[f] + multiset(s.flushes)[f];
    FlushNeverDropped(s, f);
  }

  /** Flush commands are neither offered nor dropped: they wait for room instead. */
  lemma FlushNeverDropped(s: System, f: Command)
    requires Inv(s) && f.Flush?
    ensures Offered(s)[f] == 0
    ensures multiset(s.dropped)[f] == 0
  {
    if Offered(s)[f] > 0 {
      var p := GatherWitness(s.producers, ProducerItems, f);
    }
    assert f !in s.dropped;
  }

  lemma {:induction false} FlushTicketCounted(log: seq<Command>, t: Ticket)
    requires Flush(t) in log
    ensures t in Tickets(log)
  {
    var init, c := log[..|log| - 1], log[|log| - 1];
    assert log == init + [c];
    if c != Flush(t) {
      FlushTicketCounted(init, t);
    }
  }

  // ---- durability -------------------------------------------------------------------------------

  lemma OnlyReceiveAnswers(s: System, e: Event)
    requires Inv(s) && Enabled(s, e) && |s.worker.answered| < |Apply(s, e).worker.answered|
    ensures e.Receive?
  {
    if e.TimerTick? {
      TickKeeps(s.worker, s.observed, e.flushOk);
    } else if e.Exit? {
      ExitKeepsWorker(s, e.flushOk);
    } else if !e.Receive? {
      OthersLeaveWorker(s, e);
    }
  }

  lemma ReceiveAnswers(s: System)
    requires Inv(s) && Enabled(s, Receive(true, true))
    requires |s.worker.answered| < |Apply(s, Receive(true, true)).worker.answered|
    ensures var w := Apply(s, Receive(true, true)).worker;
            && w.buf == []
            && forall i :: |s.worker.answered| <= i < |w.answered| ==> w.answered[i].target <= w.observedMax
  {
    var c := s.queues[0][0];
    QueuedWitness(s, 0, c);
    NoStrangers(s, c);
    HandleAnswers(s.worker, s.observed, c);
  }

  /** Where an answered flush command stands in the primary channel's history. */
  lemma AheadIsObserved(s: System, ticket: Ticket)
    requires Inv(s) && ticket in s.worker.answered
    ensures exists k :: 0 <= k < |s.observed| && s.primaryIn[k] == Flush(ticket) && s.primaryIn[..k] <= s.observed
  {
    KnownTicket(s, ticket);
    var k :| 0 <= k < |s.observed| && s.observed[k] == Flush(ticket);
    assert s.primaryIn[..k] == s.observed[..k];
  }

  /** Whichever step answers a caller, if every write succeeded so far: the buffer is empty, the target has
      been observed, every trade of every observed command is stored, and everything that entered the
      primary channel before the flush command did has been observed. */
  lemma AnswerMeansDurable(s: System, e: Event, i: nat)
    requires Inv(s) && Enabled(s, e) && Apply(s, e).writesOk
    requires |s.worker.answered| <= i < |Apply(s, e).worker.answered|
    ensures var t := Apply(s, e);
            var ticket := t.worker.answered[i];
            && t.worker.buf == []
            && ticket.target <= t.worker.observedMax
            && (forall c :: c in t.observed ==> Stored(t.worker.store.table, TradesOf(c)))
            && Fifo(t)
            && exists k :: 0 <= k < |t.observed| && t.primaryIn[k] == Flush(ticket) && t.primaryIn[..k] <= t.observed
  {
    InvKept(s, e);
    OnlyReceiveAnswers(s, e);
    ReceiveAnswers(s);
    AheadIsObserved(Apply(s, e), Apply(s, e).worker.answered[i]);
  }

  /** `p` is the snapshot-bearing command with the largest sequence number in the log. */
  ghost predicate IsNewest(p: Persisted, log: seq<Command>) {
    && (forall c :: c in log && BearsSnapshot(c) ==> c.seqNo <= p.seqNo)
    && exists c :: c in log && BearsSnapshot(c) && p == Persisted(c.seqNo, c.snapshot)
  }

  /** The persisted snapshot: never older than before, and, if the writes succeeded, the one with the
      largest sequence number among all snapshot-bearing commands observed. */
  lemma SnapshotNeverRollsBack(s: System, es: seq<Event>)
    requires Inv(s) && Runnable(s, es)
    ensures var before, t := s.worker.store.snapshot, Run(s, es);
            var now := t.worker.store.snapshot;
            && (before.Some? ==> now.Some? && before.value.seqNo <= now.value.seqNo)
            && (t.writesOk ==>
                  && (now.None? <==> forall c :: c in t.observed ==> !BearsSnapshot(c))
                  && (now.Some? ==> IsNewest(now.value, t.observed)))
  {
    InvRun(s, es);
    NewestSnapshotIsLargest(Run(s, es).observed);
  }
}
