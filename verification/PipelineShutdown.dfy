/** Once every handle is dropped the pipeline drains, stops tier by tier and ends, under every schedule. */
module PipelineShutdown {
  import opened WriterPipeline
  import opened PipelineInvariants
  import opened PipelineTheorems
  import opened PipelinePromises

  /** The steps left when no producer is: those that move commands on, the forwarders' ends and the worker's. */
  predicate Closing(e: Event) {
    Internal(e) || e.Stop? || e.Exit?
  }

  predicate AllGone(s: System) {
    forall p :: 0 <= p < |s.producers| ==> s.producers[p].Gone?
  }

  function Alive(f: Forwarder): nat {
    if f.Stopped? then 0 else 1
  }

  /** How many such steps may be left. */
  function Remaining(s: System): nat
    requires Sized(s)
  {
    Load(s) + Alive(s.forwarders[0]) + Alive(s.forwarders[1]) + Alive(s.forwarders[2]) + Alive(s.forwarders[3])
    + if s.running then 1 else 0
  }

  lemma StoppedLoad(s: System, t: System, i: nat)
    requires Sized(s) && i < TIERS - 1 && s.forwarders[i].Ready? && t.forwarders == s.forwarders[i := Stopped]
    requires t.queues == s.queues && t.lines == s.lines && t.producers == s.producers && t.running == s.running
    ensures Remaining(t) < Remaining(s)
  {
    NoCallMoves(s, t);
    assert i == 0 || i == 1 || i == 2 || i == 3;
  }

  lemma StopLowers(s: System, i: nat)
    requires Shape(s) && Enabled(s, Stop(i))
    ensures Sized(Apply(s, Stop(i))) && Remaining(Apply(s, Stop(i))) < Remaining(s)
    ensures AllGone(s) ==> AllGone(Apply(s, Stop(i)))
  {
    StoppedLoad(s, Apply(s, Stop(i)), i);
  }

  lemma ExitLowers(s: System, flushOk: bool)
    requires Shape(s) && Enabled(s, Exit(flushOk))
    ensures Sized(Apply(s, Exit(flushOk))) && Remaining(Apply(s, Exit(flushOk))) < Remaining(s)
    ensures AllGone(s) ==> AllGone(Apply(s, Exit(flushOk)))
  {
    NoCallMoves(s, Apply(s, Exit(flushOk)));
  }

  /** With no producer left the internal steps stop nobody and end nothing. */
  lemma InternalKeepsRunning(s: System, e: Event)
    requires Shape(s) && Cascade(s) && Enabled(s, e) && Internal(e) && AllGone(s)
    ensures var t := Apply(s, e);
            && t.producers == s.producers && t.running == s.running
            && |t.forwarders| == |s.forwarders|
            && forall i :: 0 <= i < |s.forwarders| ==> t.forwarders[i].Stopped? == s.forwarders[i].Stopped?
  {
    NobodyMeetsAClosedChannel(s);
  }

  lemma ClosingStepLowers(s: System, e: Event)
    requires Inv(s) && Enabled(s, e) && Closing(e) && AllGone(s)
    ensures Inv(Apply(s, e)) && AllGone(Apply(s, e)) && Remaining(Apply(s, e)) < Remaining(s)
  {
    InvKept(s, e);
    if e.Stop? {
      StopLowers(s, e.i);
    } else if e.Exit? {
      ExitLowers(s, e.flushOk);
    } else {
      InternalKeepsRunning(s, e);
      InternalStepLowersLoad(s, e);
    }
  }

  /** As long as the worker runs, some such step is possible. */
  lemma ShutdownGoesOn(s: System) returns (e: Event)
    requires Inv(s) && AllGone(s) && s.running
    ensures Closing(e) && Enabled(s, e)
  {
    if Load(s) > 0 {
      e := SomeStepIsEnabled(s);
      return;
    }
    e := if !s.forwarders[3].Stopped? then Stop(3)
         else if !s.forwarders[2].Stopped? then Stop(2)
         else if !s.forwarders[1].Stopped? then Stop(1)
         else if !s.forwarders[0].Stopped? then Stop(0)
         else Exit(true);
  }

  lemma {:induction false} ClosingRunCounts(s: System, es: seq<Event>)
    requires Inv(s) && AllGone(s) && Runnable(s, es) && forall e :: e in es ==> Closing(e)
    ensures Inv(Run(s, es)) && AllGone(Run(s, es)) && |es| + Remaining(Run(s, es)) <= Remaining(s)
    decreases |es|
  {
    if es != [] {
      ClosingStepLowers(s, es[0]);
      assert forall e :: e in es[1..] ==> e in es;
      ClosingRunCounts(Apply(s, es[0]), es[1..]);
    }
  }

  /** Once every handle is dropped: any schedule of the steps that are left takes at most `Remaining(s)` of them and
      can go on until the worker has ended; then nothing is left anywhere and nobody waits. */
  lemma ShutdownEnds(s: System, es: seq<Event>)
    requires Inv(s) && AllGone(s) && Runnable(s, es) && forall e :: e in es ==> Closing(e)
    ensures var t := Run(s, es);
            && Inv(t) && |es| + Remaining(t) <= Remaining(s)
            && (t.running ==> exists e :: Closing(e) && Enabled(t, e))
            && (!t.running ==> Drained(t) && t.worker.buf == [] && t.worker.pending == [])
  {
    ClosingRunCounts(s, es);
    var t := Run(s, es);
    if t.running {
      var e := ShutdownGoesOn(t);
    } else {
      ClosedPrimaryMeansDrained(t);
      DrainedMeansAnswered(t);
    }
  }
}
