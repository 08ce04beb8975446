/** Exactly when a flush waits for every batch enqueued before it, the case of a primary channel with a single slot
    included: what its forwarder holds in line for that slot cannot be overtaken. */
module FlushGapExact {
  import opened Multisets
  import opened WriterWorker
  import opened WriterPipeline
  import opened PipelineInvariants
  import opened PipelineLines
  import opened PipelineTheorems
  import opened PipelinePromises
  import opened FlushGap

  /** Nothing waits outside the primary channel, but for a command that is next in it for certain. */
  predicate NothingToOvertake(s: System)
    requires |s.caps| == |s.lines| == TIERS && |s.forwarders| == TIERS - 1
  {
    && (forall t :: 1 <= t < |s.queues| ==> s.queues[t] == [])
    && (forall i :: 1 <= i < |s.forwarders| ==> !s.forwarders[i].Holding?)
    && (s.forwarders[0].Holding? ==> !Overtakable(s))
  }

  // ---- places in a line ---------------------------------------------------------------------------------------

  lemma {:induction false} PlaceAppend(line: seq<Waiter>, x: Waiter, a: Waiter)
    requires a in line
    ensures PlaceOf(line + [x], a) == PlaceOf(line, a) < |line|
  {
    if line[0] != a {
      assert (line + [x])[1..] == line[1..] + [x];
      PlaceAppend(line[1..], x, a);
    }
  }

  lemma {:induction false} NewPlace(line: seq<Waiter>, x: Waiter)
    requires x !in line
    ensures PlaceOf(line + [x], x) == |line|
  {
    if line != [] {
      assert (line + [x])[1..] == line[1..] + [x];
      NewPlace(line[1..], x);
    }
  }

  lemma {:induction false} OrderKept(line: seq<Waiter>, w: Waiter, a: Waiter, b: Waiter)
    requires a in line && b in line && a != w && b != w && PlaceOf(line, a) < PlaceOf(line, b)
    ensures a in Without(line, w) && b in Without(line, w)
    ensures PlaceOf(Without(line, w), a) < PlaceOf(Without(line, w), b)
  {
    if line[0] == w {
    } else if line[0] == a {
      StillIn(line[1..], w, b);
    } else {
      OrderKept(line[1..], w, a, b);
      assert ([line[0]] + Without(line[1..], w))[1..] == Without(line[1..], w);
    }
  }

  lemma {:induction false} StillIn(line: seq<Waiter>, w: Waiter, a: Waiter)
    requires a in line && a != w
    ensures a in Without(line, w)
  {
    if line[0] != w && line[0] != a {
      StillIn(line[1..], w, a);
    }
  }

  // ---- a command in line for the only slot stays ahead -------------------------------------------------------------

  /** Forwarder 0 stands in line for a single slot with command `h`, before `p` if `p` is in line at all. */
  predicate StillAhead(s: System, p: nat, h: Command)
    requires |s.caps| == |s.lines| == TIERS && |s.forwarders| == TIERS - 1
  {
    && s.caps[0] == 1 && s.forwarders[0] == Holding(h) && Forwarding in s.lines[0]
    && (Calling(p) in s.lines[0] ==> PlaceOf(s.lines[0], Forwarding) < PlaceOf(s.lines[0], Calling(p)))
  }

  /** Wherever the flush `p` awaits stands in the primary channel's history, `h` stands before it. */
  ghost predicate Before(s: System, p: nat, h: Command) {
    p < |s.producers| && s.producers[p].AwaitingFlush? ==>
      forall k :: 0 <= k < |s.primaryIn| && s.primaryIn[k] == Flush(s.producers[p].ticket) ==> h in s.primaryIn[..k]
  }

  ghost predicate Ahead(s: System, p: nat, h: Command)
    requires |s.caps| == |s.lines| == TIERS && |s.forwarders| == TIERS - 1
  {
    && p < |s.producers| && !h.Flush?
    && (h in s.primaryIn || StillAhead(s, p, h))
    && Before(s, p, h)
  }

  /** Steps that neither touch a line nor put anything into the primary channel. */
  predicate Aside(e: Event) {
    LeavesLines(e) && !e.TryTier?
  }

  lemma AsideByProducer(s: System, e: Event, p: nat)
    requires Shape(s) && Enabled(s, e) && Aside(e) && ByProducer(e) && p < |s.producers|
    ensures var t := Apply(s, e);
            && t.primaryIn == s.primaryIn && t.lines == s.lines && t.forwarders == s.forwarders && t.caps == s.caps
            && p < |t.producers| && (t.producers[p].AwaitingFlush? ==> t.producers[p] == s.producers[p])
  {
  }

  lemma AsideInside(s: System, e: Event)
    requires Shape(s) && Enabled(s, e) && Aside(e) && !ByProducer(e)
    ensures var t := Apply(s, e);
            && t.primaryIn == s.primaryIn && t.lines == s.lines && t.caps == s.caps && t.producers == s.producers
            && (s.forwarders[0].Holding? ==> t.forwarders[0] == s.forwarders[0])
  {
  }

  lemma AsideKeepsAhead(s: System, e: Event, p: nat, h: Command)
    requires Shape(s) && Enabled(s, e) && Aside(e) && Ahead(s, p, h)
    ensures Shape(Apply(s, e)) && Ahead(Apply(s, e), p, h)
  {
    ApplyShape(s, e);
    if ByProducer(e) {
      AsideByProducer(s, e, p);
    } else {
      AsideInside(s, e);
    }
  }

  /** One more command in the primary channel, other than the flush `p` awaits. */
  lemma GrowKeepsBefore(s: System, t: System, p: nat, h: Command, c: Command)
    requires Before(s, p, h) && p < |s.producers| && p < |t.producers| && t.primaryIn == s.primaryIn + [c]
    requires t.producers[p].AwaitingFlush? ==> t.producers[p] == s.producers[p] && c != Flush(t.producers[p].ticket)
    ensures Before(t, p, h)
  {
    assert forall k :: 0 <= k < |s.primaryIn| ==>
                         t.primaryIn[k] == s.primaryIn[k] && t.primaryIn[..k] == s.primaryIn[..k];
  }

  lemma OfferFacts(s: System, q: nat)
    requires Shape(s) && Enabled(s, TryTier(q))
    ensures var t, c := Apply(s, TryTier(q)), s.producers[q].command;
            && t.lines == s.lines && t.forwarders == s.forwarders && t.caps == s.caps && !c.Flush?
            && |t.producers| == |s.producers| && !t.producers[q].AwaitingFlush?
            && (forall p :: 0 <= p < |s.producers| && p != q ==> t.producers[p] == s.producers[p])
            && (t.primaryIn == s.primaryIn || t.primaryIn == s.primaryIn + [c])
  {
  }

  lemma OfferKeepsAhead(s: System, q: nat, p: nat, h: Command)
    requires Shape(s) && Enabled(s, TryTier(q)) && Ahead(s, p, h)
    ensures Shape(Apply(s, TryTier(q))) && Ahead(Apply(s, TryTier(q)), p, h)
  {
    ApplyShape(s, TryTier(q));
    OfferFacts(s, q);
    var t := Apply(s, TryTier(q));
    if t.primaryIn != s.primaryIn {
      GrowKeepsBefore(s, t, p, h, s.producers[q].command);
    }
  }

  lemma PassFacts(s: System, i: nat)
    requires Inv(s) && Enabled(s, Pass(i))
    ensures var t, c := Apply(s, Pass(i)), s.forwarders[i].command;
            && t.producers == s.producers && t.caps == s.caps && !c.Flush?
            && t.primaryIn == (if i == 0 then s.primaryIn + [c] else s.primaryIn)
            && (i > 0 ==> t.forwarders[0] == s.forwarders[0] && t.lines[0] == s.lines[0])
  {
    NobodyMeetsAClosedChannel(s);
  }

  lemma PassKeepsAhead(s: System, i: nat, p: nat, h: Command)
    requires Inv(s) && Enabled(s, Pass(i)) && Ahead(s, p, h)
    ensures Shape(Apply(s, Pass(i))) && Ahead(Apply(s, Pass(i)), p, h)
  {
    ApplyShape(s, Pass(i));
    PassFacts(s, i);
    if i == 0 {
      GrowKeepsBefore(s, Apply(s, Pass(i)), p, h, s.forwarders[i].command);
    }
  }

  lemma JoinKeepsAhead(s: System, i: nat, w: Waiter, p: nat, h: Command)
    requires Shape(s) && i < TIERS && w !in s.lines[i] && Ahead(s, p, h)
    ensures Ahead(Join(s, i, w), p, h)
  {
    if i == 0 && StillAhead(s, p, h) {
      PlaceAppend(s.lines[0], w, Forwarding);
      if Calling(p) in s.lines[0] {
        PlaceAppend(s.lines[0], w, Calling(p));
      } else if w == Calling(p) {
        NewPlace(s.lines[0], w);
      }
    }
  }

  lemma LeaveKeepsAhead(s: System, t: System, q: nat, p: nat, h: Command)
    requires |s.caps| == |s.lines| == TIERS && |s.forwarders| == TIERS - 1 && OnceEach(s.lines[0])
    requires StillAhead(s, p, h) && t.caps == s.caps && t.forwarders == s.forwarders
    requires t.lines == s.lines[0 := Without(s.lines[0], Calling(q))]
    ensures StillAhead(t, p, h)
  {
    WithoutExact(s.lines[0], Calling(q));
    if Calling(p) in t.lines[0] {
      OrderKept(s.lines[0], Calling(q), Forwarding, Calling(p));
    }
  }

  lemma CancelKeepsAhead(s: System, q: nat, p: nat, h: Command)
    requires Inv(s) && Enabled(s, CancelFlush(q)) && Ahead(s, p, h)
    ensures Shape(Apply(s, CancelFlush(q))) && Ahead(Apply(s, CancelFlush(q)), p, h)
  {
    ApplyShape(s, CancelFlush(q));
    assert OnceEach(s.lines[0]);
    if StillAhead(s, p, h) {
      LeaveKeepsAhead(s, Apply(s, CancelFlush(q)), q, p, h);
    }
  }

  /** `p` cannot enter before the forwarder. */
  lemma NotYet(s: System, p: nat, h: Command)
    requires Shape(s) && StillAhead(s, p, h)
    ensures !MayEnter(s, 0, Calling(p))
  {
  }

  lemma SendFlushFacts(s: System, q: nat)
    requires Inv(s) && Enabled(s, SendFlush(q))
    ensures var t, c := Apply(s, SendFlush(q)), Flush(Ticket(s.producers[q].target, |s.flushes|));
            && MayEnter(s, 0, Calling(q)) && t.primaryIn == s.primaryIn + [c]
            && t.producers == s.producers[q := AwaitingFlush(c.ticket)] && t.caps == s.caps
            && t.forwarders == s.forwarders && t.lines == s.lines[0 := Without(s.lines[0], Calling(q))]
            && c !in s.primaryIn
            && (forall p :: 0 <= p < |s.producers| && s.producers[p].AwaitingFlush? ==>
                  c != Flush(s.producers[p].ticket))
  {
    NobodyMeetsAClosedChannel(s);
    assert !s.producers[q].Gone? && !Closed(s, 0);
    var ticket := Ticket(s.producers[q].target, |s.flushes|);
    if Flush(ticket) in s.primaryIn {
      NoOldTicketInPrimary(s, ticket);
    }
    forall p | 0 <= p < |s.producers| && s.producers[p].AwaitingFlush?
      ensures Flush(ticket) != Flush(s.producers[p].ticket)
    {
      assert Flush(s.producers[p].ticket) in s.flushes;
    }
  }

  lemma SendFlushKeepsAhead(s: System, q: nat, p: nat, h: Command)
    requires Inv(s) && Enabled(s, SendFlush(q)) && Ahead(s, p, h)
    ensures Shape(Apply(s, SendFlush(q))) && Ahead(Apply(s, SendFlush(q)), p, h)
  {
    ApplyShape(s, SendFlush(q));
    SendFlushFacts(s, q);
    var t, c := Apply(s, SendFlush(q)), Flush(Ticket(s.producers[q].target, |s.flushes|));
    assert OnceEach(s.lines[0]);
    if StillAhead(s, p, h) {
      NotYet(s, p, h);
      if q != p {
        LeaveKeepsAhead(s, t, q, p, h);
      }
    }
    if q == p {
      FirstOfItsKind(s.primaryIn, c, h);
    } else {
      GrowKeepsBefore(s, t, p, h, c);
    }
  }

  lemma FirstOfItsKind(log: seq<Command>, c: Command, h: Command)
    requires c !in log && h in log
    ensures forall k :: 0 <= k < |log + [c]| && (log + [c])[k] == c ==> h in (log + [c])[..k]
  {
    assert (log + [c])[..|log|] == log;
    assert forall k :: 0 <= k < |log| ==> log[k] in log;
  }

  lemma AheadKept(s: System, e: Event, p: nat, h: Command)
    requires Inv(s) && Enabled(s, e) && Ahead(s, p, h)
    ensures Shape(Apply(s, e)) && Ahead(Apply(s, e), p, h)
  {
    ApplyShape(s, e);
    if e.TryTier? {
      OfferKeepsAhead(s, e.p, p, h);
    } else if e.WaitCall? {
      JoinKeepsAhead(s, 0, Calling(e.p), p, h);
    } else if e.WaitForward? {
      JoinKeepsAhead(s, e.i, Forwarding, p, h);
    } else if e.SendFlush? {
      SendFlushKeepsAhead(s, e.p, p, h);
    } else if e.CancelFlush? {
      CancelKeepsAhead(s, e.p, p, h);
    } else if e.Pass? {
      PassKeepsAhead(s, e.i, p, h);
    } else {
      AsideKeepsAhead(s, e, p, h);
    }
  }

  lemma {:induction false} AheadRun(s: System, es: seq<Event>, p: nat, h: Command)
    requires Inv(s) && Runnable(s, es) && Ahead(s, p, h)
    ensures Inv(Run(s, es)) && Ahead(Run(s, es), p, h)
    decreases |es|
  {
    if es != [] {
      InvKept(s, es[0]);
      AheadKept(s, es[0], p, h);
      AheadRun(Apply(s, es[0]), es[1..], p, h);
    }
  }

  /** The command in line for the only slot enters before the flush, so it is observed when the flush is answered. */
  lemma HandWasSeen(s: System, t: System, p: nat, h: Command)
    requires Inv(t) && AnsweredFor(t, p) && Before(t, p, h)
    ensures h in t.observed
  {
    AheadIsObserved(t, t.producers[p].ticket);
    var k :| 0 <= k < |t.observed| && t.primaryIn[k] == Flush(t.producers[p].ticket) && t.primaryIn[..k] <= t.observed;
    assert h in t.primaryIn[..k];
  }

  lemma LandedInPrimaryOrHand(s: System, c: Command)
    requires Inv(s) && NothingToOvertake(s) && Landed(s, c)
    ensures c in s.primaryIn || s.forwarders[0] == Holding(c)
  {
    LandedIsInPipeOrObserved(s, c);
    if c !in s.observed {
      if c in Queued(s) {
        var t := GatherWitness(s.queues, QueueItems, c);
        assert t == 0;
      } else {
        var i := GatherWitness(s.forwarders, HandItems, c);
        assert i == 0;
      }
    }
  }

  lemma WaitsForTheHand(s: System, p: nat, es: seq<Event>, h: Command)
    requires Inv(s) && p < |s.producers| && s.producers[p].Idle? && NothingToOvertake(s)
    requires s.forwarders[0] == Holding(h)
    requires Runnable(s, [BeginFlush(p)] + es) && AnsweredFor(Run(s, [BeginFlush(p)] + es), p)
    ensures AllObserved(s, Run(s, [BeginFlush(p)] + es))
  {
    var all := [BeginFlush(p)] + es;
    assert all[0] == BeginFlush(p) && all[1..] == es;
    BeganFlush(s, p);
    BeginFlushStarts(s, p);
    var begun := Apply(s, BeginFlush(p));
    TicketSinceRun(begun, es, p, |s.flushes|);
    var t := Run(begun, es);
    AheadRun(begun, es, p, h);
    HandWasSeen(s, t, p, h);
    forall c | Landed(s, c) ensures c in t.observed {
      LandedInPrimaryOrHand(s, c);
      if c in s.primaryIn {
        PrimaryWasSeen(s, t, p, c);
      }
    }
  }

  // ---- anything else staged is overtaken --------------------------------------------------------------------

  ghost predicate SameOuterStage(s: System, t: System) {
    && |t.queues| == |s.queues| > 0 && t.queues[1..] == s.queues[1..]
    && |t.forwarders| == |s.forwarders| > 0 && t.forwarders[1..] == s.forwarders[1..]
  }

  /** `t` is `s` after steps of the worker, of callers and of forwarder 0 only. */
  ghost predicate Cleared(s: System, t: System) {
    && Inv(t) && t.running && SameOuterStage(s, t) && t.caps == s.caps
    && s.issued <= t.issued && s.enqueuedSeq == t.enqueuedSeq
  }

  lemma ForwarderEnters(s: System) returns (es: seq<Event>)
    requires Inv(s) && s.running && s.queues[0] == [] && s.lines[0] != [] && s.lines[0][0].Forwarding?
    ensures Runnable(s, es) && NoFlushBegun(es)
    ensures Cleared(s, Run(s, es)) && Run(s, es).queues[0] == [] && Run(s, es).producers == s.producers
    ensures Run(s, es).lines == s.lines[0 := Without(s.lines[0], Forwarding)]
  {
    FirstMayEnter(s, 0);
    assert s.lines[0][0] in s.lines[0] && WaitsIn(s, 0, Forwarding);
    InvKept(s, Pass(0));
    var t := Apply(s, Pass(0));
    var rest := DrainPrimary(t);
    RunFirst(s, Pass(0), rest);
    es := [Pass(0)] + rest;
  }

  lemma FirstCallerEnters(s: System, p: nat) returns (es: seq<Event>)
    requires Inv(s) && s.running && s.queues[0] == [] && s.lines[0] != [] && s.lines[0][0].Calling?
    requires p < |s.producers| && Calling(p) !in s.lines[0]
    ensures Runnable(s, es) && NoFlushBegun(es)
    ensures Cleared(s, Run(s, es)) && Run(s, es).queues[0] == []
    ensures p < |Run(s, es).producers| && Run(s, es).producers[p] == s.producers[p]
    ensures Run(s, es).lines == s.lines[0 := Without(s.lines[0], s.lines[0][0])]
  {
    FirstMayEnter(s, 0);
    assert s.lines[0][0] in s.lines[0] && WaitsIn(s, 0, s.lines[0][0]);
    es := LetIn(s, s.lines[0][0].p);
  }

  /** The line before the primary channel moves up until the forwarder is through. */
  lemma {:induction false} LetForwarderIn(s: System, p: nat) returns (es: seq<Event>)
    requires Inv(s) && s.running && s.queues[0] == [] && p < |s.producers| && Calling(p) !in s.lines[0]
    ensures Runnable(s, es) && NoFlushBegun(es)
    ensures Cleared(s, Run(s, es)) && Forwarding !in Run(s, es).lines[0] && Calling(p) !in Run(s, es).lines[0]
    ensures p < |Run(s, es).producers| && Run(s, es).producers[p] == s.producers[p]
    decreases |s.lines[0]|
  {
    assert OnceEach(s.lines[0]);
    if Forwarding !in s.lines[0] {
      es := [];
    } else if s.lines[0][0].Forwarding? {
      WithoutExact(s.lines[0], Forwarding);
      es := ForwarderEnters(s);
    } else {
      WithoutExact(s.lines[0], s.lines[0][0]);
      var es1 := FirstCallerEnters(s, p);
      var es2 := LetForwarderIn(Run(s, es1), p);
      RunAppend(s, es1, es2);
      es := es1 + es2;
    }
  }

  lemma ClearTheWay(s: System, p: nat) returns (es: seq<Event>)
    requires Inv(s) && s.running && p < |s.producers| && Calling(p) !in s.lines[0]
    ensures Runnable(s, es) && NoFlushBegun(es)
    ensures Cleared(s, Run(s, es)) && Overtakable(Run(s, es)) && Calling(p) !in Run(s, es).lines[0]
    ensures p < |Run(s, es).producers| && Run(s, es).producers[p] == s.producers[p]
  {
    var es1 := DrainPrimary(s);
    var es2 := LetForwarderIn(Run(s, es1), p);
    RunAppend(s, es1, es2);
    es := es1 + es2;
  }

  /** `p` is answered and everything beyond forwarder 0 is where it was. */
  lemma OuterRun(s: System, p: nat) returns (es: seq<Event>)
    requires Inv(s) && s.running && p < |s.producers| && s.producers[p] == SendingFlush(s.enqueuedSeq)
    requires Calling(p) !in s.lines[0]
    ensures Runnable(s, es) && BeginFlush(p) !in es
    ensures var t := Run(s, es); Inv(t) && AnsweredFor(t, p) && SameOuterStage(s, t) && s.issued <= t.issued
  {
    var es1 := ClearTheWay(s, p);
    var es2 := OvertakingRun(Run(s, es1), p);
    RunAppend(s, es1, es2);
    es := es1 + es2;
  }

  /** Something waits beyond forwarder 0. */
  predicate OuterStaged(s: System) {
    || (exists t :: 1 <= t < |s.queues| && s.queues[t] != [])
    || (exists i :: 1 <= i < |s.forwarders| && s.forwarders[i].Holding?)
  }

  lemma OuterCommand(s: System, t: System) returns (c: Command)
    requires Inv(s) && Inv(t) && SameOuterStage(s, t) && OuterStaged(s)
    ensures !c.Flush? && Queued(s)[c] + InHand(s)[c] > 0 && Queued(t)[c] + InHand(t)[c] > 0
  {
    if i :| 1 <= i < |s.forwarders| && s.forwarders[i].Holding? {
      c := s.forwarders[i].command;
      assert t.forwarders[1..][i - 1] == s.forwarders[1..][i - 1];
      InHandWitness(s, i);
      InHandWitness(t, i);
    } else {
      var q :| 1 <= q < |s.queues| && s.queues[q] != [];
      c := s.queues[q][0];
      assert t.queues[1..][q - 1] == s.queues[1..][q - 1];
      QueuedWitness(s, q, c);
      QueuedWitness(t, q, c);
    }
  }

  lemma OuterIsNotObserved(s: System, t: System)
    requires Inv(s) && Inv(t) && SameOuterStage(s, t) && s.issued <= t.issued && OuterStaged(s)
    ensures exists c :: Landed(s, c) && c !in t.observed
  {
    var c := OuterCommand(s, t);
    InPipeIsLanded(s, c);
    CountByNumber(t.issued, 1, c);
    ExactlyOnePlace(t, c.seqNo);
  }

  lemma OuterBreaksThePromise(s: System, p: nat)
    requires Inv(s) && p < |s.producers| && s.producers[p].Idle? && OuterStaged(s)
    ensures !FlushWaitsForAll(s, p)
  {
    BeganFlush(s, p);
    var es := OuterRun(Apply(s, BeginFlush(p)), p);
    RunFirst(s, BeginFlush(p), es);
    OuterIsNotObserved(s, Run(s, [BeginFlush(p)] + es));
  }

  // ---- exactly when -----------------------------------------------------------------------------------------

  lemma NothingToOvertakeKeepsThePromise(s: System, p: nat, es: seq<Event>)
    requires Inv(s) && p < |s.producers| && s.producers[p].Idle? && NothingToOvertake(s)
    requires Runnable(s, [BeginFlush(p)] + es) && AnsweredFor(Run(s, [BeginFlush(p)] + es), p)
    ensures AllObserved(s, Run(s, [BeginFlush(p)] + es))
  {
    if s.forwarders[0].Holding? {
      WaitsForTheHand(s, p, es, s.forwarders[0].command);
    } else {
      WaitsWhenNothingStaged(s, p, es);
    }
  }

  /** The documented promise holds for a flush begun in `s` if and only if, at that moment, nothing is staged outside
      the primary channel; but for what forwarder 0 holds when it stands in line for a single slot. */
  lemma FlushWaitsForAllExactly(s: System, p: nat)
    requires Inv(s) && p < |s.producers| && s.producers[p].Idle?
    ensures FlushWaitsForAll(s, p) <==> NothingToOvertake(s)
  {
    if NothingToOvertake(s) {
      forall es | Runnable(s, [BeginFlush(p)] + es) && BeginFlush(p) !in es
                  && AnsweredFor(Run(s, [BeginFlush(p)] + es), p)
        ensures AllObserved(s, Run(s, [BeginFlush(p)] + es))
      {
        NothingToOvertakeKeepsThePromise(s, p, es);
      }
    } else if OuterStaged(s) {
      OuterBreaksThePromise(s, p);
    } else {
      StagedBreaksThePromise(s, p);
    }
  }

  /** With more than one slot in the primary channel, as shipped, nothing at all may be staged. */
  lemma FlushWaitsForAllWithSlots(s: System, p: nat)
    requires Inv(s) && p < |s.producers| && s.producers[p].Idle? && s.caps[0] > 1
    ensures FlushWaitsForAll(s, p) <==> NothingStaged(s)
  {
    FlushWaitsForAllExactly(s, p);
  }
}
