/** Who waits in the lines of the writer pipeline's channels. */
module PipelineLines {
  import opened WriterPipeline

  ghost predicate OnceEach(line: seq<Waiter>) {
    forall j, k :: 0 <= j < k < |line| ==> line[j] != line[k]
  }

  /** `w` is one who may wait for the channel of tier `t`: the forwarder that holds a command for it or, for the
      primary channel, a caller that sends a flush. */
  predicate WaitsIn(s: System, t: nat, w: Waiter) {
    match w
    case Forwarding => t < |s.forwarders| && s.forwarders[t].Holding?
    case Calling(p) => t == 0 && p < |s.producers| && s.producers[p].SendingFlush?
  }

  /** Everyone in a line waits for that channel, and once. */
  ghost predicate Orderly(s: System) {
    forall t :: 0 <= t < |s.lines| ==> OnceEach(s.lines[t]) && forall w :: w in s.lines[t] ==> WaitsIn(s, t, w)
  }

  lemma {:induction false} WithoutExact(line: seq<Waiter>, w: Waiter)
    requires OnceEach(line)
    ensures OnceEach(Without(line, w))
    ensures forall x :: x in Without(line, w) <==> x in line && x != w
    ensures |Without(line, w)| == |line| - if w in line then 1 else 0
  {
    if line != [] {
      WithoutExact(line[1..], w);
      assert line == [line[0]] + line[1..];
      var rest := Without(line[1..], w);
      assert forall k :: 0 <= k < |rest| ==> rest[k] in rest;
    }
  }

  lemma JoinKeeps(s: System, t: nat, w: Waiter)
    requires Orderly(s) && t < |s.lines| && w !in s.lines[t] && WaitsIn(s, t, w)
    ensures Orderly(Join(s, t, w))
  {
    var line := s.lines[t] + [w];
    assert forall k :: 0 <= k < |s.lines[t]| ==> s.lines[t][k] in s.lines[t];
    assert OnceEach(line);
  }

  /** `u` is `s` after a step that lets `w` into the channel of tier `t`, or lets it give up. */
  lemma LeaveKeeps(s: System, u: System, t: nat, w: Waiter)
    requires Orderly(s) && u.lines == s.lines && t < |s.lines|
    requires forall r, x :: WaitsIn(s, r, x) && !(r == t && x == w) ==> WaitsIn(u, r, x)
    ensures Orderly(Leave(u, t, w))
  {
    WithoutExact(s.lines[t], w);
    var v := Leave(u, t, w);
    forall r | 0 <= r < |v.lines| ensures OnceEach(v.lines[r]) && forall x :: x in v.lines[r] ==> WaitsIn(v, r, x) {
      assert OnceEach(s.lines[r]);
      forall x | x in v.lines[r] ensures WaitsIn(v, r, x) {
        assert x in s.lines[r] && WaitsIn(s, r, x);
        assert WaitsIn(u, r, x);
      }
    }
  }

  /** The events that change nobody's place in a line. */
  predicate LeavesLines(e: Event) {
    !e.WaitCall? && !e.SendFlush? && !e.CancelFlush? && !e.WaitForward? && !e.Pass?
  }

  lemma OfferLeavesLines(s: System, p: nat)
    requires Shape(s) && Enabled(s, TryTier(p))
    ensures Apply(s, TryTier(p)).lines == s.lines
    ensures forall t, w :: WaitsIn(s, t, w) ==> WaitsIn(Apply(s, TryTier(p)), t, w)
  {
  }

  lemma ProducersLeaveLines(s: System, e: Event)
    requires Shape(s) && Enabled(s, e) && LeavesLines(e) && ByProducer(e) && !e.TryTier?
    ensures Apply(s, e).lines == s.lines
    ensures forall t, w :: WaitsIn(s, t, w) ==> WaitsIn(Apply(s, e), t, w)
  {
  }

  lemma OthersLeaveLines(s: System, e: Event)
    requires Shape(s) && Enabled(s, e) && LeavesLines(e)
    ensures Apply(s, e).lines == s.lines
    ensures forall t, w :: WaitsIn(s, t, w) ==> WaitsIn(Apply(s, e), t, w)
  {
    if e.TryTier? {
      OfferLeavesLines(s, e.p);
    } else if ByProducer(e) {
      ProducersLeaveLines(s, e);
    }
  }

  lemma SendFlushOrderly(s: System, p: nat)
    requires Shape(s) && Enabled(s, SendFlush(p)) && Orderly(s)
    ensures Orderly(Apply(s, SendFlush(p)))
  {
    LeaveKeeps(s, EnterFlush(s, p, s.producers[p].target), 0, Calling(p));
  }

  lemma CancelFlushOrderly(s: System, p: nat)
    requires Shape(s) && Enabled(s, CancelFlush(p)) && Orderly(s)
    ensures Orderly(Apply(s, CancelFlush(p)))
  {
    LeaveKeeps(s, SetProducer(s, p, Idle), 0, Calling(p));
  }

  lemma PassOrderly(s: System, i: nat)
    requires Shape(s) && Enabled(s, Pass(i)) && Orderly(s)
    ensures Orderly(Apply(s, Pass(i)))
  {
    LeaveKeeps(s, Forward(s, i, s.forwarders[i].command), i, Forwarding);
  }

  lemma OrderlyKept(s: System, e: Event)
    requires Shape(s) && Enabled(s, e) && Orderly(s)
    ensures Orderly(Apply(s, e))
  {
    if e.WaitCall? {
      JoinKeeps(s, 0, Calling(e.p));
    } else if e.WaitForward? {
      JoinKeeps(s, e.i, Forwarding);
    } else if e.SendFlush? {
      SendFlushOrderly(s, e.p);
    } else if e.CancelFlush? {
      CancelFlushOrderly(s, e.p);
    } else if e.Pass? {
      PassOrderly(s, e.i);
    } else {
      OthersLeaveLines(s, e);
    }
  }

  lemma InitOrderly(caps: seq<nat>)
    ensures Orderly(Init(caps))
  {
    assert forall t :: 0 <= t < TIERS ==> Init(caps).lines[t] == [];
  }

  // ---- who may enter ------------------------------------------------------------------------------------------

  /** No slot is promised twice: a slot is promised to the first of a line whenever the channel is not full. */
  lemma FirstMayEnter(s: System, t: nat)
    requires Shape(s) && t < TIERS && s.lines[t] != [] && |s.queues[t]| < s.caps[t]
    ensures MayEnter(s, t, s.lines[t][0])
  {
  }

  lemma Different(line: seq<Waiter>, j: nat, k: nat)
    requires OnceEach(line) && j < k < |line|
    ensures line[j] != line[k]
  {
  }
}
