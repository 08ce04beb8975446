/** The control plane: the keep-latest lane drained by a worker that coalesces updates per key before it
    applies them. */
module ControlPlane {
  import opened Multisets
  import Lane = KeepLatestLane

  /** An update waits under its symbol and exchange. */
  type Key = (string, string)
  datatype Quote = Quote(id: nat)
  type Message = Lane.Message<Key, Quote>

  /** The worker's place in its loop. */
  datatype Phase = Waiting | Draining(forced: bool) | Flushing(forced: bool) | Done

  datatype Plane = Plane(
    lane: Lane.Lane<Key, Quote>,
    maxBatch: nat,
    phase: Phase,
    pending: map<Key, Message>,
    closing: bool,
    applied: multiset<Message>,
    replaced: multiset<Message>)   // overridden while pending, dropped and counted by the worker

  datatype Event =
    | InLane(e: Lane.Event<Key, Quote>)
    | QueuePending                     // the received update enters the pending map
    | TimerTick
    | ChannelClosed                    // no sender is left and the channel is empty
    | DrainOverflow
    | Flush

  ghost predicate Enabled(c: Plane, e: Event) {
    match e
    case InLane(le) =>
      && Lane.Enabled(c.lane, le)
      && !le.Finish? && !le.Drain? && !le.PopOverflow? && !le.Block?
      && (le.Recv? ==> c.phase.Waiting?)
    case QueuePending => c.phase.Waiting? && c.lane.taken.Processing?
    case TimerTick => c.phase.Waiting? && c.lane.open && c.lane.taken.Nothing?
    case ChannelClosed => c.phase.Waiting? && c.lane.open && c.lane.taken.Nothing? && c.lane.channel == []
    case DrainOverflow => c.phase.Draining? && c.lane.open
    case Flush => c.phase.Flushing?
  }

  ghost function Apply(c: Plane, e: Event): Plane
    requires Enabled(c, e)
  {
    match e
    case InLane(le) => c.(lane := Lane.Apply(c.lane, le))
    case QueuePending =>
      var m := c.lane.taken.m;
      c.(lane := Lane.Apply(c.lane, Lane.Finish),
         pending := c.pending[m.key := m],
         replaced := c.replaced + (if m.key in c.pending then multiset{c.pending[m.key]} else multiset{}),
         phase := Draining(false))
    case TimerTick => c.(phase := Draining(true))
    case ChannelClosed => c.(phase := Draining(true), closing := true)
    case DrainOverflow =>
      c.(lane := Lane.Apply(c.lane, Lane.Drain),
         pending := c.pending + c.lane.overflow,
         replaced := c.replaced + Values(Overridden(c.pending, c.lane.overflow)),
         phase := Flushing(c.phase.forced))
    case Flush =>
      var idle := if c.closing then Done else Waiting;
      if c.phase.forced || |c.pending| >= c.maxBatch
      then c.(applied := c.applied + Values(c.pending), pending := map[], phase := idle)
      else c.(phase := idle)
  }

  ghost function Init(cap: nat, open: bool, maxBatch: nat): Plane {
    Plane(Lane.Init(cap, open), maxBatch, Waiting, map[], false, multiset{}, multiset{})
  }

  /** What the worker took from the lane was applied, is pending, or was overridden while pending. */
  ghost predicate Balanced(c: Plane) {
    c.lane.delivered == c.applied + Values(c.pending) + c.replaced
  }

  ghost predicate Inv(c: Plane) {
    Lane.Inv(c.lane) && Balanced(c)
  }

  lemma QueuePendingBalanced(c: Plane)
    requires Balanced(c) && Enabled(c, QueuePending)
    ensures Balanced(Apply(c, QueuePending))
  {
    var m := c.lane.taken.m;
    ValuesInsert(c.pending, m.key, m);
    var pending := Values(c.pending[m.key := m]);
    if m.key in c.pending {
      Regroup(c.applied, Values(c.pending), c.replaced, multiset{m}, pending, multiset{c.pending[m.key]});
    } else {
      Regroup(c.applied, Values(c.pending), c.replaced, multiset{m}, pending, multiset{});
    }
  }

  /** New items that join the pending ones and push some out. */
  lemma Regroup(applied: multiset<Message>, pending: multiset<Message>, replaced: multiset<Message>,
                joining: multiset<Message>, pending': multiset<Message>, out: multiset<Message>)
    requires out + pending' == joining + pending
    ensures applied + pending + replaced + joining == applied + pending' + (replaced + out)
  {
    assert applied + pending + replaced + joining == applied + replaced + (joining + pending);
  }

  lemma DrainBalanced(c: Plane)
    requires Balanced(c) && Enabled(c, DrainOverflow)
    ensures Balanced(Apply(c, DrainOverflow))
  {
    var over := c.lane.overflow;
    ValuesMerge(c.pending, over);
    var merged, lost := Values(c.pending + over), Values(Overridden(c.pending, over));
    assert lost + merged == merged + lost && Values(over) + Values(c.pending) == Values(c.pending) + Values(over);
    Regroup(c.applied, Values(c.pending), c.replaced, Values(over), merged, lost);
  }

  lemma InvKept(c: Plane, e: Event)
    requires Inv(c) && Enabled(c, e)
    ensures Inv(Apply(c, e))
  {
    match e {
      case InLane(le) => Lane.InvKept(c.lane, le);
      case QueuePending =>
        Lane.InvKept(c.lane, Lane.Finish);
        QueuePendingBalanced(c);
      case DrainOverflow =>
        Lane.InvKept(c.lane, Lane.Drain);
        DrainBalanced(c);
      case _ =>
    }
  }

  ghost predicate Runnable(c: Plane, es: seq<Event>)
    decreases |es|
  {
    es == [] || (Enabled(c, es[0]) && Runnable(Apply(c, es[0]), es[1..]))
  }

  ghost function Run(c: Plane, es: seq<Event>): Plane
    requires Runnable(c, es)
    decreases |es|
  {
    if es == [] then c else Run(Apply(c, es[0]), es[1..])
  }

  lemma {:induction false} InvRun(c: Plane, es: seq<Event>)
    requires Inv(c) && Runnable(c, es)
    ensures Inv(Run(c, es))
    decreases |es|
  {
    if es != [] {
      InvKept(c, es[0]);
      InvRun(Apply(c, es[0]), es[1..]);
    }
  }

  /** In every reachable state every update offered is accounted for exactly once. */
  lemma UpdatesConserved(cap: nat, open: bool, maxBatch: nat, es: seq<Event>, m: Message)
    requires Runnable(Init(cap, open, maxBatch), es)
    ensures var c := Run(Init(cap, open, maxBatch), es);
            c.lane.offered[m] == c.applied[m] + c.replaced[m] + c.lane.dropped[m]
                               + multiset(c.lane.channel)[m] + Values(c.lane.overflow)[m] + Values(c.pending)[m]
                               + Lane.HeldByWorker(c.lane.taken)[m] + Lane.InCalls(c.lane)[m]
  {
    Lane.InvInit<Key, Quote>(cap, open);
    InvRun(Init(cap, open, maxBatch), es);
    var c := Run(Init(cap, open, maxBatch), es);
    assert Lane.Copies(c.lane, m) == c.lane.offered[m];
  }

  /** Between turns of the worker fewer updates than a batch are pending; once it is done, none. */
  ghost predicate Bounded(c: Plane) {
    && (c.closing ==> c.phase == Draining(true) || c.phase == Flushing(true) || c.phase.Done?)
    && (c.phase.Waiting? ==> |c.pending| < c.maxBatch)
    && (c.phase.Done? ==> c.closing && c.pending == map[])
  }

  lemma BoundedKept(c: Plane, e: Event)
    requires Bounded(c) && Enabled(c, e) && c.maxBatch > 0
    ensures Bounded(Apply(c, e)) && Apply(c, e).maxBatch == c.maxBatch
  {
  }

  lemma {:induction false} BoundedRun(c: Plane, es: seq<Event>)
    requires Bounded(c) && Runnable(c, es) && c.maxBatch > 0
    ensures Bounded(Run(c, es)) && Run(c, es).maxBatch == c.maxBatch
    decreases |es|
  {
    if es != [] {
      BoundedKept(c, es[0]);
      BoundedRun(Apply(c, es[0]), es[1..]);
    }
  }

  /** In every reachable state: between turns fewer than a batch are pending, and a finished worker has left
      nothing pending. */
  lemma PendingIsBounded(cap: nat, open: bool, maxBatch: nat, es: seq<Event>)
    requires maxBatch > 0 && Runnable(Init(cap, open, maxBatch), es)
    ensures var c := Run(Init(cap, open, maxBatch), es);
            && (c.phase.Waiting? ==> |c.pending| < maxBatch)
            && (c.phase.Done? ==> c.pending == map[])
  {
    BoundedRun(Init(cap, open, maxBatch), es);
  }

  // ---- one turn of the worker ---------------------------------------------------------------------------------

  lemma DrainStep(c: Plane)
    requires Enabled(c, DrainOverflow)
    ensures var t := Apply(c, DrainOverflow);
            && t.pending == c.pending + c.lane.overflow && t.lane.overflow == map[] && t.applied == c.applied
            && t.phase == Flushing(c.phase.forced)
            && t.closing == c.closing && t.maxBatch == c.maxBatch && t.lane.taken == c.lane.taken
  {
  }

  lemma FlushStep(c: Plane)
    requires Enabled(c, Flush)
    ensures var t, all := Apply(c, Flush), c.phase.forced || |c.pending| >= c.maxBatch;
            && t.pending == (if all then map[] else c.pending)
            && t.applied == (if all then c.applied + Values(c.pending) else c.applied)
            && t.phase == (if c.closing then Done else Waiting) && t.lane == c.lane
  {
  }

  lemma QueueStep(c: Plane)
    requires Enabled(c, QueuePending)
    ensures var t, m := Apply(c, QueuePending), c.lane.taken.m;
            && t.pending == c.pending[m.key := m] && t.applied == c.applied && t.phase == Draining(false)
            && t.lane.overflow == c.lane.overflow && t.lane.taken.Nothing? && t.lane.open == c.lane.open
            && t.closing == c.closing && t.maxBatch == c.maxBatch
  {
  }

  /** The received update takes its key's place among the pending ones, those from the overflow map take theirs after
      it, and once there are as many as a batch all are applied; nobody disturbing, the overflow map is then empty. */
  lemma UpdateTurn(c: Plane, queued: Plane, drained: Plane, t: Plane)
    requires Enabled(c, QueuePending) && queued == Apply(c, QueuePending)
    requires Enabled(queued, DrainOverflow) && drained == Apply(queued, DrainOverflow)
    requires Enabled(drained, Flush) && t == Apply(drained, Flush)
    ensures var m := c.lane.taken.m;
            var all := c.pending[m.key := m] + c.lane.overflow;
            && t.lane.overflow == map[] && t.lane.taken.Nothing?
            && t.pending == (if |all| >= c.maxBatch then map[] else all)
            && t.applied == if |all| >= c.maxBatch then c.applied + Values(all) else c.applied
  {
    QueueStep(c);
    DrainStep(queued);
    FlushStep(drained);
  }

  /** A timer tick, or the channel closing, applies all that is pending and all of the overflow map. */
  lemma ForcedTurn(c: Plane, e: Event, ticked: Plane, drained: Plane, t: Plane)
    requires Enabled(c, e) && (e.TimerTick? || e.ChannelClosed?) && ticked == Apply(c, e)
    requires Enabled(ticked, DrainOverflow) && drained == Apply(ticked, DrainOverflow)
    requires Enabled(drained, Flush) && t == Apply(drained, Flush)
    ensures t.lane.overflow == map[] && t.pending == map[]
    ensures t.applied == c.applied + Values(c.pending + c.lane.overflow)
    ensures e.ChannelClosed? ==> t.phase.Done?
  {
    DrainStep(ticked);
    FlushStep(drained);
  }

  lemma OverriddenCount<K, V>(m: map<K, V>, over: map<K, V>, k: K, v: V)
    requires k !in over
    ensures |Overridden(m, over[k := v])| == |Overridden(m, over)| + if k in m then 1 else 0
  {
    if k in m {
      assert Overridden(m, over[k := v]) == Overridden(m, over)[k := m[k]];
    } else {
      assert Overridden(m, over[k := v]) == Overridden(m, over);
    }
  }

  /** The overflow entries moved so far, and those still to move. */
  ghost predicate Moved<K, V>(was: map<K, V>, now: map<K, V>, seen: map<K, V>, rest: map<K, V>, all: map<K, V>,
                              hits: nat)
  {
    && rest.Keys !! seen.Keys && seen + rest == all
    && now == was + seen
    && hits == |Overridden(was, seen)|
  }

  lemma NothingMoved<K, V>(was: map<K, V>, all: map<K, V>)
    ensures Moved(was, was, map[], all, all, 0)
  {
    assert Overridden(was, map[]) == map[];
  }

  lemma AllMoved<K, V>(was: map<K, V>, now: map<K, V>, seen: map<K, V>, all: map<K, V>, hits: nat)
    requires Moved(was, now, seen, map[], all, hits)
    ensures now == was + all && hits == |Overridden(was, all)|
  {
    assert seen == all;
  }

  lemma MoveOne<K, V>(was: map<K, V>, now: map<K, V>, seen: map<K, V>, rest: map<K, V>, all: map<K, V>, hits: nat, k: K)
    requires Moved(was, now, seen, rest, all, hits) && k in rest
    ensures Moved(was, now[k := rest[k]], seen[k := rest[k]], rest - {k}, all, if k in now then hits + 1 else hits)
  {
    OverriddenCount(was, seen, k, rest[k]);
    MoveEntry(was, seen, rest, k);
    assert k in now <==> k in was;
  }

  lemma MoveEntry<K, V>(m: map<K, V>, seen: map<K, V>, rest: map<K, V>, k: K)
    requires seen.Keys !! rest.Keys && k in rest
    ensures m + seen[k := rest[k]] == (m + seen)[k := rest[k]]
    ensures seen[k := rest[k]].Keys !! (rest - {k}).Keys
    ensures seen[k := rest[k]] + (rest - {k}) == seen + rest
  {
  }

  // ---- the worker's maps as the source updates them ----------------------------------------------------

  class PendingUpdates {
    var pending: map<Key, Message>

    constructor ()
      ensures pending == map[]
    {
      pending := map[];
    }

    method QueuePendingUpdate(key: Key, update: Message) returns (replaced: bool)
      modifies this
      ensures pending == old(pending)[key := update]
      ensures replaced <==> key in old(pending)
    {
      replaced := key in pending;
      pending := pending[key := update];
    }

    /** The drained entries override the pending ones, whatever order the map yields them in; the count is
        that of the overridden ones. */
    method DrainOverflowUpdates(overflow: map<Key, Message>) returns (replaced: nat)
      modifies this
      ensures pending == old(pending) + overflow
      ensures replaced == |Overridden(old(pending), overflow)|
    {
      ghost var was, seen: map<Key, Message> := pending, map[];
      var rest := overflow;
      replaced := 0;
      NothingMoved(was, overflow);
      while rest != map[]
        invariant Moved(was, pending, seen, rest, overflow, replaced)
        decreases |rest|
      {
        var key :| key in rest;
        MoveOne(was, pending, seen, rest, overflow, replaced, key);
        var hit := QueuePendingUpdate(key, rest[key]);
        replaced := if hit then replaced + 1 else replaced;
        seen, rest := seen[key := rest[key]], rest - {key};
      }
      AllMoved(was, pending, seen, overflow, replaced);
    }

    /** Every pending update is handed on exactly once. */
    method FlushPendingUpdates() returns (applied: seq<Message>)
      modifies this
      ensures pending == map[]
      ensures multiset(applied) == Values(old(pending))
    {
      applied := [];
      while pending != map[]
        invariant multiset(applied) + Values(pending) == Values(old(pending))
        decreases |pending|
      {
        var key :| key in pending;
        ValuesRemove(pending, key);
        applied := applied + [pending[key]];
        pending := pending - {key};
      }
    }
  }
}
