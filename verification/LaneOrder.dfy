/** In what order the keep-latest lane hands messages on, which message it keeps per key, and where a call that nobody
    disturbs leaves its message. */
module LaneOrder {
  import opened KeepLatestLane

  ghost predicate Runnable<K, B>(l: Lane<K, B>, es: seq<Event<K, B>>)
    decreases |es|
  {
    es == [] || (Enabled(l, es[0]) && Runnable(Apply(l, es[0]), es[1..]))
  }

  ghost function Run<K, B>(l: Lane<K, B>, es: seq<Event<K, B>>): Lane<K, B>
    requires Runnable(l, es)
    decreases |es|
  {
    if es == [] then l else Run(Apply(l, es[0]), es[1..])
  }

  // ---- the channel ----------------------------------------------------------------------------------------------

  /** The message a step puts into the channel, if any. */
  ghost function Enters<K, B>(l: Lane<K, B>, e: Event<K, B>): seq<Message<K, B>>
    requires Enabled(l, e)
  {
    if e.TrySend? && Apply(l, e).producers[e.p].Idle? then [l.producers[e.p].m] else []
  }

  /** The message a step hands to the worker from the channel, if any. */
  ghost function Leaves<K, B>(l: Lane<K, B>, e: Event<K, B>): seq<Message<K, B>>
    requires Enabled(l, e)
  {
    if e.Recv? then [Apply(l, e).taken.m] else []
  }

  /** The messages whose sends succeed during the run, in order. */
  ghost function Entering<K, B>(l: Lane<K, B>, es: seq<Event<K, B>>): seq<Message<K, B>>
    requires Runnable(l, es)
    decreases |es|
  {
    if es == [] then [] else Enters(l, es[0]) + Entering(Apply(l, es[0]), es[1..])
  }

  /** The messages the worker receives during the run, in order. */
  ghost function Leaving<K, B>(l: Lane<K, B>, es: seq<Event<K, B>>): seq<Message<K, B>>
    requires Runnable(l, es)
    decreases |es|
  {
    if es == [] then [] else Leaves(l, es[0]) + Leaving(Apply(l, es[0]), es[1..])
  }

  lemma StepIsFifo<K, B>(l: Lane<K, B>, e: Event<K, B>)
    requires Enabled(l, e)
    ensures l.channel + Enters(l, e) == Leaves(l, e) + Apply(l, e).channel
  {
    if e.TrySend? {
      SendIsFifo(l, e.p);
    } else if e.Recv? {
      assert l.channel == [l.channel[0]] + l.channel[1..];
    } else {
      OthersLeaveChannel(l, e);
      assert l.channel + [] == [] + l.channel;
    }
  }

  lemma SendIsFifo<K, B>(l: Lane<K, B>, p: nat)
    requires Enabled(l, TrySend(p))
    ensures Apply(l, TrySend(p)).channel
         == if Apply(l, TrySend(p)).producers[p].Idle? then l.channel + [l.producers[p].m] else l.channel
  {
  }

  lemma OthersLeaveChannel<K, B>(l: Lane<K, B>, e: Event<K, B>)
    requires Enabled(l, e) && !e.TrySend? && !e.Recv?
    ensures Apply(l, e).channel == l.channel
  {
  }

  lemma Chain<M>(a: seq<M>, x: seq<M>, y: seq<M>, b: seq<M>, u: seq<M>, v: seq<M>, c: seq<M>)
    requires a + x == y + b && b + u == v + c
    ensures a + (x + u) == (y + v) + c
  {
    assert a + (x + u) == (a + x) + u && (y + b) + u == y + (b + u) && y + (v + c) == (y + v) + c;
  }

  /** The channel is first in, first out, with any number of producers. */
  lemma {:induction false} ChannelIsFifo<K, B>(l: Lane<K, B>, es: seq<Event<K, B>>)
    requires Runnable(l, es)
    ensures l.channel + Entering(l, es) == Leaving(l, es) + Run(l, es).channel
    decreases |es|
  {
    if es != [] {
      var now, rest := Apply(l, es[0]), es[1..];
      StepIsFifo(l, es[0]);
      ChannelIsFifo(now, rest);
      Chain(l.channel, Enters(l, es[0]), Leaves(l, es[0]), now.channel, Entering(now, rest), Leaving(now, rest),
            Run(now, rest).channel);
    }
  }

  // ---- the overflow map -------------------------------------------------------------------------------------------

  /** Of the messages put into the overflow map under `key` during the run, the last one not handed on since, or
      `last` if there was none. */
  ghost function Newest<K, B>(l: Lane<K, B>, es: seq<Event<K, B>>, key: K, last: seq<Message<K, B>>)
    : seq<Message<K, B>>
    requires Runnable(l, es)
    decreases |es|
  {
    if es == [] then last
    else
      var next := if es[0].Insert? && l.producers[es[0].p].m.key == key then [l.producers[es[0].p].m]
                  else if es[0] == PopOverflow(key) || es[0].Drain? then []
                  else last;
      Newest(Apply(l, es[0]), es[1..], key, next)
  }

  ghost function Kept<K, B>(l: Lane<K, B>, key: K): seq<Message<K, B>> {
    if key in l.overflow then [l.overflow[key]] else []
  }

  /** Per key the overflow map holds the message that entered it last, and that is what the worker is handed. */
  lemma {:induction false} NewestIsKept<K, B>(l: Lane<K, B>, es: seq<Event<K, B>>, key: K)
    requires Runnable(l, es)
    ensures Kept(Run(l, es), key) == Newest(l, es, key, Kept(l, key))
    decreases |es|
  {
    if es != [] {
      StepKeepsNewest(l, es[0], key);
      NewestIsKept(Apply(l, es[0]), es[1..], key);
    }
  }

  lemma StepKeepsNewest<K, B>(l: Lane<K, B>, e: Event<K, B>, key: K)
    requires Enabled(l, e)
    ensures Kept(Apply(l, e), key) ==
            if e.Insert? && l.producers[e.p].m.key == key then [l.producers[e.p].m]
            else if e == PopOverflow(key) || e.Drain? then []
            else Kept(l, key)
    ensures e == PopOverflow(key) ==> Kept(l, key) == [Apply(l, e).taken.m]
  {
  }

  // ---- a whole call -----------------------------------------------------------------------------------------------

  lemma RunFirst<K, B>(l: Lane<K, B>, e: Event<K, B>, rest: seq<Event<K, B>>)
    requires Enabled(l, e) && Runnable(Apply(l, e), rest)
    ensures Runnable(l, [e] + rest) && Run(l, [e] + rest) == Run(Apply(l, e), rest)
  {
    assert ([e] + rest)[0] == e && ([e] + rest)[1..] == rest;
  }

  /** `l` with producer `p` elsewhere. */
  ghost predicate OnlyMoves<K, B>(l: Lane<K, B>, t: Lane<K, B>, p: nat) {
    && p < |l.producers| == |t.producers|
    && (forall q :: 0 <= q < |l.producers| && q != p ==> t.producers[q] == l.producers[q])
    && t.cap == l.cap && t.open == l.open && t.taken == l.taken && t.offered == l.offered && t.delivered == l.delivered
  }

  lemma CountLost<K, B>(l: Lane<K, B>, p: nat, lost: Message<K, B>) returns (es: seq<Event<K, B>>)
    requires p < |l.producers| && l.producers[p] == Counting(lost)
    ensures Runnable(l, es) && OnlyMoves(l, Run(l, es), p) && Run(l, es).producers[p].Idle?
    ensures var t := Run(l, es);
            t.channel == l.channel && t.depth == l.depth && t.overflow == l.overflow
            && t.dropped == l.dropped + multiset{lost}
  {
    RunFirst(l, Count(p), []);
    es := [Count(p)] + [];
  }

  lemma InsertNewest<K, B>(l: Lane<K, B>, p: nat, m: Message<K, B>) returns (es: seq<Event<K, B>>)
    requires p < |l.producers| && l.producers[p] == Inserting(m)
    ensures Runnable(l, es) && OnlyMoves(l, Run(l, es), p) && Run(l, es).producers[p].Idle?
    ensures var t := Run(l, es);
            && t.channel == l.channel && t.depth == l.depth && t.overflow == l.overflow[m.key := m]
            && t.dropped == l.dropped + if m.key in l.overflow then multiset{l.overflow[m.key]} else multiset{}
  {
    var inserted := Apply(l, Insert(p));
    var rest := [];
    if m.key in l.overflow {
      rest := CountLost(inserted, p, l.overflow[m.key]);
    }
    RunFirst(l, Insert(p), rest);
    es := [Insert(p)] + rest;
  }

  lemma UndoReservation<K, B>(l: Lane<K, B>, p: nat, m: Message<K, B>) returns (es: seq<Event<K, B>>)
    requires p < |l.producers| && l.depth > 0 && (l.producers[p] == Full(m) || l.producers[p] == Refused(m))
    ensures Runnable(l, es) && OnlyMoves(l, Run(l, es), p) && Run(l, es).producers[p].Idle?
    ensures var t, full := Run(l, es), l.producers[p].Full?;
            && t.channel == l.channel && t.depth == l.depth - 1
            && t.overflow == (if full then l.overflow[m.key := m] else l.overflow)
            && t.dropped == l.dropped + if !full then multiset{m}
                                        else if m.key in l.overflow then multiset{l.overflow[m.key]} else multiset{}
  {
    var undone := Apply(l, Undo(p));
    var rest;
    if l.producers[p].Full? {
      rest := InsertNewest(undone, p, m);
    } else {
      rest := CountLost(undone, p, m);
    }
    RunFirst(l, Undo(p), rest);
    es := [Undo(p)] + rest;
  }

  lemma SendReserved<K, B>(l: Lane<K, B>, p: nat, m: Message<K, B>) returns (es: seq<Event<K, B>>)
    requires p < |l.producers| && l.depth > 0 && l.producers[p] == Reserved(m)
    ensures Runnable(l, es) && OnlyMoves(l, Run(l, es), p) && Run(l, es).producers[p].Idle?
    ensures Outcome(l, Run(l, es), l.depth - 1, m)
  {
    var tried := Apply(l, TrySend(p));
    var rest := [];
    if !(l.open && |l.channel| < l.cap) {
      rest := UndoReservation(tried, p, m);
    }
    RunFirst(l, TrySend(p), rest);
    es := [TrySend(p)] + rest;
  }

  /** With room in the channel the message goes to its end; with a full one it takes its key's slot in the overflow
      map, where one that it replaces is counted as dropped; with a closed one it is counted as dropped itself. The
      depth goes up from `depth` only in the first case. */
  ghost predicate Outcome<K, B>(l: Lane<K, B>, t: Lane<K, B>, depth: int, m: Message<K, B>) {
    if l.open && |l.channel| < l.cap then
      t.channel == l.channel + [m] && t.depth == depth + 1 && t.overflow == l.overflow && t.dropped == l.dropped
    else if l.open then
      && t.channel == l.channel && t.depth == depth && t.overflow == l.overflow[m.key := m]
      && t.dropped == l.dropped + if m.key in l.overflow then multiset{l.overflow[m.key]} else multiset{}
    else
      && t.channel == l.channel && t.depth == depth && t.overflow == l.overflow
      && t.dropped == l.dropped + multiset{m}
  }

  /** A call past the admission check that nobody disturbs has that outcome and changes nothing else. */
  lemma EnqueueExact<K, B>(l: Lane<K, B>, p: nat, m: Message<K, B>) returns (es: seq<Event<K, B>>)
    requires p < |l.producers| && l.producers[p] == Admitted(m)
    ensures Runnable(l, es) && OnlyMoves(l, Run(l, es), p) && Run(l, es).producers[p].Idle?
    ensures Outcome(l, Run(l, es), l.depth, m)
  {
    var rest := SendReserved(Apply(l, Reserve(p)), p, m);
    RunFirst(l, Reserve(p), rest);
    es := [Reserve(p)] + rest;
  }
}
