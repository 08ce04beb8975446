/** The lane both asynchronous queues are built on: a bounded channel with a depth counter and an overflow
    map that keeps the latest message per key, shared by any number of producers and one worker. Every
    atomic access is a step of its own. */
module KeepLatestLane {
  import opened Multisets

  datatype Message<K, B> = Message(key: K, body: B)

  /** Where a call of `try_enqueue` stands. */
  datatype Producer<K, B> =
    | Idle
    | Entered(m: Message<K, B>)    // called
    | Admitted(m: Message<K, B>)   // past the admission check
    | Reserved(m: Message<K, B>)   // depth counted, not yet sent
    | Full(m: Message<K, B>)       // channel was full, depth still counted
    | Refused(m: Message<K, B>)    // channel was closed, depth still counted
    | Inserting(m: Message<K, B>)  // about to enter the overflow map
    | Counting(m: Message<K, B>)   // a message is lost and about to be counted as dropped

  datatype Taken<K, B> =
    | Nothing
    | Received(m: Message<K, B>)    // out of the channel, depth not yet lowered
    | Processing(m: Message<K, B>)

  /** `offered`, `dropped` and `delivered` record the run: messages of every call, messages counted as
      dropped by producers, messages the worker is done taking from the lane. */
  datatype Lane<K(==), B(==)> = Lane(
    cap: nat,
    open: bool,
    producers: seq<Producer<K, B>>,
    channel: seq<Message<K, B>>,
    depth: nat,
    overflow: map<K, Message<K, B>>,
    taken: Taken<K, B>,
    offered: multiset<Message<K, B>>,
    dropped: multiset<Message<K, B>>,
    delivered: multiset<Message<K, B>>)

  ghost function Init<K, B>(cap: nat, open: bool): Lane<K, B> {
    Lane(cap, open, [], [], 0, map[], Nothing, multiset{}, multiset{}, multiset{})
  }

  datatype Event<K, B> =
    | NewProducer
    | Offer(p: nat, m: Message<K, B>)
    | Admit(p: nat)
    | Block(p: nat)
    | Reserve(p: nat)
    | TrySend(p: nat)
    | Undo(p: nat)
    | Insert(p: nat)
    | Count(p: nat)
    | Recv
    | Decrement
    | PopOverflow(key: K)
    | Finish
    | Drain

  ghost function SaturatingDecrement(n: nat): nat {
    if n == 0 then 0 else n - 1
  }

  ghost predicate Enabled<K, B>(l: Lane<K, B>, e: Event<K, B>) {
    match e
    case NewProducer => true
    case Offer(p, _) => p < |l.producers| && l.producers[p].Idle?
    case Admit(p) => p < |l.producers| && l.producers[p].Entered?
    case Block(p) => p < |l.producers| && l.producers[p].Entered?
    case Reserve(p) => p < |l.producers| && l.producers[p].Admitted?
    case TrySend(p) => p < |l.producers| && l.producers[p].Reserved?
    case Undo(p) => p < |l.producers| && (l.producers[p].Full? || l.producers[p].Refused?)
    case Insert(p) => p < |l.producers| && l.producers[p].Inserting?
    case Count(p) => p < |l.producers| && l.producers[p].Counting?
    case Recv => l.open && l.taken.Nothing? && l.channel != []
    case Decrement => l.taken.Received?
    case PopOverflow(k) => l.open && l.taken.Nothing? && k in l.overflow
    case Finish => l.taken.Processing?
    case Drain => l.open
  }

  ghost function Set<K, B>(l: Lane<K, B>, p: nat, pc: Producer<K, B>): Lane<K, B>
    requires p < |l.producers|
  {
    l.(producers := l.producers[p := pc])
  }

  /** The three outcomes of `try_send`. */
  ghost function Sent<K, B>(l: Lane<K, B>, p: nat, m: Message<K, B>): Lane<K, B>
    requires p < |l.producers|
  {
    if !l.open then Set(l, p, Refused(m))
    else if |l.channel| < l.cap then Set(l.(channel := l.channel + [m]), p, Idle)
    else Set(l, p, Full(m))
  }

  /** The newer message takes the slot of its key; the one it replaces is lost. */
  ghost function Inserted<K, B>(l: Lane<K, B>, p: nat, m: Message<K, B>): Lane<K, B>
    requires p < |l.producers|
  {
    Set(l.(overflow := l.overflow[m.key := m]), p, if m.key in l.overflow then Counting(l.overflow[m.key]) else Idle)
  }

  ghost function Apply<K, B>(l: Lane<K, B>, e: Event<K, B>): Lane<K, B>
    requires Enabled(l, e)
  {
    match e
    case NewProducer => l.(producers := l.producers + [Idle])
    case Offer(p, m) => Set(l.(offered := l.offered + multiset{m}), p, Entered(m))
    case Admit(p) => Set(l, p, Admitted(l.producers[p].m))
    case Block(p) => Set(l, p, Counting(l.producers[p].m))
    case Reserve(p) => Set(l.(depth := l.depth + 1), p, Reserved(l.producers[p].m))
    case TrySend(p) => Sent(l, p, l.producers[p].m)
    case Undo(p) =>
      Set(l.(depth := SaturatingDecrement(l.depth)), p,
          if l.producers[p].Full? then Inserting(l.producers[p].m) else Counting(l.producers[p].m))
    case Insert(p) => Inserted(l, p, l.producers[p].m)
    case Count(p) => Set(l.(dropped := l.dropped + multiset{l.producers[p].m}), p, Idle)
    case Recv => l.(channel := l.channel[1..], taken := Received(l.channel[0]))
    case Decrement => l.(depth := SaturatingDecrement(l.depth), taken := Processing(l.taken.m))
    case PopOverflow(k) => l.(overflow := l.overflow - {k}, taken := Processing(l.overflow[k]))
    case Finish => l.(taken := Nothing, delivered := l.delivered + multiset{l.taken.m})
    case Drain => l.(overflow := map[], delivered := l.delivered + Values(l.overflow))
  }

  // ---- conservation and the depth counter -----------------------------------------------------------

  ghost function HeldBy<K, B>(p: Producer<K, B>): multiset<Message<K, B>> {
    if p.Idle? then multiset{} else multiset{p.m}
  }

  ghost function HeldByWorker<K, B>(t: Taken<K, B>): multiset<Message<K, B>> {
    if t.Nothing? then multiset{} else multiset{t.m}
  }

  ghost function Reservation<K, B>(p: Producer<K, B>): nat {
    if p.Reserved? || p.Full? || p.Refused? then 1 else 0
  }

  ghost function InCalls<K, B>(l: Lane<K, B>): multiset<Message<K, B>> { Gather(l.producers, HeldBy) }

  ghost function Copies<K, B>(l: Lane<K, B>, m: Message<K, B>): nat {
    l.dropped[m] + l.delivered[m] + multiset(l.channel)[m] + Values(l.overflow)[m]
    + HeldByWorker(l.taken)[m] + InCalls(l)[m]
  }

  /** Every message offered is in exactly one place as often as it was offered. */
  ghost predicate Conserved<K(!new), B(!new)>(l: Lane<K, B>) {
    forall m {:trigger Copies(l, m)} :: l.offered[m] == Copies(l, m)
  }

  /** The depth counter is the channel length plus unresolved reservations plus the message received but
      not yet subtracted. */
  ghost predicate DepthExact<K, B>(l: Lane<K, B>) {
    l.depth == |l.channel| + Total(l.producers, Reservation) + (if l.taken.Received? then 1 else 0)
  }

  ghost predicate Bounded<K, B>(l: Lane<K, B>) {
    |l.channel| <= l.cap && forall k :: k in l.overflow ==> l.overflow[k].key == k
  }

  ghost predicate Inv<K(!new), B(!new)>(l: Lane<K, B>) {
    Conserved(l) && DepthExact(l) && Bounded(l)
  }

  lemma InvInit<K(!new), B(!new)>(cap: nat, open: bool)
    ensures Inv<K, B>(Init(cap, open))
  {
  }

  lemma SetCopies<K(!new), B(!new)>(l: Lane<K, B>, p: nat, pc: Producer<K, B>, m: Message<K, B>)
    requires p < |l.producers|
    ensures Copies(Set(l, p, pc), m) + HeldBy(l.producers[p])[m] == Copies(l, m) + HeldBy(pc)[m]
  {
    GatherUpdate(l.producers, HeldBy, p, pc);
    var now := InCalls(Set(l, p, pc));
    assert (now + HeldBy(l.producers[p]))[m] == (InCalls(l) + HeldBy(pc))[m];
  }

  lemma PushCopies<K(!new), B(!new)>(l: Lane<K, B>, d: Message<K, B>, m: Message<K, B>)
    ensures Copies(l.(channel := l.channel + [d]), m) == Copies(l, m) + multiset{d}[m]
  {
    assert multiset(l.channel + [d]) == multiset(l.channel) + multiset{d};
  }

  lemma SendCopies<K(!new), B(!new)>(l: Lane<K, B>, p: nat, d: Message<K, B>, m: Message<K, B>)
    requires p < |l.producers| && l.producers[p] == Reserved(d)
    ensures Copies(Sent(l, p, d), m) == Copies(l, m)
  {
    if !l.open {
      SetCopies(l, p, Refused(d), m);
    } else if |l.channel| < l.cap {
      PushCopies(l, d, m);
      SetCopies(l.(channel := l.channel + [d]), p, Idle, m);
    } else {
      SetCopies(l, p, Full(d), m);
    }
  }

  lemma InsertCopies<K(!new), B(!new)>(l: Lane<K, B>, p: nat, d: Message<K, B>, m: Message<K, B>)
    requires p < |l.producers| && l.producers[p] == Inserting(d)
    ensures Copies(Inserted(l, p, d), m) == Copies(l, m)
  {
    ValuesInsert(l.overflow, d.key, d);
    var mid := l.(overflow := l.overflow[d.key := d]);
    if d.key in l.overflow {
      var lost := l.overflow[d.key];
      assert (multiset{lost} + Values(mid.overflow))[m] == (multiset{d} + Values(l.overflow))[m];
      SetCopies(mid, p, Counting(lost), m);
    } else {
      SetCopies(mid, p, Idle, m);
    }
  }

  lemma RecvCopies<K(!new), B(!new)>(l: Lane<K, B>, m: Message<K, B>)
    requires Enabled(l, Recv)
    ensures Copies(Apply(l, Recv), m) == Copies(l, m)
  {
    assert l.channel == [l.channel[0]] + l.channel[1..];
    assert multiset(l.channel) == multiset{l.channel[0]} + multiset(l.channel[1..]);
  }

  lemma WorkerCopies<K(!new), B(!new)>(l: Lane<K, B>, e: Event<K, B>, m: Message<K, B>)
    requires Enabled(l, e) && (e.Recv? || e.Decrement? || e.PopOverflow? || e.Finish? || e.Drain?)
    ensures Copies(Apply(l, e), m) == Copies(l, m)
  {
    if e.Recv? {
      RecvCopies(l, m);
    } else if e.PopOverflow? {
      ValuesRemove(l.overflow, e.key);
    }
  }

  ghost function Created<K(!new), B(!new)>(e: Event<K, B>, m: Message<K, B>): nat {
    if e.Offer? && e.m == m then 1 else 0
  }

  /** Events of one producer that neither send, undo nor insert. */
  lemma SimpleCopies<K(!new), B(!new)>(l: Lane<K, B>, e: Event<K, B>, m: Message<K, B>)
    requires Enabled(l, e) && (e.Offer? || e.Admit? || e.Block? || e.Reserve?)
    ensures Copies(Apply(l, e), m) == Copies(l, m) + Created(e, m)
  {
    SetCopies(l, e.p, Apply(l, e).producers[e.p], m);
  }

  lemma CountCopies<K(!new), B(!new)>(l: Lane<K, B>, p: nat, m: Message<K, B>)
    requires Enabled(l, Count(p))
    ensures Copies(Apply(l, Count(p)), m) == Copies(l, m)
  {
    SetCopies(l.(dropped := l.dropped + multiset{l.producers[p].m}), p, Idle, m);
  }

  lemma NewProducerCopies<K(!new), B(!new)>(l: Lane<K, B>, m: Message<K, B>)
    requires Enabled(l, NewProducer)
    ensures Copies(Apply(l, NewProducer), m) == Copies(l, m)
  {
    GatherAppend(l.producers, HeldBy, Idle);
  }

  lemma CopiesStep<K(!new), B(!new)>(l: Lane<K, B>, e: Event<K, B>, m: Message<K, B>)
    requires Enabled(l, e)
    ensures Copies(Apply(l, e), m) == Copies(l, m) + Created(e, m)
  {
    if e.NewProducer? {
      NewProducerCopies(l, m);
    } else if e.TrySend? {
      SendCopies(l, e.p, l.producers[e.p].m, m);
    } else if e.Undo? {
      UndoCopies(l, e.p, m);
    } else if e.Insert? {
      InsertCopies(l, e.p, l.producers[e.p].m, m);
    } else if e.Count? {
      CountCopies(l, e.p, m);
    } else if e.Offer? || e.Admit? || e.Block? || e.Reserve? {
      SimpleCopies(l, e, m);
    } else {
      WorkerCopies(l, e, m);
    }
  }

  lemma UndoCopies<K(!new), B(!new)>(l: Lane<K, B>, p: nat, m: Message<K, B>)
    requires Enabled(l, Undo(p))
    ensures Copies(Apply(l, Undo(p)), m) == Copies(l, m)
  {
    SetCopies(l.(depth := SaturatingDecrement(l.depth)), p, Apply(l, Undo(p)).producers[p], m);
  }

  lemma ConservedKept<K(!new), B(!new)>(l: Lane<K, B>, e: Event<K, B>)
    requires Enabled(l, e) && Conserved(l)
    ensures Conserved(Apply(l, e))
  {
    forall m ensures Apply(l, e).offered[m] == Copies(Apply(l, e), m) {
      CopiesStep(l, e, m);
      assert l.offered[m] == Copies(l, m);
    }
  }

  /** The saturating decrement is never reached at zero. */
  lemma DecrementNeverClips<K, B>(l: Lane<K, B>, e: Event<K, B>)
    requires Enabled(l, e) && DepthExact(l) && (e.Undo? || e.Decrement?)
    ensures l.depth > 0
  {
    if e.Undo? {
      TotalUpdate(l.producers, Reservation, e.p, Idle);
    }
  }

  lemma UndoKeepsDepth<K, B>(l: Lane<K, B>, p: nat)
    requires Enabled(l, Undo(p)) && DepthExact(l)
    ensures DepthExact(Apply(l, Undo(p)))
  {
    DecrementNeverClips(l, Undo(p));
    TotalUpdate(l.producers, Reservation, p, Apply(l, Undo(p)).producers[p]);
  }

  lemma SendKeepsDepth<K, B>(l: Lane<K, B>, p: nat, m: Message<K, B>)
    requires p < |l.producers| && l.producers[p] == Reserved(m) && DepthExact(l)
    ensures DepthExact(Sent(l, p, m))
  {
    TotalUpdate(l.producers, Reservation, p, Sent(l, p, m).producers[p]);
  }

  lemma InsertKeepsDepth<K, B>(l: Lane<K, B>, p: nat, m: Message<K, B>)
    requires p < |l.producers| && l.producers[p] == Inserting(m) && DepthExact(l)
    ensures DepthExact(Inserted(l, p, m))
  {
    TotalUpdate(l.producers, Reservation, p, Inserted(l, p, m).producers[p]);
  }

  lemma DepthKeptByProducer<K, B>(l: Lane<K, B>, e: Event<K, B>)
    requires Enabled(l, e) && DepthExact(l)
    requires e.Offer? || e.Admit? || e.Block? || e.Reserve? || e.Count?
    ensures DepthExact(Apply(l, e))
  {
    TotalUpdate(l.producers, Reservation, e.p, Apply(l, e).producers[e.p]);
  }

  lemma DepthKept<K, B>(l: Lane<K, B>, e: Event<K, B>)
    requires Enabled(l, e) && DepthExact(l)
    ensures DepthExact(Apply(l, e))
  {
    if e.NewProducer? {
      TotalAppend(l.producers, Reservation, Idle);
    } else if e.TrySend? {
      SendKeepsDepth(l, e.p, l.producers[e.p].m);
    } else if e.Insert? {
      InsertKeepsDepth(l, e.p, l.producers[e.p].m);
    } else if e.Undo? {
      UndoKeepsDepth(l, e.p);
    } else if e.Recv? || e.Decrement? || e.PopOverflow? || e.Finish? || e.Drain? {
      if e.Decrement? {
        DecrementNeverClips(l, e);
      }
    } else {
      DepthKeptByProducer(l, e);
    }
  }

  lemma InvKept<K(!new), B(!new)>(l: Lane<K, B>, e: Event<K, B>)
    requires Enabled(l, e) && Inv(l)
    ensures Inv(Apply(l, e))
  {
    ConservedKept(l, e);
    DepthKept(l, e);
    assert Bounded(Apply(l, e));
  }
}
