/** The event loop's queue of coalesced updates and the strategy's books, over any number of batches. */
module StrategyBatches {
  import opened Coalescing

  datatype Side = Binance | Gate

  type Update = (nat, Ticker)

  datatype Desk = Desk(primarySide: Side, queue: seq<(Side, Update)>, primary: Books, hedge: Books)

  function Tag(side: Side, updates: seq<Update>): seq<(Side, Update)> {
    seq(|updates|, i requires 0 <= i < |updates| => (side, updates[i]))
  }

  function OnlySide(queue: seq<(Side, Update)>, side: Side): seq<Update> {
    if queue == [] then []
    else
      var before, last := OnlySide(queue[..|queue| - 1], side), queue[|queue| - 1];
      if last.0 == side then before + [last.1] else before
  }

  /** The book of a side's role. */
  function RoleBooks(d: Desk, s: Side): Books {
    if s == d.primarySide then d.primary else d.hedge
  }

  function Other(s: Side): Side {
    if s.Binance? then Gate else Binance
  }

  /** The books once everything queued is applied, first in, first out. */
  function Settled(d: Desk, s: Side): Books {
    Book(RoleBooks(d, s), OnlySide(d.queue, s))
  }

  function Enqueued(d: Desk, side: Side, updates: seq<Update>): Desk {
    d.(queue := d.queue + Tag(side, updates))
  }

  function Flushed(d: Desk): Desk {
    Desk(d.primarySide, [], Settled(d, d.primarySide), Settled(d, Other(d.primarySide)))
  }

  class StrategyBooks {
    const primarySide: Side
    var pendingStrategyUpdates: seq<(Side, Update)>
    var primaryBooks: Books
    var hedgeBooks: Books

    function State(): Desk
      reads this
    {
      Desk(primarySide, pendingStrategyUpdates, primaryBooks, hedgeBooks)
    }

    constructor (primarySide: Side)
      ensures State() == Desk(primarySide, [], map[], map[])
    {
      this.primarySide := primarySide;
      pendingStrategyUpdates, primaryBooks, hedgeBooks := [], map[], map[];
    }

    method EnqueueStrategyUpdates(side: Side, updates: seq<Update>)
      modifies this`pendingStrategyUpdates
      ensures State() == Enqueued(old(State()), side, updates)
    {
      for n := 0 to |updates|
        invariant pendingStrategyUpdates == old(pendingStrategyUpdates) + Tag(side, updates[..n])
      {
        assert Tag(side, updates[..n + 1]) == Tag(side, updates[..n]) + [(side, updates[n])];
        pendingStrategyUpdates := pendingStrategyUpdates + [(side, updates[n])];
      }
      assert updates[..|updates|] == updates;
    }

    /** The queue is applied first in, first out, each side to the book of its role. */
    method FlushStrategyUpdates()
      modifies this
      ensures State() == Flushed(old(State()))
    {
      ghost var d, queue, done := State(), pendingStrategyUpdates, 0;
      while pendingStrategyUpdates != []
        invariant done <= |queue| && pendingStrategyUpdates == queue[done..]
        invariant primaryBooks == Book(d.primary, OnlySide(queue[..done], primarySide))
        invariant hedgeBooks == Book(d.hedge, OnlySide(queue[..done], Other(primarySide)))
        decreases |pendingStrategyUpdates|
      {
        var (side, update) := pendingStrategyUpdates[0];
        ApplyNext(d.primary, queue, done, primarySide);
        ApplyNext(d.hedge, queue, done, Other(primarySide));
        pendingStrategyUpdates := pendingStrategyUpdates[1..];
        if side == primarySide {
          primaryBooks := primaryBooks[update.1.symbol := update.1];
        } else {
          hedgeBooks := hedgeBooks[update.1.symbol := update.1];
        }
        done := done + 1;
      }
      assert queue[..done] == queue;
    }

    /** A batch from one exchange: coalesced and queued. */
    method QueueBatch(side: Side, batch: seq<Ticker>) returns (ids: seq<nat>, ghost latest: seq<Update>)
      modifies this`pendingStrategyUpdates
      ensures LastWins(Present(ResolveAll(batch)), latest) && ids == Keys(latest)
      ensures State() == Enqueued(old(State()), side, latest)
    {
      var updates;
      ids, updates := CoalesceLastWins(ResolveAll(batch));
      EnqueueStrategyUpdates(side, updates);
      latest := updates;
    }
  }

  lemma ApplyNext(books: Books, queue: seq<(Side, Update)>, done: nat, s: Side)
    requires done < |queue|
    ensures var book := Book(books, OnlySide(queue[..done], s));
            Book(books, OnlySide(queue[..done + 1], s))
            == if queue[done].0 == s then book[queue[done].1.1.symbol := queue[done].1.1] else book
  {
    assert queue[..done + 1][..done] == queue[..done];
    var us := OnlySide(queue[..done], s);
    assert (us + [queue[done].1])[..|us|] == us;
  }

  // ---- whole runs -----------------------------------------------------------------------------------------------

  lemma {:induction false} BookAppend(books: Books, a: seq<Update>, b: seq<Update>)
    ensures Book(books, a + b) == Book(Book(books, a), b)
  {
    if b == [] {
      assert a + b == a;
    } else {
      assert (a + b)[..|a + b| - 1] == a + b[..|b| - 1];
      BookAppend(books, a, b[..|b| - 1]);
    }
  }

  lemma {:induction false} OnlySideAppend(queue: seq<(Side, Update)>, side: Side, updates: seq<Update>, s: Side)
    ensures OnlySide(queue + Tag(side, updates), s) == OnlySide(queue, s) + if s == side then updates else []
  {
    if updates == [] {
      assert queue + Tag(side, updates) == queue;
    } else {
      var init, last := updates[..|updates| - 1], updates[|updates| - 1];
      var longer := queue + Tag(side, updates);
      assert longer[..|longer| - 1] == queue + Tag(side, init);
      OnlySideAppend(queue, side, init, s);
      assert updates == init + [last];
    }
  }

  /** What the event loop does: `latest` is what coalescing makes of the batch. */
  datatype Step = Batch(side: Side, batch: seq<Ticker>, latest: seq<Update>) | Flush

  /** The batch is coalesced as the code does it, and its tickers carry the ids of the assignment `ids`. */
  ghost predicate Faithful(step: Step, ids: map<string, nat>) {
    step.Batch? ==>
      && LastWins(Present(ResolveAll(step.batch)), step.latest)
      && forall t :: t in step.batch && t.strategySymbolId.Some? ==>
                       t.symbol in ids && t.strategySymbolId.value == ids[t.symbol]
  }

  function Next(d: Desk, step: Step): Desk {
    if step.Batch? then Enqueued(d, step.side, step.latest) else Flushed(d)
  }

  function After(d: Desk, steps: seq<Step>): Desk {
    if steps == [] then d else Next(After(d, steps[..|steps| - 1]), steps[|steps| - 1])
  }

  /** Every resolved ticker of the run on side `s`, in order. */
  function AllTickers(steps: seq<Step>, s: Side): seq<Update> {
    if steps == [] then []
    else
      var before, step := AllTickers(steps[..|steps| - 1], s), steps[|steps| - 1];
      if step.Batch? && step.side == s then before + Present(ResolveAll(step.batch)) else before
  }

  lemma BatchSettles(d: Desk, step: Step, ids: map<string, nat>, s: Side)
    requires step.Batch? && Faithful(step, ids) && Injective(ids)
    ensures Settled(Next(d, step), s)
         == if step.side == s then Book(Settled(d, s), Present(ResolveAll(step.batch))) else Settled(d, s)
  {
    OnlySideAppend(d.queue, step.side, step.latest, s);
    if step.side == s {
      BookAppend(RoleBooks(d, s), OnlySide(d.queue, s), step.latest);
      BatchPreservesBooks(Settled(d, s), step.batch, step.latest, ids);
    } else {
      assert OnlySide(d.queue, s) + [] == OnlySide(d.queue, s);
    }
  }

  lemma FlushSettles(d: Desk, s: Side)
    ensures RoleBooks(Flushed(d), s) == Settled(d, s) && Settled(Flushed(d), s) == Settled(d, s)
  {
  }

  lemma {:induction false} RunSettles(d: Desk, steps: seq<Step>, ids: map<string, nat>, s: Side)
    requires Injective(ids) && forall step :: step in steps ==> Faithful(step, ids)
    ensures Settled(After(d, steps), s) == Book(Settled(d, s), AllTickers(steps, s))
  {
    if steps != [] {
      var init, step := steps[..|steps| - 1], steps[|steps| - 1];
      assert step in steps;
      RunSettles(d, init, ids, s);
      if step.Batch? {
        BatchSettles(After(d, init), step, ids, s);
        BookAppend(Settled(d, s), AllTickers(init, s), Present(ResolveAll(step.batch)));
      } else {
        FlushSettles(After(d, init), s);
      }
    }
  }

  lemma {:induction false} SideKept(d: Desk, steps: seq<Step>)
    ensures After(d, steps).primarySide == d.primarySide
  {
    if steps != [] {
      SideKept(d, steps[..|steps| - 1]);
    }
  }

  /** Over any number of batches from both exchanges and flushes in between, once the queue is flushed the books of
      each side are those that applying every resolved ticker in order would have left. */
  lemma FlushedBooksAreExact(d: Desk, steps: seq<Step>, ids: map<string, nat>, s: Side)
    requires d.queue == [] && Injective(ids) && forall step :: step in steps ==> Faithful(step, ids)
    ensures RoleBooks(Flushed(After(d, steps)), s) == Book(RoleBooks(d, s), AllTickers(steps, s))
    ensures var t := Flushed(After(d, steps));
            && t.queue == [] && t.primarySide == d.primarySide
            && (s == d.primarySide ==> t.primary == Book(d.primary, AllTickers(steps, s)))
            && (s != d.primarySide ==> t.hedge == Book(d.hedge, AllTickers(steps, s)))
  {
    SideKept(d, steps);
    RunSettles(d, steps, ids, s);
    FlushSettles(After(d, steps), s);
  }
}
