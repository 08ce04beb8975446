/** The five-tier writer pipeline as a transition system. Producers, four forwarders and the worker take
    atomic steps in any order; an event names who steps and, where a database write happens, whether it
    succeeds.

    Queue 0 is the primary channel the worker reads, queue 4 the backpressure channel. Forwarder `i`
    moves commands from queue `i + 1` to queue `i`, holding at most one in between.

    A full channel keeps a line of those who wait for room, and a slot that comes free is promised to the
    first of the line that has none promised: whoever does not wait gets in only past the whole line. */
module WriterPipeline {
  import opened FleetTrades
  import opened WriterWorker

  const TIERS: nat := 5

  /** Where a thread holding a writer handle stands. */
  datatype Producer =
    | Idle
    | Offering(tier: nat, command: Command)  // about to try the channel of that tier
    | Accepted(seqNo: nat)                   // queued, high-water mark not yet read
    | Marking(seqNo: nat, seen: nat)         // in the compare-exchange loop
    | SendingFlush(target: nat)              // about to enter the primary channel, or waiting in its line
    | AwaitingFlush(ticket: Ticket)
    | Gone                                   // handle dropped

  datatype Forwarder = Ready | Holding(command: Command) | Stopped

  /** Who waits in the line of a channel: the forwarder that feeds it, or a caller of a flush. */
  datatype Waiter = Forwarding | Calling(p: nat)

  /** What a producer asks the writer to store. */
  datatype Payload =
    | Batch(trades: seq<FleetTrade>)
    | BatchAndSnapshot(trades: seq<FleetTrade>, snapshot: Snapshot)
    | OnlySnapshot(snapshot: Snapshot)

  function Stamp(p: Payload, n: nat): Command {
    match p
    case Batch(trades) => Trades(n, trades)
    case BatchAndSnapshot(trades, snapshot) => TradesWithSnapshot(n, trades, snapshot)
    case OnlySnapshot(snapshot) => SnapshotOnly(n, snapshot)
  }

  /** `issued`, `flushes`, `dropped`, `observed`, `primaryIn` and `writesOk` record the run so far:
      commands in allocation order, flush commands sent, commands dropped and counted, commands the
      worker received, commands that entered the primary channel, and whether every write succeeded. */
  datatype System = System(
    caps: seq<nat>,
    producers: seq<Producer>,
    queues: seq<seq<Command>>,
    lines: seq<seq<Waiter>>,
    forwarders: seq<Forwarder>,
    worker: Worker,
    running: bool,
    nextSeq: nat,
    enqueuedSeq: nat,
    issued: seq<Command>,
    flushes: seq<Command>,
    dropped: seq<Command>,
    observed: seq<Command>,
    primaryIn: seq<Command>,
    writesOk: bool)

  function Init(caps: seq<nat>): System {
    System(caps, [Idle], [[], [], [], [], []], [[], [], [], [], []], [Ready, Ready, Ready, Ready], FRESH_WORKER, true,
           0, 0, [], [], [], [], [], true)
  }

  datatype Event =
    | CloneHandle(p: nat)
    | DropHandle(p: nat)
    | BeginSend(p: nat, payload: Payload)
    | TryTier(p: nat)
    | LoadMark(p: nat)
    | CasMark(p: nat, spurious: bool)
    | BeginFlush(p: nat)
    | WaitCall(p: nat)
    | SendFlush(p: nat)
    | FlushReturns(p: nat)
    | CancelFlush(p: nat)
    | Take(i: nat)
    | WaitForward(i: nat)
    | Pass(i: nat)
    | Stop(i: nat)
    | Receive(flushOk: bool, writeOk: bool)
    | TimerTick(flushOk: bool)
    | Exit(flushOk: bool)

  /** A step of a thread that holds a writer handle. */
  predicate ByProducer(e: Event) {
    !e.Take? && !e.WaitForward? && !e.Pass? && !e.Stop? && !ByWorker(e)
  }

  predicate ByWorker(e: Event) {
    e.Receive? || e.TimerTick? || e.Exit?
  }

  ghost predicate Shape(s: System) {
    && |s.caps| == |s.queues| == |s.lines| == TIERS
    && |s.forwarders| == TIERS - 1
    && (forall i :: 0 <= i < TIERS ==> |s.queues[i]| <= s.caps[i])
    && (forall i :: 0 <= i < TIERS ==> s.caps[i] > 0)
    && (forall p :: 0 <= p < |s.producers| && s.producers[p].Offering? ==>
                      s.producers[p].tier < TIERS && !s.producers[p].command.Flush?)
  }

  /** No sender of the channel of tier `t` is left. */
  ghost predicate SendersGone(s: System, t: nat)
    requires Shape(s) && t < TIERS
  {
    && (forall p :: 0 <= p < |s.producers| ==> s.producers[p].Gone?)
    && (t < TIERS - 1 ==> s.forwarders[t].Stopped?)
  }

  /** The receiver of the channel of tier `t` is gone. */
  predicate Closed(s: System, t: nat)
    requires |s.forwarders| == TIERS - 1 && t < TIERS
  {
    if t == 0 then !s.running else s.forwarders[t - 1].Stopped?
  }

  /** There is a free slot that is promised to nobody. */
  predicate HasRoom(s: System, t: nat)
    requires |s.caps| == |s.queues| == |s.lines| == TIERS && t < TIERS
  {
    |s.queues[t]| + |s.lines[t]| < s.caps[t]
  }

  function PlaceOf(line: seq<Waiter>, w: Waiter): (k: nat)
    requires w in line
    ensures k < |line| && line[k] == w
  {
    if line[0] == w then 0 else 1 + PlaceOf(line[1..], w)
  }

  function Without(line: seq<Waiter>, w: Waiter): seq<Waiter> {
    if line == [] then [] else if line[0] == w then line[1..] else [line[0]] + Without(line[1..], w)
  }

  /** A slot is promised to `w`, or `w` does not wait and there is room. */
  predicate MayEnter(s: System, t: nat, w: Waiter)
    requires |s.caps| == |s.queues| == |s.lines| == TIERS && t < TIERS
  {
    if w in s.lines[t] then |s.queues[t]| + PlaceOf(s.lines[t], w) < s.caps[t] else HasRoom(s, t)
  }

  predicate MustWait(s: System, t: nat, w: Waiter)
    requires |s.caps| == |s.queues| == |s.lines| == TIERS && |s.forwarders| == TIERS - 1 && t < TIERS
  {
    !Closed(s, t) && w !in s.lines[t] && !HasRoom(s, t)
  }

  ghost predicate Enabled(s: System, e: Event)
    requires Shape(s)
  {
    match e
    case CloneHandle(p) => p < |s.producers| && !s.producers[p].Gone?
    case DropHandle(p) => p < |s.producers| && s.producers[p].Idle?
    case BeginSend(p, payload) => p < |s.producers| && s.producers[p].Idle? && (payload.Batch? ==> payload.trades != [])
    case TryTier(p) => p < |s.producers| && s.producers[p].Offering?
    case LoadMark(p) => p < |s.producers| && s.producers[p].Accepted?
    case CasMark(p, _) => p < |s.producers| && s.producers[p].Marking?
    case BeginFlush(p) => p < |s.producers| && s.producers[p].Idle?
    case WaitCall(p) => p < |s.producers| && s.producers[p].SendingFlush? && MustWait(s, 0, Calling(p))
    case SendFlush(p) =>
      p < |s.producers| && s.producers[p].SendingFlush? && (Closed(s, 0) || MayEnter(s, 0, Calling(p)))
    case FlushReturns(p) =>
      p < |s.producers| && s.producers[p].AwaitingFlush? && (s.producers[p].ticket in s.worker.answered || !s.running)
    case CancelFlush(p) => p < |s.producers| && (s.producers[p].SendingFlush? || s.producers[p].AwaitingFlush?)
    case Take(i) => i < TIERS - 1 && s.forwarders[i].Ready? && s.queues[i + 1] != []
    case WaitForward(i) => i < TIERS - 1 && s.forwarders[i].Holding? && MustWait(s, i, Forwarding)
    case Pass(i) => i < TIERS - 1 && s.forwarders[i].Holding? && (Closed(s, i) || MayEnter(s, i, Forwarding))
    case Stop(i) => i < TIERS - 1 && s.forwarders[i].Ready? && s.queues[i + 1] == [] && SendersGone(s, i + 1)
    case Receive(_, _) => s.running && s.queues[0] != []
    case TimerTick(_) => s.running
    case Exit(_) => s.running && s.queues[0] == [] && SendersGone(s, 0)
  }

  function SetProducer(s: System, p: nat, pc: Producer): System
    requires p < |s.producers|
  {
    s.(producers := s.producers[p := pc])
  }

  /** A command enters the channel of tier `t`. */
  function Push(s: System, t: nat, c: Command): System
    requires t < |s.queues|
  {
    s.(queues := s.queues[t := s.queues[t] + [c]],
       primaryIn := if t == 0 then s.primaryIn + [c] else s.primaryIn)
  }

  function Join(s: System, t: nat, w: Waiter): System
    requires t < |s.lines|
  {
    s.(lines := s.lines[t := s.lines[t] + [w]])
  }

  function Leave(s: System, t: nat, w: Waiter): System
    requires t < |s.lines|
  {
    s.(lines := s.lines[t := Without(s.lines[t], w)])
  }

  function Drop(s: System, c: Command): System {
    s.(dropped := s.dropped + [c])
  }

  function Offer(s: System, p: nat, tier: nat, c: Command): System
    requires |s.caps| == |s.queues| == |s.lines| == TIERS && |s.forwarders| == TIERS - 1 && p < |s.producers|
    requires tier < TIERS && !c.Flush?
  {
    if Closed(s, tier) then SetProducer(Drop(s, c), p, Idle)
    else if HasRoom(s, tier) then SetProducer(Push(s, tier, c), p, Accepted(c.seqNo))
    else if tier + 1 < TIERS then SetProducer(s, p, Offering(tier + 1, c))
    else SetProducer(Drop(s, c), p, Idle)
  }

  function Mark(s: System, p: nat, n: nat, seen: nat, spurious: bool): System
    requires p < |s.producers|
  {
    if n <= seen then SetProducer(s, p, Idle)
    else if s.enqueuedSeq == seen && !spurious then SetProducer(s.(enqueuedSeq := n), p, Idle)
    else SetProducer(s, p, Marking(n, s.enqueuedSeq))
  }

  function EnterFlush(s: System, p: nat, target: nat): System
    requires |s.queues| == TIERS && |s.forwarders| == TIERS - 1 && p < |s.producers|
  {
    if Closed(s, 0) then SetProducer(s, p, Idle)
    else
      var ticket := Ticket(target, |s.flushes|);
      SetProducer(Push(s, 0, Flush(ticket)).(flushes := s.flushes + [Flush(ticket)]), p, AwaitingFlush(ticket))
  }

  function Forward(s: System, i: nat, c: Command): System
    requires |s.queues| == TIERS && |s.forwarders| == TIERS - 1 && i < TIERS - 1
  {
    if Closed(s, i) then Drop(s, c).(forwarders := s.forwarders[i := Stopped])
    else Push(s, i, c).(forwarders := s.forwarders[i := Ready])
  }

  ghost function Apply(s: System, e: Event): System
    requires Shape(s) && Enabled(s, e)
  {
    match e
    case CloneHandle(p) => s.(producers := s.producers + [Idle])
    case DropHandle(p) => SetProducer(s, p, Gone)
    case BeginSend(p, payload) =>
      var c := Stamp(payload, s.nextSeq + 1);
      SetProducer(s.(nextSeq := s.nextSeq + 1, issued := s.issued + [c]), p, Offering(0, c))
    case TryTier(p) => Offer(s, p, s.producers[p].tier, s.producers[p].command)
    case LoadMark(p) => SetProducer(s, p, Marking(s.producers[p].seqNo, s.enqueuedSeq))
    case CasMark(p, spurious) => Mark(s, p, s.producers[p].seqNo, s.producers[p].seen, spurious)
    case BeginFlush(p) => SetProducer(s, p, SendingFlush(s.enqueuedSeq))
    case WaitCall(p) => Join(s, 0, Calling(p))
    case SendFlush(p) => Leave(EnterFlush(s, p, s.producers[p].target), 0, Calling(p))
    case FlushReturns(p) => SetProducer(s, p, Idle)
    case CancelFlush(p) => Leave(SetProducer(s, p, Idle), 0, Calling(p))
    case Take(i) =>
      s.(queues := s.queues[i + 1 := s.queues[i + 1][1..]],
         forwarders := s.forwarders[i := Holding(s.queues[i + 1][0])])
    case WaitForward(i) => Join(s, i, Forwarding)
    case Pass(i) => Leave(Forward(s, i, s.forwarders[i].command), i, Forwarding)
    case Stop(i) => s.(forwarders := s.forwarders[i := Stopped])
    case Receive(flushOk, writeOk) =>
      var c := s.queues[0][0];
      s.(queues := s.queues[0 := s.queues[0][1..]],
         worker := Handle(s.worker, c, flushOk, writeOk),
         observed := s.observed + [c],
         writesOk := s.writesOk && flushOk && writeOk)
    case TimerTick(flushOk) =>
      s.(worker := Tick(s.worker, flushOk), writesOk := s.writesOk && flushOk)
    case Exit(flushOk) =>
      s.(worker := Shutdown(s.worker, flushOk), running := false, writesOk := s.writesOk && flushOk)
  }

  lemma PushShape(s: System, t: nat, c: Command)
    requires Shape(s) && t < TIERS && |s.queues[t]| < s.caps[t]
    ensures Shape(Push(s, t, c))
  {
  }

  lemma SetProducerShape(s: System, p: nat, pc: Producer)
    requires Shape(s) && p < |s.producers| && (pc.Offering? ==> pc.tier < TIERS && !pc.command.Flush?)
    ensures Shape(SetProducer(s, p, pc))
  {
  }

  lemma OfferShape(s: System, p: nat, tier: nat, c: Command)
    requires Shape(s) && p < |s.producers| && tier < TIERS && !c.Flush?
    ensures Shape(Offer(s, p, tier, c))
  {
    if Closed(s, tier) || (!HasRoom(s, tier) && tier + 1 == TIERS) {
      SetProducerShape(Drop(s, c), p, Idle);
    } else if HasRoom(s, tier) {
      PushShape(s, tier, c);
      SetProducerShape(Push(s, tier, c), p, Accepted(c.seqNo));
    } else {
      SetProducerShape(s, p, Offering(tier + 1, c));
    }
  }

  lemma TakeShape(s: System, i: nat)
    requires Shape(s) && Enabled(s, Take(i))
    ensures Shape(Apply(s, Take(i)))
  {
  }

  /** Whoever may enter finds a free slot. */
  lemma EnteringFits(s: System, t: nat, w: Waiter)
    requires Shape(s) && t < TIERS && MayEnter(s, t, w)
    ensures |s.queues[t]| < s.caps[t]
  {
  }

  lemma PassShape(s: System, i: nat)
    requires Shape(s) && Enabled(s, Pass(i))
    ensures Shape(Apply(s, Pass(i)))
  {
    if !Closed(s, i) {
      EnteringFits(s, i, Forwarding);
      PushShape(s, i, s.forwarders[i].command);
    }
  }

  lemma ReceiveShape(s: System, flushOk: bool, writeOk: bool)
    requires Shape(s) && Enabled(s, Receive(flushOk, writeOk))
    ensures Shape(Apply(s, Receive(flushOk, writeOk)))
  {
  }

  lemma SendFlushShape(s: System, p: nat)
    requires Shape(s) && Enabled(s, SendFlush(p))
    ensures Shape(Apply(s, SendFlush(p)))
  {
    if !Closed(s, 0) {
      EnteringFits(s, 0, Calling(p));
      var ticket := Ticket(s.producers[p].target, |s.flushes|);
      PushShape(s, 0, Flush(ticket));
      SetProducerShape(Push(s, 0, Flush(ticket)), p, AwaitingFlush(ticket));
    }
  }

  lemma ProducerShape(s: System, e: Event)
    requires Shape(s) && Enabled(s, e)
    requires !e.TryTier? && !e.Take? && !e.Pass? && !e.Receive? && !e.SendFlush?
    ensures Shape(Apply(s, e))
  {
  }

  /** No event pushes a queue past its capacity. */
  lemma ApplyShape(s: System, e: Event)
    requires Shape(s) && Enabled(s, e)
    ensures Shape(Apply(s, e)) && Apply(s, e).caps == s.caps
  {
    if e.TryTier? {
      OfferShape(s, e.p, s.producers[e.p].tier, s.producers[e.p].command);
    } else if e.Take? {
      TakeShape(s, e.i);
    } else if e.Pass? {
      PassShape(s, e.i);
    } else if e.Receive? {
      ReceiveShape(s, e.flushOk, e.writeOk);
    } else if e.SendFlush? {
      SendFlushShape(s, e.p);
    } else {
      ProducerShape(s, e);
    }
  }

  /** The state after a sequence of events. */
  ghost predicate Runnable(s: System, es: seq<Event>)
    requires Shape(s)
    decreases |es|
  {
    es == [] || (Enabled(s, es[0]) && (ApplyShape(s, es[0]); Runnable(Apply(s, es[0]), es[1..])))
  }

  ghost function Run(s: System, es: seq<Event>): (t: System)
    requires Shape(s) && Runnable(s, es)
    ensures Shape(t) && t.caps == s.caps
    decreases |es|
  {
    if es == [] then s
    else
      ApplyShape(s, es[0]);
      Run(Apply(s, es[0]), es[1..])
  }

  lemma {:induction false} RunAppend(s: System, es: seq<Event>, fs: seq<Event>)
    requires Shape(s) && Runnable(s, es) && Runnable(Run(s, es), fs)
    ensures Runnable(s, es + fs) && Run(s, es + fs) == Run(Run(s, es), fs)
    decreases |es|
  {
    if es == [] {
      assert es + fs == fs;
    } else {
      ApplyShape(s, es[0]);
      assert (es + fs)[1..] == es[1..] + fs;
      RunAppend(Apply(s, es[0]), es[1..], fs);
    }
  }

  lemma RunFirst(s: System, e: Event, rest: seq<Event>)
    requires Shape(s) && Enabled(s, e) && Shape(Apply(s, e)) && Runnable(Apply(s, e), rest)
    ensures Runnable(s, [e] + rest) && Run(s, [e] + rest) == Run(Apply(s, e), rest)
  {
    assert ([e] + rest)[0] == e && ([e] + rest)[1..] == rest;
  }
}
