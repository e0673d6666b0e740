/**
The analytics queue: publishers put order events into a bounded channel, one consumer collects them
into batches and hands each batch to flush, and closing the client drains what is left.

The step machine has one step per channel operation, so a run is any interleaving of publishers, the
ticker, the consumer and Close. Handing a batch to flush is where the model ends.
*/
module Analytics {
  const CAPACITY: nat := 1000

  datatype OrderEvent = OrderEvent(orderId: string, customerId: string, status: string, totalCents: int, itemCount: int)

  datatype Mode = Running | Draining | Stopped

  /** accepted records, in order, every event the channel ever took in. */
  datatype State = State(accepted: seq<OrderEvent>, queue: seq<OrderEvent>, batch: seq<OrderEvent>,
      flushed: seq<seq<OrderEvent>>, closed: bool, mode: Mode)

  /** Take is a receive from the channel; Observe is the consumer seeing that the client is closed;
      Leave is the drain finding the channel empty. */
  datatype Step = Publish(event: OrderEvent) | Take | Tick | Close | Observe | Leave

  function Fresh(): State { State([], [], [], [], false, Running) }

  /** A select takes any case that is ready; Close closes a channel and so may happen once. */
  predicate Enabled(s: State, step: Step) {
    match step
    case Publish(_) => true
    case Take => s.mode != Stopped && s.queue != []
    case Tick => s.mode == Running
    case Close => !s.closed
    case Observe => s.closed && s.mode == Running
    case Leave => s.mode == Draining && s.queue == []
  }

  function Flush(s: State): State {
    s.(flushed := s.flushed + [s.batch], batch := [])
  }

  function Next(s: State, step: Step, batchSize: nat): State
    requires Enabled(s, step)
  {
    match step
    case Publish(e) =>
      if |s.queue| < CAPACITY then s.(accepted := s.accepted + [e], queue := s.queue + [e]) else s
    case Take =>
      var taken := s.(queue := s.queue[1..], batch := s.batch + [s.queue[0]]);
      if s.mode == Running && |taken.batch| >= batchSize then Flush(taken) else taken
    case Tick => if s.batch != [] then Flush(s) else s
    case Close => s.(closed := true)
    case Observe => s.(mode := Draining)
    case Leave => (if s.batch != [] then Flush(s) else s).(mode := Stopped)
  }

  predicate Possible(s: State, run: seq<Step>, batchSize: nat)
    decreases |run|
  {
    run == [] || (Enabled(s, run[0]) && Possible(Next(s, run[0], batchSize), run[1..], batchSize))
  }

  function Exec(s: State, run: seq<Step>, batchSize: nat): State
    requires Possible(s, run, batchSize)
    decreases |run|
  {
    if run == [] then s else Exec(Next(s, run[0], batchSize), run[1..], batchSize)
  }

  function Flat(batches: seq<seq<OrderEvent>>): seq<OrderEvent> {
    if batches == [] then [] else batches[0] + Flat(batches[1..])
  }

  lemma {:induction false} FlatSnoc(batches: seq<seq<OrderEvent>>, last: seq<OrderEvent>)
    ensures Flat(batches + [last]) == Flat(batches) + last
  {
    if batches == [] {
      assert Flat([last]) == last + Flat([]);
    } else {
      FlatSnoc(batches[1..], last);
      assert (batches + [last])[1..] == batches[1..] + [last];
    }
  }

  /******* Every run *******/

  /** Nothing is lost, doubled or reordered between the channel and flush. */
  predicate Conserved(s: State) {
    s.accepted == Flat(s.flushed) + s.batch + s.queue
  }

  function Threshold(batchSize: nat): nat { if batchSize == 0 then 1 else batchSize }

  ghost predicate Bounded(s: State, batchSize: nat) {
    && |s.queue| <= CAPACITY
    && (s.mode == Running ==> |s.batch| < Threshold(batchSize))
    && (forall b :: b in s.flushed ==> b != [])
    && (s.mode != Stopped ==> forall b :: b in s.flushed ==> |b| <= Threshold(batchSize))
    && (s.mode != Running ==> s.closed)
    && (s.mode == Stopped ==> s.batch == [])
  }

  lemma FlushConserves(s: State)
    requires Conserved(s)
    ensures Conserved(Flush(s))
  {
    FlatSnoc(s.flushed, s.batch);
  }

  lemma NextConserves(s: State, step: Step, batchSize: nat)
    requires Enabled(s, step) && Conserved(s)
    ensures Conserved(Next(s, step, batchSize))
  {
    match step
    case Publish(e) =>
      assert Flat(s.flushed) + s.batch + (s.queue + [e]) == Flat(s.flushed) + s.batch + s.queue + [e];
    case Take =>
      var taken := s.(queue := s.queue[1..], batch := s.batch + [s.queue[0]]);
      assert s.queue == [s.queue[0]] + s.queue[1..];
      assert Conserved(taken);
      FlushConserves(taken);
    case Tick => FlushConserves(s);
    case Leave => FlushConserves(s);
    case Close =>
    case Observe =>
  }

  lemma NextBounded(s: State, step: Step, batchSize: nat)
    requires Enabled(s, step) && Bounded(s, batchSize)
    ensures Bounded(Next(s, step, batchSize), batchSize)
  {
  }

  /** In every run what the channel took in is what was flushed, then the pending batch, then the
      channel; and outside the drain the pending batch stays below the batch size. */
  lemma {:induction false} RunConserves(s: State, run: seq<Step>, batchSize: nat)
    requires Possible(s, run, batchSize) && Conserved(s) && Bounded(s, batchSize)
    ensures var end := Exec(s, run, batchSize); Conserved(end) && Bounded(end, batchSize)
    decreases |run|
  {
    if run == [] {
    } else {
      NextConserves(s, run[0], batchSize);
      NextBounded(s, run[0], batchSize);
      RunConserves(Next(s, run[0], batchSize), run[1..], batchSize);
    }
  }

  lemma Conservation(run: seq<Step>, batchSize: nat)
    requires Possible(Fresh(), run, batchSize)
    ensures var end := Exec(Fresh(), run, batchSize);
            && end.accepted == Flat(end.flushed) + end.batch + end.queue
            && (end.mode == Running ==> |end.batch| < Threshold(batchSize))
            && (end.mode == Running ==> forall b :: b in end.flushed ==> 0 < |b| <= Threshold(batchSize))
  {
    RunConserves(Fresh(), run, batchSize);
  }

  /******* When a batch is handed over *******/

  lemma {:induction false} ExecConcat(s: State, a: seq<Step>, b: seq<Step>, batchSize: nat)
    requires Possible(s, a + b, batchSize)
    ensures Possible(s, a, batchSize) && Possible(Exec(s, a, batchSize), b, batchSize)
    ensures Exec(s, a + b, batchSize) == Exec(Exec(s, a, batchSize), b, batchSize)
    decreases |a|
  {
    if a == [] {
      assert a + b == b;
    } else {
      assert (a + b)[1..] == a[1..] + b;
      ExecConcat(Next(s, a[0], batchSize), a[1..], b, batchSize);
    }
  }

  lemma {:induction false} PossibleConcat(s: State, a: seq<Step>, b: seq<Step>, batchSize: nat)
    requires Possible(s, a, batchSize) && Possible(Exec(s, a, batchSize), b, batchSize)
    ensures Possible(s, a + b, batchSize)
    decreases |a|
  {
    if a == [] {
      assert a + b == b;
    } else {
      assert (a + b)[1..] == a[1..] + b;
      PossibleConcat(Next(s, a[0], batchSize), a[1..], b, batchSize);
    }
  }

  lemma PossibleSnoc(run: seq<Step>, step: Step, batchSize: nat)
    requires Possible(Fresh(), run, batchSize) && Enabled(Exec(Fresh(), run, batchSize), step)
    ensures Possible(Fresh(), run + [step], batchSize)
    ensures Exec(Fresh(), run + [step], batchSize) == Next(Exec(Fresh(), run, batchSize), step, batchSize)
  {
    var s := Exec(Fresh(), run, batchSize);
    assert [step][1..] == [];
    assert Possible(s, [step], batchSize) && Exec(s, [step], batchSize) == Next(s, step, batchSize);
    PossibleConcat(Fresh(), run, [step], batchSize);
    ExecConcat(Fresh(), run, [step], batchSize);
  }

  /** While the consumer runs it can always take a tick, and a tick leaves nothing pending: what was
      pending is the last batch handed over, if there was anything. */
  lemma TickFlushes(run: seq<Step>, batchSize: nat)
    requires Possible(Fresh(), run, batchSize) && Exec(Fresh(), run, batchSize).mode == Running
    ensures Possible(Fresh(), run + [Tick], batchSize)
    ensures var before, after := Exec(Fresh(), run, batchSize), Exec(Fresh(), run + [Tick], batchSize);
            && after.batch == [] && after.queue == before.queue
            && after.flushed == if before.batch == [] then before.flushed else before.flushed + [before.batch]
  {
    PossibleSnoc(run, Tick, batchSize);
  }

  /** While the consumer runs, the event it takes from the channel is the last of a batch that is handed
      over if and only if that batch is then as long as the batch size; otherwise it joins what is
      pending. In the drain it always does. */
  lemma TakeFlushesExactly(run: seq<Step>, batchSize: nat)
    requires Possible(Fresh(), run, batchSize)
    requires var s := Exec(Fresh(), run, batchSize); s.mode != Stopped && s.queue != []
    ensures Possible(Fresh(), run + [Take], batchSize)
    ensures var before, after := Exec(Fresh(), run, batchSize), Exec(Fresh(), run + [Take], batchSize);
            var now := before.batch + [before.queue[0]];
            && after.queue == before.queue[1..]
            && if before.mode == Running && |now| == Threshold(batchSize)
               then after.batch == [] && after.flushed == before.flushed + [now]
               else after.batch == now && after.flushed == before.flushed
  {
    RunConserves(Fresh(), run, batchSize);
    PossibleSnoc(run, Take, batchSize);
  }

  /** So a batch shorter than the batch size comes from a tick, or is the last one, of the drain. */
  lemma ShortBatch(run: seq<Step>, step: Step, batchSize: nat)
    requires Possible(Fresh(), run, batchSize) && Enabled(Exec(Fresh(), run, batchSize), step)
    ensures var before, after := Exec(Fresh(), run, batchSize), Next(Exec(Fresh(), run, batchSize), step, batchSize);
            && (after.flushed == before.flushed || after.flushed == before.flushed + [after.flushed[|before.flushed|]])
            && (after.flushed != before.flushed && |after.flushed[|before.flushed|]| < Threshold(batchSize) ==>
                  step == Tick || (step == Leave && after.mode == Stopped))
  {
    RunConserves(Fresh(), run, batchSize);
  }

  /** An event is accepted if and only if fewer than a thousand are waiting in the channel. */
  lemma AcceptedExactly(run: seq<Step>, e: OrderEvent, batchSize: nat)
    requires Possible(Fresh(), run, batchSize)
    ensures Possible(Fresh(), run + [Publish(e)], batchSize)
    ensures var before, after := Exec(Fresh(), run, batchSize), Exec(Fresh(), run + [Publish(e)], batchSize);
            && after == before.(accepted := after.accepted, queue := after.queue)
            && (|before.queue| < 1000 ==>
                  after.accepted == before.accepted + [e] && after.queue == before.queue + [e])
            && (|before.queue| >= 1000 ==> after == before)
  {
    PossibleSnoc(run, Publish(e), batchSize);
  }

  /******* Closing *******/

  /** The events of a run that the channel took in. */
  function Taken(s: State, run: seq<Step>, batchSize: nat): seq<OrderEvent>
    requires Possible(s, run, batchSize)
    decreases |run|
  {
    if run == [] then []
    else
      var rest := Taken(Next(s, run[0], batchSize), run[1..], batchSize);
      if run[0].Publish? && |s.queue| < CAPACITY then [run[0].event] + rest else rest
  }

  lemma {:induction false} AcceptedGrows(s: State, run: seq<Step>, batchSize: nat)
    requires Possible(s, run, batchSize)
    ensures Exec(s, run, batchSize).accepted == s.accepted + Taken(s, run, batchSize)
    decreases |run|
  {
    if run == [] {
    } else {
      AcceptedGrows(Next(s, run[0], batchSize), run[1..], batchSize);
    }
  }

  /** Once stopped, the consumer hands nothing more to flush. */
  lemma {:induction false} StoppedIsFinal(s: State, run: seq<Step>, batchSize: nat)
    requires Possible(s, run, batchSize) && s.mode == Stopped
    ensures var end := Exec(s, run, batchSize); end.mode == Stopped && end.flushed == s.flushed
    decreases |run|
  {
    if run == [] {
    } else {
      StoppedIsFinal(Next(s, run[0], batchSize), run[1..], batchSize);
    }
  }

  /** When the drain ends everything the channel took in has been handed to flush. */
  lemma LeaveFlushesAll(s: State, batchSize: nat)
    requires Conserved(s) && Enabled(s, Leave)
    ensures var end := Next(s, Leave, batchSize);
            end.accepted == Flat(end.flushed) && end.batch == [] && end.queue == []
  {
    NextConserves(s, Leave, batchSize);
    assert Flat(s.flushed) + s.batch + [] == Flat(s.flushed) + s.batch;
  }

  /** After Close has waited for the consumer, exactly the events the channel took in after the drain
      ended were lost: all was flushed if and only if there were none. */
  lemma LostIsLate(before: seq<Step>, after: seq<Step>, batchSize: nat)
    requires Possible(Fresh(), before + ([Leave] + after), batchSize)
    ensures Possible(Fresh(), before, batchSize)
    ensures var atEnd := Exec(Fresh(), before, batchSize);
            Enabled(atEnd, Leave) && Possible(Next(atEnd, Leave, batchSize), after, batchSize)
    ensures var end := Exec(Fresh(), before + ([Leave] + after), batchSize);
            var late := Taken(Next(Exec(Fresh(), before, batchSize), Leave, batchSize), after, batchSize);
            end.accepted == Flat(end.flushed) + late && (end.accepted == Flat(end.flushed) <==> late == [])
  {
    ExecConcat(Fresh(), before, [Leave] + after, batchSize);
    var atEnd := Exec(Fresh(), before, batchSize);
    RunConserves(Fresh(), before, batchSize);
    LeaveFlushesAll(atEnd, batchSize);
    assert ([Leave] + after)[1..] == after;
    StoppedIsFinal(Next(atEnd, Leave, batchSize), after, batchSize);
    AcceptedGrows(Next(atEnd, Leave, batchSize), after, batchSize);
  }

  /** Such a run, for every event: published after the drain has ended, it is accepted and never flushed. */
  lemma LateEventIsLost(e: OrderEvent, batchSize: nat)
    ensures var run := [Close, Observe] + ([Leave] + [Publish(e)]);
            && Possible(Fresh(), run, batchSize)
            && Exec(Fresh(), run, batchSize).accepted == [e] && Exec(Fresh(), run, batchSize).flushed == []
  {
    var drained := Fresh().(closed := true, mode := Draining);
    var stopped := drained.(mode := Stopped);
    var end := stopped.(accepted := [e], queue := [e]);
    assert [] + [e] == [e] && Next(stopped, Publish(e), batchSize) == end;
    assert [Publish(e)][1..] == [] && Possible(stopped, [Publish(e)], batchSize);
    assert Exec(stopped, [Publish(e)], batchSize) == end;
    assert [Leave, Publish(e)][1..] == [Publish(e)];
    assert Possible(drained, [Leave, Publish(e)], batchSize) && Exec(drained, [Leave, Publish(e)], batchSize) == end;
    var run := [Close, Observe] + ([Leave] + [Publish(e)]);
    assert run == [Close, Observe, Leave, Publish(e)] && run[1..][1..] == [Leave, Publish(e)];
  }

  predicate Quiet(run: seq<Step>) {
    forall i :: 0 <= i < |run| ==> !run[i].Publish?
  }

  lemma {:induction false} QuietTakesNothing(s: State, run: seq<Step>, batchSize: nat)
    requires Possible(s, run, batchSize) && Quiet(run)
    ensures Taken(s, run, batchSize) == []
    decreases |run|
  {
    if run == [] {
    } else {
      QuietTakesNothing(Next(s, run[0], batchSize), run[1..], batchSize);
    }
  }

  lemma {:induction false} QuietRunFlushesAll(s: State, run: seq<Step>, batchSize: nat)
    requires Possible(s, run, batchSize) && Quiet(run) && Conserved(s) && Bounded(s, batchSize)
    requires s.mode != Stopped && Exec(s, run, batchSize).mode == Stopped
    ensures var end := Exec(s, run, batchSize); end.accepted == Flat(end.flushed)
    decreases |run|
  {
    var s' := Next(s, run[0], batchSize);
    if run[0].Leave? {
      LeaveFlushesAll(s, batchSize);
      StoppedIsFinal(s', run[1..], batchSize);
      QuietTakesNothing(s', run[1..], batchSize);
      AcceptedGrows(s', run[1..], batchSize);
    } else {
      NextConserves(s, run[0], batchSize);
      NextBounded(s, run[0], batchSize);
      QuietRunFlushesAll(s', run[1..], batchSize);
    }
  }

  /** After Close with no later Publish, once Close's wait is over everything the channel ever took
      in has been handed to flush, in order. */
  lemma CloseFlushesAll(before: seq<Step>, after: seq<Step>, batchSize: nat)
    requires Possible(Fresh(), before + ([Close] + after), batchSize) && Quiet(after)
    requires Exec(Fresh(), before + ([Close] + after), batchSize).mode == Stopped
    ensures var end := Exec(Fresh(), before + ([Close] + after), batchSize); end.accepted == Flat(end.flushed)
  {
    ExecConcat(Fresh(), before, [Close] + after, batchSize);
    RunConserves(Fresh(), before, batchSize);
    var atClose := Exec(Fresh(), before, batchSize);
    assert ([Close] + after)[1..] == after;
    QuietRunFlushesAll(atClose, [Close] + after, batchSize);
  }

  /** The wait in Close ends: with nobody publishing, the consumer needs one receive per queued event. */
  function DrainRun(s: State): seq<Step> {
    seq(|s.queue|, _ => Take) + [Leave]
  }

  lemma {:induction false} DrainEnds(s: State, batchSize: nat)
    requires s.mode == Draining
    ensures Possible(s, DrainRun(s), batchSize)
    ensures Exec(s, DrainRun(s), batchSize)
            == State(s.accepted, [], [],
                     if s.batch + s.queue == [] then s.flushed else s.flushed + [s.batch + s.queue],
                     s.closed, Stopped)
    decreases |s.queue|
  {
    var run := DrainRun(s);
    if s.queue == [] {
      assert run == [Leave];
      assert Exec(s, run, batchSize) == Next(s, Leave, batchSize);
      assert s.batch + s.queue == s.batch;
    } else {
      var s' := Next(s, Take, batchSize);
      assert run[0] == Take && run[1..] == DrainRun(s');
      DrainEnds(s', batchSize);
      assert s'.batch + s'.queue == s.batch + s.queue;
    }
  }

  /******* The client *******/

  class ClickHouseClient {
    const batchSize: nat
    var events: seq<OrderEvent>
    var batch: seq<OrderEvent>
    var flushes: seq<seq<OrderEvent>>
    var done: bool
    var mode: Mode
    ghost var accepted: seq<OrderEvent>

    ghost function Contents(): State
      reads this
    {
      State(accepted, events, batch, flushes, done, mode)
    }

    constructor (batchSize: nat)
      ensures Contents() == Fresh() && this.batchSize == batchSize
    {
      this.batchSize := batchSize;
      events, batch, flushes, done, mode := [], [], [], false, Running;
      accepted := [];
    }

    /** A full channel drops the event; nobody is told. */
    method Send(event: OrderEvent)
      modifies this
      ensures Contents() == Next(old(Contents()), Publish(event), batchSize)
    {
      if |events| < CAPACITY {
        events := events + [event];
        accepted := accepted + [event];
      }
    }

    method HandOver()
      modifies this
      ensures Contents() == Flush(old(Contents()))
    {
      flushes := flushes + [batch];
      batch := [];
    }

    /** The consumer's select took an event. */
    method OnEvent()
      requires Enabled(Contents(), Take) && mode == Running
      modifies this
      ensures Contents() == Next(old(Contents()), Take, batchSize)
    {
      var event := events[0];
      events := events[1..];
      batch := batch + [event];
      if |batch| >= batchSize { HandOver(); }
    }

    /** The consumer's select took a tick. */
    method OnTick()
      requires mode == Running
      modifies this
      ensures Contents() == Next(old(Contents()), Tick, batchSize)
    {
      if |batch| > 0 { HandOver(); }
    }

    /** The consumer's select took the closed channel: it drains what is left, in one last batch
        that may be larger than the batch size. */
    method OnDone()
      requires Enabled(Contents(), Observe)
      modifies this
      ensures var draining := Next(old(Contents()), Observe, batchSize);
              && Possible(draining, DrainRun(draining), batchSize)
              && Contents() == Exec(draining, DrainRun(draining), batchSize)
    {
      mode := Draining;
      ghost var draining := Contents();
      while |events| > 0
        invariant Contents() == State(draining.accepted, events, batch, draining.flushed, draining.closed, Draining)
        invariant batch + events == draining.batch + draining.queue
        decreases |events|
      {
        var event := events[0];
        assert batch + events == batch + [event] + events[1..];
        events := events[1..];
        batch := batch + [event];
      }
      assert batch + events == batch;
      if |batch| > 0 { HandOver(); }
      mode := Stopped;
      DrainEnds(draining, batchSize);
    }
  }
}
