/** The collector's persistence path: the stream thread enqueues closed candles, the writer
    thread drains the ring in batches and hands each batch to the database.

    `World` runs both threads over the ring of module SpscRingQueue, one atomic access per
    step. `handed` is the sequence of batches passed to the database so far. */
module Collector {
  import opened SpscRingQueue

  const BATCH_SIZE: nat := 256
  const QUEUE_CAPACITY: nat := 8192

  /** Where the stream thread stands inside `try_enqueue`. */
  datatype Enqueuer = Resting | Pushing | Counting(ok: bool) | Measuring

  /** Where the writer thread stands inside `writer_loop`. */
  datatype Writer = LoopTest | EmptyTest | Filling | Filled | Waiting | Saving | Logging | Exited

  datatype World<T> = World(
    ring: Ring<T>,
    running: bool,
    enqueuer: Enqueuer,
    enqueued: nat,
    dropped: nat,
    writer: Writer,
    batch: seq<T>,
    handed: seq<seq<T>>,
    // history: how many items had been pushed when the loop condition last tested the queue
    lastTest: nat,
    // history: how many pushes have failed
    failures: nat)

  datatype Action<T> =
    | Enqueue(value: T) | EnqueueRing | Count | Measure
    | Stop
    | TestRunning | TestEmpty | Fill | CheckBatch | Wake | Peek | Save | Log | EndLog

  function Start<T>(): World<T> {
    World(Initial(QUEUE_CAPACITY + 1), true, Resting, 0, 0, LoopTest, [], [], 0, 0)
  }

  /** The next access of the push in progress. */
  function PushStep<T>(s: Ring<T>): Step<T>
    requires !s.producer.PIdle? && !s.producer.PSizeHead?
  {
    match s.producer
    case PHeadLoaded(_, _) => PushLoadTail
    case PRoomSeen(_, _) => PushWriteSlot
    case PSlotWritten(_, _) => PushPublish
  }

  /** The next access of the pop in progress, or the first of a new one. */
  function PopStep<T>(s: Ring<T>): Step<T>
    requires !s.consumer.CEmptyTail? && !s.consumer.CSizeHead?
  {
    match s.consumer
    case CIdle => PopLoadTail
    case CTailLoaded(_) => PopLoadHead
    case CItemSeen(_) => PopMoveOut
    case CMovedOut(_, _) => PopResetSlot
    case CSlotReset(_, _) => PopPublish
  }

  function EmptyStep<T>(s: Ring<T>): Step<T> {
    if s.consumer.CIdle? then EmptyLoadTail else EmptyLoadHead
  }

  predicate CanAct<T>(w: World<T>, action: Action<T>) {
    match action
    case Enqueue(_) => w.enqueuer.Resting?
    case EnqueueRing => w.enqueuer.Pushing?
    case Count => w.enqueuer.Counting?
    case Measure => w.enqueuer.Measuring?
    case Stop => true
    case TestRunning => w.writer.LoopTest?
    case TestEmpty => w.writer.EmptyTest?
    case Fill => w.writer.Filling?
    case CheckBatch => w.writer.Filled?
    case Wake => w.writer.Waiting? && w.ring.consumer.CIdle?
    case Peek => w.writer.Waiting?
    case Save => w.writer.Saving?
    case Log => w.writer.Logging?
    case EndLog => w.writer.Logging? && w.ring.consumer.CIdle?
  }

  /** The effect of a ring access on the thread that made it, given the ring afterwards and
      what the call returned. */
  function AfterPush<T>(w: World<T>, ring: Ring<T>, outcome: Outcome<T>): World<T> {
    match outcome
    case Pushed(ok) => w.(ring := ring, enqueuer := Counting(ok), failures := w.failures + if ok then 0 else 1)
    case _ => w.(ring := ring)
  }

  function AfterPop<T>(w: World<T>, ring: Ring<T>, outcome: Outcome<T>): World<T> {
    match outcome
    case PoppedNothing => w.(ring := ring, writer := Filled)
    case PoppedValue(out) => w.(ring := ring, batch := w.batch + [out])
    case _ => w.(ring := ring)
  }

  function AfterTest<T>(w: World<T>, ring: Ring<T>, outcome: Outcome<T>): World<T> {
    match outcome
    case EmptyIs(answer) => w.(ring := ring, writer := if answer then Exited else Filling, lastTest := |ring.pushed|)
    case _ => w.(ring := ring)
  }

  function Act<T>(w: World<T>, action: Action<T>): World<T>
    requires WorldInv(w) && CanAct(w, action)
  {
    match action
    case Enqueue(value) => w.(ring := Next(w.ring, PushLoadHead(value)), enqueuer := Pushing)
    case EnqueueRing => AfterPush(w, Next(w.ring, PushStep(w.ring)), Returns(w.ring, PushStep(w.ring)))
    case Count =>
      if w.enqueuer.ok then w.(enqueued := w.enqueued + 1, enqueuer := Measuring)
      else w.(dropped := w.dropped + 1, enqueuer := Resting)
    case Measure =>
      if w.ring.producer.PIdle? then w.(ring := Next(w.ring, ProducerSizeLoadHead))
      else w.(ring := Next(w.ring, ProducerSizeLoadTail), enqueuer := Resting)
    case Stop => w.(running := false)
    case TestRunning => w.(writer := if w.running then Filling else EmptyTest)
    case TestEmpty => AfterTest(w, Next(w.ring, EmptyStep(w.ring)), Returns(w.ring, EmptyStep(w.ring)))
    case Fill =>
      if w.ring.consumer.CIdle? && |w.batch| >= BATCH_SIZE then w.(writer := Filled)
      else AfterPop(w, Next(w.ring, PopStep(w.ring)), Returns(w.ring, PopStep(w.ring)))
    case CheckBatch => w.(writer := if w.batch == [] then Waiting else Saving)
    case Wake => w.(writer := LoopTest)
    case Peek => w.(ring := Next(w.ring, EmptyStep(w.ring)))
    case Save => w.(handed := w.handed + [w.batch], batch := [], writer := Logging)
    case Log =>
      w.(ring := Next(w.ring, if w.ring.consumer.CIdle? then ConsumerSizeLoadHead else ConsumerSizeLoadTail))
    case EndLog => w.(writer := LoopTest)
  }

  function Flatten<T>(batches: seq<seq<T>>): seq<T> {
    if batches == [] then [] else Flatten(batches[..|batches| - 1]) + batches[|batches| - 1]
  }

  lemma FlattenSnoc<T>(batches: seq<seq<T>>, last: seq<T>)
    ensures Flatten(batches + [last]) == Flatten(batches) + last
  {
    assert (batches + [last])[..|batches|] == batches;
  }

  ghost predicate EnqueuerInv<T>(w: World<T>) {
    && w.dropped + (if w.enqueuer == Counting(false) then 1 else 0) == w.failures
    && w.enqueued + (if w.enqueuer == Counting(true) then 1 else 0) == |w.ring.pushed|
    && match w.enqueuer
       case Resting => w.ring.producer.PIdle?
       case Pushing => !w.ring.producer.PIdle? && !w.ring.producer.PSizeHead?
       case Counting(_) => w.ring.producer.PIdle?
       case Measuring => w.ring.producer.PIdle? || w.ring.producer.PSizeHead?
  }

  ghost predicate WriterInv<T>(w: World<T>) {
    && (!w.writer.Filling? && !w.writer.Filled? && !w.writer.Saving? ==> w.batch == [])
    && (w.writer.Saving? ==> w.batch != [])
    && match w.writer
       case EmptyTest => w.ring.consumer.CIdle? || w.ring.consumer.CEmptyTail?
       case Waiting => w.ring.consumer.CIdle? || w.ring.consumer.CEmptyTail?
       case Logging => w.ring.consumer.CIdle? || w.ring.consumer.CSizeHead?
       case Filling =>
         !w.ring.consumer.CEmptyTail? && !w.ring.consumer.CSizeHead?
         && (w.ring.consumer.CIdle? || |w.batch| < BATCH_SIZE)
       case Exited => w.ring.consumer.CIdle? && !w.running && |w.ring.popped| == w.lastTest
       case _ => w.ring.consumer.CIdle?
  }

  ghost predicate LoopsInv<T>(w: World<T>) {
    && w.ring.Capacity() == QUEUE_CAPACITY + 1
    && w.ring.popped == Flatten(w.handed) + w.batch
    && |w.batch| <= BATCH_SIZE
    && (forall b | b in w.handed :: 1 <= |b| <= BATCH_SIZE)
    && (w.writer.EmptyTest? ==> !w.running)
    && w.lastTest <= |w.ring.pushed|
    && EnqueuerInv(w) && WriterInv(w)
  }

  ghost predicate WorldInv<T>(w: World<T>) {
    Inv(w.ring) && LoopsInv(w)
  }

  /** A producer access leaves the consumer side of the ring alone. */
  ghost predicate ProducerSide<T>(s: Ring<T>, t: Ring<T>) {
    t.popped == s.popped && t.consumer == s.consumer && t.Capacity() == s.Capacity()
  }

  ghost predicate ConsumerSide<T>(s: Ring<T>, t: Ring<T>) {
    t.pushed == s.pushed && t.producer == s.producer && t.Capacity() == s.Capacity()
  }

  lemma PushKeepsLoops<T>(w: World<T>, ring: Ring<T>, outcome: Outcome<T>)
    requires LoopsInv(w) && w.enqueuer.Pushing? && ProducerSide(w.ring, ring)
    requires outcome.Pushed? ==> ring.producer.PIdle? && |ring.pushed| == |w.ring.pushed| + if outcome.ok then 1 else 0
    requires !outcome.Pushed? ==> !ring.producer.PIdle? && !ring.producer.PSizeHead? && |ring.pushed| == |w.ring.pushed|
    ensures LoopsInv(AfterPush(w, ring, outcome))
  {
  }

  lemma PopKeepsLoops<T>(w: World<T>, ring: Ring<T>, outcome: Outcome<T>)
    requires LoopsInv(w) && w.writer.Filling? && ConsumerSide(w.ring, ring) && |w.batch| < BATCH_SIZE
    requires outcome.PoppedValue? || outcome.PoppedNothing? ==> ring.consumer.CIdle?
    requires !ring.consumer.CEmptyTail? && !ring.consumer.CSizeHead?
    requires ring.popped == w.ring.popped + if outcome.PoppedValue? then [outcome.out] else []
    ensures LoopsInv(AfterPop(w, ring, outcome))
  {
    hide Flatten;
    if outcome.PoppedValue? {
      assert ring.popped == Flatten(w.handed) + (w.batch + [outcome.out]);
    }
  }

  lemma TestKeepsLoops<T>(w: World<T>, ring: Ring<T>, outcome: Outcome<T>)
    requires LoopsInv(w) && w.writer.EmptyTest? && ConsumerSide(w.ring, ring) && ring.popped == w.ring.popped
    requires outcome.EmptyIs? ==> ring.consumer.CIdle? && (outcome.answer ==> |ring.popped| == |ring.pushed|)
    requires ring.consumer.CIdle? || ring.consumer.CEmptyTail?
    ensures LoopsInv(AfterTest(w, ring, outcome))
  {
  }

  lemma EnqueueRingKeepsInv<T>(w: World<T>)
    requires WorldInv(w) && CanAct(w, EnqueueRing)
    ensures WorldInv(Act(w, EnqueueRing))
  {
    var step := PushStep(w.ring);
    NextKeepsInv(w.ring, step);
    PushKeepsLoops(w, Next(w.ring, step), Returns(w.ring, step));
  }

  lemma TestEmptyKeepsInv<T>(w: World<T>)
    requires WorldInv(w) && CanAct(w, TestEmpty)
    ensures WorldInv(Act(w, TestEmpty))
  {
    var step := EmptyStep(w.ring);
    NextKeepsInv(w.ring, step);
    FailuresAreExact(w.ring);
    TestKeepsLoops(w, Next(w.ring, step), Returns(w.ring, step));
  }

  /** What one access of a pop does to the ring. */
  lemma PopStepEffect<T>(s: Ring<T>)
    requires Inv(s) && !s.consumer.CEmptyTail? && !s.consumer.CSizeHead?
    ensures var step := PopStep(s);
            && Enabled(s, step)
            && (var t, outcome := Next(s, step), Returns(s, step);
                && Inv(t) && ConsumerSide(s, t) && !t.consumer.CEmptyTail? && !t.consumer.CSizeHead?
                && (outcome.PoppedValue? || outcome.PoppedNothing? ==> t.consumer.CIdle?)
                && t.popped == s.popped + if outcome.PoppedValue? then [outcome.out] else [])
  {
    hide SlotsInv, ProducerInv;
    NextKeepsInv(s, PopStep(s));
  }

  lemma FillKeepsInv<T>(w: World<T>)
    requires WorldInv(w) && CanAct(w, Fill)
    ensures WorldInv(Act(w, Fill))
  {
    hide Inv, Next, Returns, PopStep, Flatten, AfterPop;
    if !(w.ring.consumer.CIdle? && |w.batch| >= BATCH_SIZE) {
      PopStepEffect(w.ring);
      var step := PopStep(w.ring);
      PopKeepsLoops(w, Next(w.ring, step), Returns(w.ring, step));
      AfterPopRing(w, Next(w.ring, step), Returns(w.ring, step));
    }
  }

  lemma AfterPopRing<T>(w: World<T>, ring: Ring<T>, outcome: Outcome<T>)
    ensures AfterPop(w, ring, outcome).ring == ring
  {
  }

  /** A producer step that only loads an index. */
  lemma ProducerLooks<T>(w: World<T>, action: Action<T>)
    requires WorldInv(w) && CanAct(w, action) && (action.Enqueue? || action.Measure?)
    ensures WorldInv(Act(w, action))
  {
    hide SlotsInv, ProducerInv, ConsumerInv, Flatten, WriterInv;
    match action {
      case Enqueue(value) => NextKeepsInv(w.ring, PushLoadHead(value));
      case Measure => NextKeepsInv(w.ring, if w.ring.producer.PIdle? then ProducerSizeLoadHead else ProducerSizeLoadTail);
    }
    SameWriter(w, Act(w, action));
  }

  lemma SameWriter<T>(w: World<T>, u: World<T>)
    requires WriterInv(w) && u.writer == w.writer && u.batch == w.batch && u.running == w.running && u.lastTest == w.lastTest
    requires u.ring.consumer == w.ring.consumer && u.ring.popped == w.ring.popped
    ensures WriterInv(u)
  {
  }

  /** A consumer step that only loads an index. */
  lemma ConsumerLooks<T>(w: World<T>, action: Action<T>)
    requires WorldInv(w) && CanAct(w, action) && (action.Peek? || action.Log?)
    ensures WorldInv(Act(w, action))
  {
    hide SlotsInv, ProducerInv, ConsumerInv, Flatten, EnqueuerInv;
    match action {
      case Peek => NextKeepsInv(w.ring, EmptyStep(w.ring));
      case Log => NextKeepsInv(w.ring, if w.ring.consumer.CIdle? then ConsumerSizeLoadHead else ConsumerSizeLoadTail);
    }
    SameEnqueuer(w, Act(w, action));
  }

  lemma SameEnqueuer<T>(w: World<T>, u: World<T>)
    requires EnqueuerInv(w) && u.enqueuer == w.enqueuer && u.enqueued == w.enqueued && u.dropped == w.dropped
    requires u.failures == w.failures && u.ring.producer == w.ring.producer && u.ring.pushed == w.ring.pushed
    ensures EnqueuerInv(u)
  {
  }

  lemma ActKeepsInv<T>(w: World<T>, action: Action<T>)
    requires WorldInv(w) && CanAct(w, action)
    ensures WorldInv(Act(w, action))
  {
    hide Inv, Flatten;
    match action
    case EnqueueRing => EnqueueRingKeepsInv(w);
    case TestEmpty => TestEmptyKeepsInv(w);
    case Fill => FillKeepsInv(w);
    case Save => FlattenSnoc(w.handed, w.batch);
    case Enqueue(_) => ProducerLooks(w, action);
    case Measure => ProducerLooks(w, action);
    case Peek => ConsumerLooks(w, action);
    case Log => ConsumerLooks(w, action);
    case _ =>
  }

  ghost predicate Reaches<T>(w: World<T>, actions: seq<Action<T>>, u: World<T>)
    requires WorldInv(w)
    decreases |actions|
  {
    if actions == [] then w == u
    else
      CanAct(w, actions[0])
      && (ActKeepsInv(w, actions[0]); Reaches(Act(w, actions[0]), actions[1..], u))
  }

  lemma {:induction false} ReachesKeepsInv<T>(w: World<T>, actions: seq<Action<T>>, u: World<T>)
    requires WorldInv(w) && Reaches(w, actions, u)
    ensures WorldInv(u)
    decreases |actions|
  {
    if actions != [] {
      ActKeepsInv(w, actions[0]);
      ReachesKeepsInv(Act(w, actions[0]), actions[1..], u);
    }
  }

  lemma StartInv<T>()
    ensures WorldInv(Start<T>())
  {
    InitialInv<T>(QUEUE_CAPACITY + 1);
  }

  /** In every reachable state, whatever the interleaving: the batches handed to the
      database concatenate to a prefix of the pushed sequence, each holds 1 to 256 items, the
      ring never holds more than its 8192 usable slots, and once the loop has exited the
      prefix is everything pushed before its last emptiness test. */
  lemma HandOff<T>(actions: seq<Action<T>>, u: World<T>)
    requires (StartInv<T>(); Reaches(Start(), actions, u))
    ensures Flatten(u.handed) <= u.ring.pushed
    ensures forall b | b in u.handed :: 1 <= |b| <= BATCH_SIZE
    ensures u.ring.popped <= u.ring.pushed && |u.ring.Items()| <= QUEUE_CAPACITY
    ensures u.writer.Exited? ==>
              u.lastTest <= |u.ring.pushed| && Flatten(u.handed) == u.ring.pushed[..u.lastTest]
    // between two calls of try_enqueue the counters say what happened to every candle
    ensures u.enqueuer.Resting? ==> u.enqueued == |u.ring.pushed| && u.dropped == u.failures
  {
    StartInv<T>();
    ReachesKeepsInv(Start(), actions, u);
    assert Flatten(u.handed) <= u.ring.popped;
  }

  // ---------------------------------------------------------------- the calls, run alone

  class Collector<T> {
    const queue: SpscRingQueue<T>
    var enqueued: nat
    var dropped: nat

    constructor ()
      ensures fresh(queue) && fresh(queue.slots) && queue.Valid() && queue.State().Items() == []
      ensures enqueued == dropped == 0 && queue.slots.Length == QUEUE_CAPACITY + 1
    {
      queue := new SpscRingQueue<T>(QUEUE_CAPACITY + 1);
      enqueued, dropped := 0, 0;
    }

    /** A candle is counted once, as enqueued or as dropped; it is dropped only when the queue
        is full, and then the queue keeps what it had. */
    method TryEnqueue(item: T) returns (ok: bool)
      requires queue.Valid()
      modifies this, queue, queue.slots
      ensures queue.Valid()
      ensures ok <==> |old(queue.State()).Items()| < queue.slots.Length - 1
      ensures queue.State().Items() == old(queue.State()).Items() + if ok then [item] else []
      ensures enqueued == old(enqueued) + (if ok then 1 else 0) && dropped == old(dropped) + (if ok then 0 else 1)
    {
      hide SlotsInv, ProducerInv, ConsumerInv, Run;
      ok := queue.TryPush(item);
      if ok { enqueued := enqueued + 1; } else { dropped := dropped + 1; }
    }
  }

  /** The inner loop of `writer_loop`: move items into the batch until it is full or the
      queue is empty. */
  method FillBatch<T>(queue: SpscRingQueue<T>, batch: seq<T>) returns (filled: seq<T>)
    requires queue.Valid() && |batch| <= BATCH_SIZE
    modifies queue, queue.slots
    ensures queue.Valid()
    ensures filled + queue.State().Items() == batch + old(queue.State().Items())
    ensures batch <= filled && |filled| <= BATCH_SIZE
    ensures |filled| == BATCH_SIZE || queue.State().Items() == []
  {
    hide SlotsInv, ProducerInv, ConsumerInv, Run;
    filled := batch;
    while |filled| < BATCH_SIZE
      invariant queue.Valid()
      invariant batch <= filled && |filled| <= BATCH_SIZE
      invariant filled + queue.State().Items() == batch + old(queue.State().Items())
      decreases BATCH_SIZE - |filled|
    {
      ghost var before := queue.State().Items();
      var item := queue.TryPop();
      if item.None? {
        break;
      }
      assert filled + before == (filled + [item.value]) + queue.State().Items();
      filled := filled + [item.value];
    }
  }

  /** `writer_loop` after `running` was cleared and the producer has stopped: it hands over
      everything that is still queued, in full batches except possibly the last. */
  method DrainAfterStop<T>(queue: SpscRingQueue<T>) returns (handed: seq<seq<T>>)
    requires queue.Valid()
    modifies queue, queue.slots
    ensures queue.Valid() && queue.State().Items() == []
    ensures Flatten(handed) == old(queue.State().Items())
    ensures Batches(handed, true)
  {
    hide SlotsInv, ProducerInv, ConsumerInv, Run, Flatten;
    handed := [];
    NoBatches<T>();
    ghost var rest := queue.State().Items();
    var empty := queue.IsEmpty();
    while !empty
      invariant queue.Valid() && rest == queue.State().Items()
      invariant empty <==> rest == []
      invariant Batches(handed, empty)
      invariant Flatten(handed) + rest == old(queue.State().Items())
      decreases |rest|
    {
      var batch := FillBatch(queue, []);
      HandOver(handed, batch, queue.State().Items());
      handed := handed + [batch];
      rest := queue.State().Items();
      empty := queue.IsEmpty();
    }
  }

  /** Every batch is full, except that the last one may be short when the queue ran dry. */
  ghost predicate Batches<T>(handed: seq<seq<T>>, dry: bool) {
    && (forall i | 0 <= i < |handed| :: 1 <= |handed[i]| <= BATCH_SIZE)
    && (forall i | 0 <= i < |handed| - (if dry then 1 else 0) :: |handed[i]| == BATCH_SIZE)
  }

  lemma NoBatches<T>()
    ensures Flatten<T>([]) == []
  {
  }

  lemma HandOver<T>(handed: seq<seq<T>>, batch: seq<T>, rest: seq<T>)
    ensures Flatten(handed + [batch]) + rest == Flatten(handed) + (batch + rest)
  {
    FlattenSnoc(handed, batch);
  }
}
