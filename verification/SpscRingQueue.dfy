/** The lock-free single-producer/single-consumer ring, one step per atomic access.

    `Ring` is the shared memory (slots and the two indices), the point each thread has
    reached inside its call, and two history variables: the values published by the
    producer and the values taken by the consumer. `Next` performs one atomic step of one
    thread; a run is any sequence of enabled steps, so every interleaving is a run. */
module SpscRingQueue {
  import opened RingIndex
  import opened Wrappers

  /** A slot is an optional; between the move-out and the reset it is engaged but moved-from. */
  datatype Slot<T> = Empty | Full(value: T) | MovedFrom

  datatype Producer<T> =
    | PIdle
    | PHeadLoaded(value: T, head: nat)
    | PRoomSeen(value: T, head: nat)
    | PSlotWritten(value: T, head: nat)
    | PSizeHead(head: nat)

  datatype Consumer<T> =
    | CIdle
    | CTailLoaded(tail: nat)
    | CItemSeen(tail: nat)
    | CMovedOut(tail: nat, out: T)
    | CSlotReset(tail: nat, out: T)
    | CEmptyTail(tail: nat)
    // `length` is a history value: the queue length when the head was loaded
    | CSizeHead(head: nat, length: nat)

  datatype Observer = OIdle | OSizeHead(head: nat)

  datatype Ring<T> = Ring(
    slots: seq<Slot<T>>,
    head: nat,
    tail: nat,
    producer: Producer<T>,
    consumer: Consumer<T>,
    observer: Observer,
    pushed: seq<T>,
    popped: seq<T>)
  {
    function Capacity(): nat { |slots| }

    /** The queue the ring stands for. */
    function Items(): seq<T>
      requires |popped| <= |pushed|
    {
      pushed[|popped|..]
    }
  }

  datatype Step<T> =
    | PushLoadHead(value: T) | PushLoadTail | PushWriteSlot | PushPublish
    | PopLoadTail | PopLoadHead | PopMoveOut | PopResetSlot | PopPublish
    | EmptyLoadTail | EmptyLoadHead
    | ProducerSizeLoadHead | ProducerSizeLoadTail
    | ConsumerSizeLoadHead | ConsumerSizeLoadTail
    | ObserverSizeLoadHead | ObserverSizeLoadTail

  /** What the call returns when the step is its last one. */
  datatype Outcome<T> =
    | Continues
    | Pushed(ok: bool)
    | PoppedNothing
    | PoppedValue(out: T)
    | EmptyIs(answer: bool)
    | SizeIs(size: nat)

  function Initial<T>(capacity: nat): Ring<T> {
    Ring(seq(capacity, _ => Empty), 0, 0, PIdle, CIdle, OIdle, [], [])
  }

  predicate Enabled<T>(s: Ring<T>, step: Step<T>) {
    match step
    case PushLoadHead(_) => s.producer.PIdle?
    case PushLoadTail => s.producer.PHeadLoaded?
    case PushWriteSlot => s.producer.PRoomSeen?
    case PushPublish => s.producer.PSlotWritten?
    case PopLoadTail => s.consumer.CIdle?
    case PopLoadHead => s.consumer.CTailLoaded?
    case PopMoveOut => s.consumer.CItemSeen?
    case PopResetSlot => s.consumer.CMovedOut?
    case PopPublish => s.consumer.CSlotReset?
    case EmptyLoadTail => s.consumer.CIdle?
    case EmptyLoadHead => s.consumer.CEmptyTail?
    case ProducerSizeLoadHead => s.producer.PIdle?
    case ProducerSizeLoadTail => s.producer.PSizeHead?
    case ConsumerSizeLoadHead => s.consumer.CIdle?
    case ConsumerSizeLoadTail => s.consumer.CSizeHead?
    case ObserverSizeLoadHead => s.observer.OIdle?
    case ObserverSizeLoadTail => s.observer.OSizeHead?
  }

  /** The slot a step reads or writes, if any. */
  function Touched<T>(s: Ring<T>, step: Step<T>): (r: set<nat>)
    requires Enabled(s, step)
  {
    match step
    case PushWriteSlot => {s.producer.head}
    case PopMoveOut => {s.consumer.tail}
    case PopResetSlot => {s.consumer.tail}
    case _ => {}
  }

  function Next<T>(s: Ring<T>, step: Step<T>): Ring<T>
    requires Inv(s) && Enabled(s, step)
  {
    match step
    case PushLoadHead(value) => s.(producer := PHeadLoaded(value, s.head))
    case PushLoadTail =>
      if Increment(s.producer.head, s.Capacity()) == s.tail
      then s.(producer := PIdle)
      else s.(producer := PRoomSeen(s.producer.value, s.producer.head))
    case PushWriteSlot =>
      s.(slots := s.slots[s.producer.head := Full(s.producer.value)],
         producer := PSlotWritten(s.producer.value, s.producer.head))
    case PushPublish =>
      s.(head := Increment(s.producer.head, s.Capacity()),
         pushed := s.pushed + [s.producer.value],
         producer := PIdle)
    case PopLoadTail => s.(consumer := CTailLoaded(s.tail))
    case PopLoadHead =>
      s.(consumer := if s.consumer.tail == s.head then CIdle else CItemSeen(s.consumer.tail))
    case PopMoveOut =>
      s.(slots := s.slots[s.consumer.tail := MovedFrom],
         consumer := CMovedOut(s.consumer.tail, s.slots[s.consumer.tail].value))
    case PopResetSlot =>
      s.(slots := s.slots[s.consumer.tail := Empty],
         consumer := CSlotReset(s.consumer.tail, s.consumer.out))
    case PopPublish =>
      s.(tail := Increment(s.consumer.tail, s.Capacity()),
         popped := s.popped + [s.consumer.out],
         consumer := CIdle)
    case EmptyLoadTail => s.(consumer := CEmptyTail(s.tail))
    case EmptyLoadHead => s.(consumer := CIdle)
    case ProducerSizeLoadHead => s.(producer := PSizeHead(s.head))
    case ProducerSizeLoadTail => s.(producer := PIdle)
    case ConsumerSizeLoadHead => s.(consumer := CSizeHead(s.head, |s.Items()|))
    case ConsumerSizeLoadTail => s.(consumer := CIdle)
    case ObserverSizeLoadHead => s.(observer := OSizeHead(s.head))
    case ObserverSizeLoadTail => s.(observer := OIdle)
  }

  function Returns<T>(s: Ring<T>, step: Step<T>): Outcome<T>
    requires Inv(s) && Enabled(s, step)
  {
    match step
    case PushLoadTail =>
      if Increment(s.producer.head, s.Capacity()) == s.tail then Pushed(false) else Continues
    case PushPublish => Pushed(true)
    case PopLoadHead => if s.consumer.tail == s.head then PoppedNothing else Continues
    case PopPublish => PoppedValue(s.consumer.out)
    case EmptyLoadHead => EmptyIs(s.consumer.tail == s.head)
    case ProducerSizeLoadTail => SizeIs(Size(s.producer.head, s.tail, s.Capacity()))
    case ConsumerSizeLoadTail => SizeIs(Size(s.consumer.head, s.tail, s.Capacity()))
    case ObserverSizeLoadTail => SizeIs(Size(s.observer.head, s.tail, s.Capacity()))
    case _ => Continues
  }

  /** `size_approx` after both loads: with both indices inside the ring it is never outside
      0..capacity-1, however far apart in time the two loads were. */
  function Size(head: nat, tail: nat, capacity: nat): (size: nat)
    requires head < capacity && tail < capacity
    ensures size < capacity
  {
    Distance(head, tail, capacity)
  }

  // ---------------------------------------------------------------- invariant

  ghost predicate ProducerInv<T>(s: Ring<T>)
    requires |s.popped| <= |s.pushed|
  {
    match s.producer
    case PIdle => true
    case PHeadLoaded(_, head) => head == s.head
    case PRoomSeen(_, head) => head == s.head && |s.Items()| + 1 < s.Capacity()
    case PSlotWritten(_, head) => head == s.head && |s.Items()| + 1 < s.Capacity()
    case PSizeHead(head) => head == s.head
  }

  ghost predicate ConsumerInv<T>(s: Ring<T>)
    requires |s.popped| <= |s.pushed|
  {
    match s.consumer
    case CIdle => true
    case CTailLoaded(tail) => tail == s.tail
    case CItemSeen(tail) => tail == s.tail && s.Items() != []
    case CMovedOut(tail, out) => tail == s.tail && s.Items() != [] && out == s.Items()[0]
    case CSlotReset(tail, out) => tail == s.tail && s.Items() != [] && out == s.Items()[0]
    case CEmptyTail(tail) => tail == s.tail
    case CSizeHead(head, length) =>
      |s.popped| + length <= |s.pushed| && length < s.Capacity()
      && head == (|s.popped| + length) % s.Capacity()
  }

  /** The slot of logical position n, counting every push since the start. */
  function SlotOf<T>(s: Ring<T>, n: nat): Slot<T>
    requires s.Capacity() > 0
  {
    s.slots[n % s.Capacity()]
  }

  /** Occupied slots hold exactly the unread items in order; every other slot is empty,
      apart from the one the producer has written and the one the consumer is emptying. */
  ghost predicate SlotsInv<T>(s: Ring<T>)
    requires s.Capacity() > 0 && |s.popped| <= |s.pushed|
  {
    && (forall n | |s.popped| < n < |s.pushed| :: SlotOf(s, n) == Full(s.pushed[n]))
    && (|s.popped| < |s.pushed| ==>
          SlotOf(s, |s.popped|) == match s.consumer
                                   case CMovedOut(_, _) => MovedFrom
                                   case CSlotReset(_, _) => Empty
                                   case _ => Full(s.pushed[|s.popped|]))
    && (forall n | |s.pushed| < n < |s.popped| + s.Capacity() :: SlotOf(s, n) == Empty)
    && SlotOf(s, |s.pushed|) == if s.producer.PSlotWritten? then Full(s.producer.value) else Empty
  }

  ghost predicate Inv<T>(s: Ring<T>) {
    && s.Capacity() > 1
    && s.popped <= s.pushed
    && |s.pushed| - |s.popped| < s.Capacity()
    && s.head == |s.pushed| % s.Capacity()
    && s.tail == |s.popped| % s.Capacity()
    && (s.observer.OSizeHead? ==> s.observer.head < s.Capacity())
    && ProducerInv(s) && ConsumerInv(s) && SlotsInv(s)
  }

  lemma DistinctSlots<T>(s: Ring<T>, at: nat)
    requires s.Capacity() > 1
    requires |s.popped| <= at <= |s.pushed| < |s.popped| + s.Capacity()
    ensures forall n | |s.popped| <= n < |s.popped| + s.Capacity() && n != at ::
              n % s.Capacity() != at % s.Capacity()
  {
    forall n | |s.popped| <= n < |s.popped| + s.Capacity() && n != at
      ensures n % s.Capacity() != at % s.Capacity()
    {
      if n < at { ModDistance(n, at, s.Capacity()); } else { ModDistance(at, n, s.Capacity()); }
    }
  }

  // ---------------------------------------------------------------- every step

  lemma InitialInv<T>(capacity: nat)
    requires capacity > 1
    ensures Inv(Initial<T>(capacity))
  {
    var s := Initial<T>(capacity);
    assert forall n: nat {:trigger SlotOf(s, n)} :: SlotOf(s, n) == Empty;
  }

  lemma NextKeepsInv<T>(s: Ring<T>, step: Step<T>)
    requires Inv(s) && Enabled(s, step)
    ensures Inv(Next(s, step))
  {
    hide Inv, Next;
    match step
    case PushLoadTail => RoomCheckKeepsInv(s);
    case PushWriteSlot => WriteKeepsInv(s);
    case PushPublish => PublishPushKeepsInv(s);
    case PopLoadHead => ItemCheckKeepsInv(s);
    case PopMoveOut => EmptyingKeepsInv(s, step);
    case PopResetSlot => EmptyingKeepsInv(s, step);
    case PopPublish => PublishPopKeepsInv(s);
    case _ => LoadKeepsInv(s, step);
  }

  lemma RoomCheckKeepsInv<T>(s: Ring<T>)
    requires Inv(s) && Enabled(s, PushLoadTail)
    ensures Inv(Next(s, PushLoadTail))
  {
    SameSlots(s, Next(s, PushLoadTail));
    FullExactly(s);
    hide SlotsInv, Increment;
  }

  lemma ItemCheckKeepsInv<T>(s: Ring<T>)
    requires Inv(s) && Enabled(s, PopLoadHead)
    ensures Inv(Next(s, PopLoadHead))
  {
    SameSlots(s, Next(s, PopLoadHead));
    ModDistance(|s.popped|, |s.pushed|, s.Capacity());
    hide SlotsInv;
  }

  /** Steps that only load an index. */
  lemma LoadKeepsInv<T>(s: Ring<T>, step: Step<T>)
    requires Inv(s) && Enabled(s, step)
    requires !step.PushLoadTail? && !step.PushWriteSlot? && !step.PushPublish?
    requires !step.PopLoadHead? && !step.PopMoveOut? && !step.PopResetSlot? && !step.PopPublish?
    ensures Inv(Next(s, step))
  {
    SameSlots(s, Next(s, step));
    assert |s.popped| + |s.Items()| == |s.pushed|;
    hide SlotsInv, Increment;
    match step
    case ConsumerSizeLoadHead =>
    case _ =>
  }

  lemma SameSlots<T>(s: Ring<T>, t: Ring<T>)
    requires Inv(s)
    requires t.slots == s.slots && t.pushed == s.pushed && t.popped == s.popped
    requires t.producer.PSlotWritten? || s.producer.PSlotWritten? ==> t.producer == s.producer
    requires t.consumer.CMovedOut? || t.consumer.CSlotReset? || s.consumer.CMovedOut? || s.consumer.CSlotReset?
             ==> t.consumer == s.consumer
    ensures SlotsInv(t)
  {
    assert forall n: nat :: SlotOf(t, n) == SlotOf(s, n);
  }

  lemma FullMeansNextIsTail<T>(s: Ring<T>)
    requires Inv(s) && |s.Items()| + 1 == s.Capacity()
    ensures (|s.pushed| + 1) % s.Capacity() == s.tail
  {
    var q := |s.popped| / s.Capacity();
    assert |s.pushed| + 1 == (q + 1) * s.Capacity() + s.tail;
    DivModUnique(|s.pushed| + 1, q + 1, s.tail, s.Capacity());
  }

  /** The producer finds the ring full exactly when capacity - 1 items are in it. */
  lemma FullExactly<T>(s: Ring<T>)
    requires Inv(s)
    ensures Increment(s.head, s.Capacity()) == s.tail <==> |s.Items()| + 1 == s.Capacity()
  {
    ModAddOne(|s.pushed|, s.Capacity());
    if |s.Items()| + 1 == s.Capacity() {
      FullMeansNextIsTail(s);
    } else {
      ModDistance(|s.popped|, |s.pushed| + 1, s.Capacity());
    }
    hide SlotsInv, ProducerInv, ConsumerInv;
  }

  lemma WriteKeepsInv<T>(s: Ring<T>)
    requires Inv(s) && Enabled(s, PushWriteSlot)
    ensures Inv(Next(s, PushWriteSlot))
  {
    var t := Next(s, PushWriteSlot);
    DistinctSlots(s, |s.pushed|);
    assert forall n | |s.popped| <= n < |s.popped| + s.Capacity() && n != |s.pushed| :: SlotOf(t, n) == SlotOf(s, n);
  }

  lemma PublishPushKeepsSlots<T>(s: Ring<T>)
    requires Inv(s) && Enabled(s, PushPublish)
    ensures var t := Next(s, PushPublish); t.Capacity() > 0 && |t.popped| <= |t.pushed| && SlotsInv(t)
  {
    hide Increment, SlotOf;
    var t := Next(s, PushPublish);
    forall n: nat ensures SlotOf(t, n) == SlotOf(s, n) { SlotOfSame(s, t, n); }
    assert forall n | |s.popped| < n < |s.pushed| :: t.pushed[n] == s.pushed[n];
  }

  lemma SlotOfSame<T>(s: Ring<T>, t: Ring<T>, n: nat)
    requires t.slots == s.slots && s.Capacity() > 0
    ensures SlotOf(t, n) == SlotOf(s, n)
  {
  }

  lemma PublishPushKeepsInv<T>(s: Ring<T>)
    requires Inv(s) && Enabled(s, PushPublish)
    ensures Inv(Next(s, PushPublish))
  {
    hide SlotsInv;
    PublishPushKeepsSlots(s);
    ModAddOne(|s.pushed|, s.Capacity());
    assert Next(s, PushPublish).Items() == s.Items() + [s.producer.value];
  }

  lemma EmptyingKeepsInv<T>(s: Ring<T>, step: Step<T>)
    requires Inv(s) && Enabled(s, step) && (step.PopMoveOut? || step.PopResetSlot?)
    ensures Inv(Next(s, step))
  {
    var t := Next(s, step);
    DistinctSlots(s, |s.popped|);
    assert forall n | |s.popped| < n < |s.popped| + s.Capacity() :: SlotOf(t, n) == SlotOf(s, n);
    assert t.Items() == s.Items();
  }

  lemma PublishPopKeepsInv<T>(s: Ring<T>)
    requires Inv(s) && Enabled(s, PopPublish)
    ensures Inv(Next(s, PopPublish))
  {
    var t := Next(s, PopPublish);
    ModAddOne(|s.popped|, s.Capacity());
    LapAhead(s);
    assert t.popped == s.pushed[..|s.popped| + 1];
    assert SlotsInv(t) by {
      assert forall n: nat :: SlotOf(t, n) == SlotOf(s, n);
    }
  }

  /** The slot one lap ahead of a position is the slot of that position. */
  lemma LapAhead<T>(s: Ring<T>)
    requires s.Capacity() > 0
    ensures SlotOf(s, |s.popped| + s.Capacity()) == SlotOf(s, |s.popped|)
  {
    var q, r := |s.popped| / s.Capacity(), |s.popped| % s.Capacity();
    assert |s.popped| + s.Capacity() == (q + 1) * s.Capacity() + r;
    DivModUnique(|s.popped| + s.Capacity(), q + 1, r, s.Capacity());
  }

  // ---------------------------------------------------------------- whole runs

  ghost predicate Run<T>(s: Ring<T>, steps: seq<Step<T>>, t: Ring<T>)
    requires Inv(s)
    decreases |steps|
  {
    if steps == [] then s == t
    else
      Enabled(s, steps[0])
      && (NextKeepsInv(s, steps[0]); Run(Next(s, steps[0]), steps[1..], t))
  }

  lemma {:induction false} RunKeepsInv<T>(s: Ring<T>, steps: seq<Step<T>>, t: Ring<T>)
    requires Inv(s) && Run(s, steps, t)
    ensures Inv(t) && t.Capacity() == s.Capacity()
    decreases |steps|
  {
    if steps != [] {
      NextKeepsInv(s, steps[0]);
      RunKeepsInv(Next(s, steps[0]), steps[1..], t);
    }
  }

  /** Under every interleaving the ring is a bounded FIFO. */
  lemma BoundedFifo<T>(capacity: nat, steps: seq<Step<T>>, t: Ring<T>)
    requires capacity > 1
    requires (InitialInv<T>(capacity); Run(Initial(capacity), steps, t))
    ensures t.Capacity() == capacity
    ensures t.popped <= t.pushed
    ensures |t.Items()| <= capacity - 1
    // between calls the occupied slots hold exactly the unread items, in order
    ensures t.consumer.CIdle? ==>
              forall i | 0 <= i < |t.Items()| :: SlotOf(t, |t.popped| + i) == Full(t.Items()[i])
    ensures !t.producer.PSlotWritten? ==>
              forall n | |t.pushed| <= n < |t.popped| + capacity :: SlotOf(t, n) == Empty
  {
    InitialInv<T>(capacity);
    RunKeepsInv(Initial(capacity), steps, t);
    forall i | 0 <= i < |t.Items()| && t.consumer.CIdle?
      ensures SlotOf(t, |t.popped| + i) == Full(t.Items()[i])
    {
      assert t.Items()[i] == t.pushed[|t.popped| + i];
    }
  }

  /** In every reachable state the two threads are never about to access the same slot. */
  lemma NoSharedSlot<T>(capacity: nat, steps: seq<Step<T>>, t: Ring<T>, p: Step<T>, c: Step<T>)
    requires capacity > 1
    requires (InitialInv<T>(capacity); Run(Initial(capacity), steps, t))
    requires Enabled(t, p) && p.PushWriteSlot?
    requires Enabled(t, c) && (c.PopMoveOut? || c.PopResetSlot?)
    ensures Touched(t, p) !! Touched(t, c)
  {
    InitialInv<T>(capacity);
    RunKeepsInv(Initial(capacity), steps, t);
    ModDistance(|t.popped|, |t.pushed|, t.Capacity());
  }

  /** Each step changes the abstract queue only at its publishing store: a published push
      appends the caller's value and a published pop removes and returns the oldest item. */
  lemma StepRefinesQueue<T>(s: Ring<T>, step: Step<T>)
    requires Inv(s) && Enabled(s, step)
    ensures Inv(Next(s, step))
    ensures step.PushPublish? ==> Next(s, step).Items() == s.Items() + [s.producer.value]
    ensures step.PopPublish? ==>
              s.Items() != [] && Returns(s, step) == PoppedValue(s.Items()[0])
              && Next(s, step).Items() == s.Items()[1..]
    ensures !step.PushPublish? && !step.PopPublish? ==> Next(s, step).Items() == s.Items()
  {
    NextKeepsInv(s, step);
  }

  /** A push gives up exactly when capacity-1 items are present at its tail load, a pop
      exactly when none is present at its head load, and `empty` called by the consumer
      answers for the moment of its head load. */
  lemma FailuresAreExact<T>(s: Ring<T>)
    requires Inv(s)
    ensures s.producer.PHeadLoaded? ==>
              (Returns(s, PushLoadTail) == Pushed(false) <==> |s.Items()| == s.Capacity() - 1)
    ensures s.consumer.CTailLoaded? ==>
              (Returns(s, PopLoadHead) == PoppedNothing <==> s.Items() == [])
    ensures s.consumer.CEmptyTail? ==>
              Returns(s, EmptyLoadHead) == EmptyIs(s.Items() == [])
  {
    ModDistance(|s.popped|, |s.pushed|, s.Capacity());
    FullExactly(s);
    hide SlotsInv, Increment;
  }

  /** `size_approx` is exact for the moment of the tail load when the producer calls it and
      for the moment of the head load when the consumer does. */
  lemma SizeIsExactForOwners<T>(s: Ring<T>)
    requires Inv(s)
    ensures s.producer.PSizeHead? ==> Returns(s, ProducerSizeLoadTail) == SizeIs(|s.Items()|)
    ensures s.consumer.CSizeHead? ==> Returns(s, ConsumerSizeLoadTail) == SizeIs(s.consumer.length)
    ensures s.consumer.CIdle? ==> Next(s, ConsumerSizeLoadHead).consumer.length == |s.Items()|
  {
    ModDistance(|s.popped|, |s.pushed|, s.Capacity());
    if s.consumer.CSizeHead? {
      ModDistance(|s.popped|, |s.popped| + s.consumer.length, s.Capacity());
    }
  }

  // ---------------------------------------------------------------- the class, run alone

  lemma RunCons<T>(s: Ring<T>, step: Step<T>, rest: seq<Step<T>>, t: Ring<T>)
    requires Inv(s) && Enabled(s, step)
    requires Inv(Next(s, step)) && Run(Next(s, step), rest, t)
    ensures Run(s, [step] + rest, t)
  {
    assert ([step] + rest)[1..] == rest;
  }

  /** The atomic accesses of one `try_push` call that runs without interference. */
  function PushCall<T>(value: T, ok: bool): seq<Step<T>> {
    [PushLoadHead(value), PushLoadTail] + if ok then [PushWriteSlot, PushPublish] else []
  }

  function PopCall<T>(ok: bool): seq<Step<T>> {
    [PopLoadTail, PopLoadHead] + if ok then [PopMoveOut, PopResetSlot, PopPublish] else []
  }

  function AfterPush<T>(s: Ring<T>, value: T): Ring<T>
    requires s.head < s.Capacity()
  {
    s.(slots := s.slots[s.head := Full(value)], head := Increment(s.head, s.Capacity()), pushed := s.pushed + [value])
  }

  function AfterPop<T>(s: Ring<T>): Ring<T>
    requires s.tail < s.Capacity() && |s.popped| < |s.pushed|
  {
    s.(slots := s.slots[s.tail := Empty], tail := Increment(s.tail, s.Capacity()), popped := s.popped + [s.Items()[0]])
  }

  lemma PushStores<T>(s: Ring<T>)
    requires Inv(s) && s.producer.PRoomSeen?
    ensures var t := AfterPush(s.(producer := PIdle), s.producer.value);
            Inv(t) && Run(s, [PushWriteSlot, PushPublish], t)
  {
    var s1 := Next(s, PushWriteSlot);
    NextKeepsInv(s, PushWriteSlot);
    var s2 := Next(s1, PushPublish);
    NextKeepsInv(s1, PushPublish);
    RunCons(s1, PushPublish, [], s2);
    RunCons(s, PushWriteSlot, [PushPublish], s2);
  }

  lemma PushAlone<T>(s: Ring<T>, value: T)
    requires Inv(s) && s.producer.PIdle?
    ensures |s.Items()| < s.Capacity() - 1 ==>
              Increment(s.head, s.Capacity()) != s.tail && Inv(AfterPush(s, value)) && Run(s, PushCall(value, true), AfterPush(s, value))
    ensures |s.Items()| >= s.Capacity() - 1 ==>
              Increment(s.head, s.Capacity()) == s.tail && Run(s, PushCall(value, false), s)
  {
    var s1 := Next(s, PushLoadHead(value));
    NextKeepsInv(s, PushLoadHead(value));
    FailuresAreExact(s1);
    var s2 := Next(s1, PushLoadTail);
    NextKeepsInv(s1, PushLoadTail);
    var rest: seq<Step<T>>, t: Ring<T> := [], s;
    if s2.producer.PRoomSeen? {
      PushStores(s2);
      rest, t := [PushWriteSlot, PushPublish], AfterPush(s, value);
    }
    RunCons(s1, PushLoadTail, rest, t);
    RunCons(s, PushLoadHead(value), [PushLoadTail] + rest, t);
    assert PushCall(value, rest != []) == [PushLoadHead(value)] + ([PushLoadTail] + rest);
  }

  lemma OldestIsAtTail<T>(s: Ring<T>)
    requires Inv(s) && s.consumer.CItemSeen?
    ensures s.slots[s.tail] == Full(s.Items()[0])
  {
    assert s.slots[s.tail] == SlotOf(s, |s.popped|);
  }

  /** The three steps that follow a successful check, one after the other. */
  lemma PopSteps<T>(s: Ring<T>)
    requires Inv(s) && s.consumer.CItemSeen?
    ensures var s1 := Next(s, PopMoveOut);
            && Inv(s1) && Enabled(s1, PopResetSlot)
            && (var s2 := Next(s1, PopResetSlot);
                Inv(s2) && Enabled(s2, PopPublish)
                && Inv(Next(s2, PopPublish)) && Next(s2, PopPublish) == AfterPop(s.(consumer := CIdle)))
  {
    OldestIsAtTail(s);
    hide SlotsInv;
    var s1 := Next(s, PopMoveOut);
    NextKeepsInv(s, PopMoveOut);
    var s2 := Next(s1, PopResetSlot);
    NextKeepsInv(s1, PopResetSlot);
    NextKeepsInv(s2, PopPublish);
    assert s2.slots == s.slots[s.tail := Empty];
  }

  lemma PopStores<T>(s: Ring<T>)
    requires Inv(s) && s.consumer.CItemSeen?
    ensures s.slots[s.tail] == Full(s.Items()[0])
    ensures var t := AfterPop(s.(consumer := CIdle));
            Inv(t) && Run(s, [PopMoveOut, PopResetSlot, PopPublish], t)
  {
    OldestIsAtTail(s);
    PopSteps(s);
    var s1 := Next(s, PopMoveOut);
    var s2 := Next(s1, PopResetSlot);
    var s3 := Next(s2, PopPublish);
    assert Run(s3, [], s3);
    hide Inv, Next, Run, AfterPop;
    RunCons(s2, PopPublish, [], s3);
    RunCons(s1, PopResetSlot, [PopPublish], s3);
    RunCons(s, PopMoveOut, [PopResetSlot, PopPublish], s3);
    var last: seq<Step<T>> := [PopPublish];
    assert last + [] == last;
    assert [PopResetSlot] + last == [PopResetSlot, PopPublish];
    assert [PopMoveOut] + ([PopResetSlot] + last) == [PopMoveOut, PopResetSlot, PopPublish];
  }

  lemma PopAlone<T>(s: Ring<T>)
    requires Inv(s) && s.consumer.CIdle?
    ensures s.Items() != [] ==>
              s.tail != s.head && s.slots[s.tail] == Full(s.Items()[0])
              && Inv(AfterPop(s)) && Run(s, PopCall(true), AfterPop(s))
    ensures s.Items() == [] ==> s.tail == s.head && Run(s, PopCall(false), s)
  {
    var s1 := Next(s, PopLoadTail);
    NextKeepsInv(s, PopLoadTail);
    FailuresAreExact(s1);
    var s2 := Next(s1, PopLoadHead);
    NextKeepsInv(s1, PopLoadHead);
    var rest: seq<Step<T>>, t: Ring<T> := [], s;
    if s2.consumer.CItemSeen? {
      PopStores(s2);
      rest, t := [PopMoveOut, PopResetSlot, PopPublish], AfterPop(s);
    }
    RunCons(s1, PopLoadHead, rest, t);
    RunCons(s, PopLoadTail, [PopLoadHead] + rest, t);
    assert PopCall(rest != []) == [PopLoadTail] + ([PopLoadHead] + rest);
  }

  /** The ring in memory. The ghost fields are the history of the calls that have returned. */
  class SpscRingQueue<T> {
    const slots: array<Slot<T>>
    var head: nat
    var tail: nat
    ghost var pushed: seq<T>
    ghost var popped: seq<T>

    ghost function State(): Ring<T>
      reads this, slots
    {
      Ring(slots[..], head, tail, PIdle, CIdle, OIdle, pushed, popped)
    }

    ghost predicate Valid()
      reads this, slots
    {
      Inv(State())
    }

    constructor (capacity: nat)
      requires capacity > 1
      ensures Valid() && fresh(slots) && State() == Initial(capacity)
    {
      slots := new Slot<T>[capacity](_ => Empty);
      head, tail := 0, 0;
      pushed, popped := [], [];
      new;
      assert slots[..] == Initial<T>(capacity).slots;
      InitialInv<T>(capacity);
    }

    method TryPush(value: T) returns (ok: bool)
      requires Valid()
      modifies this, slots
      ensures Valid()
      ensures ok <==> |old(State()).Items()| < slots.Length - 1
      ensures Run(old(State()), PushCall(value, ok), State())
      ensures State().Items() == if ok then old(State()).Items() + [value] else old(State()).Items()
    {
      PushAlone(State(), value);
      var h := head;
      var next := (h + 1) % slots.Length;
      if next == tail {
        return false;
      }
      slots[h] := Full(value);
      head := next;
      pushed := pushed + [value];
      assert State() == AfterPush(old(State()), value);
      return true;
    }

    method TryPop() returns (out: Option<T>)
      requires Valid()
      modifies this, slots
      ensures Valid()
      ensures out.None? <==> old(State()).Items() == []
      ensures Run(old(State()), PopCall(out.Some?), State())
      ensures old(State()).Items() == if out.Some? then [out.value] + State().Items() else State().Items()
    {
      PopAlone(State());
      var t := tail;
      if t == head {
        return None;
      }
      var value := slots[t].value;
      slots[t] := Empty;
      tail := (t + 1) % slots.Length;
      popped := popped + [value];
      assert State() == AfterPop(old(State()));
      return Some(value);
    }

    method IsEmpty() returns (empty: bool)
      requires Valid()
      ensures empty <==> State().Items() == []
    {
      ModDistance(|popped|, |pushed|, slots.Length);
      return tail == head;
    }

    method SizeApprox() returns (size: nat)
      requires Valid()
      ensures size == |State().Items()|
    {
      ModDistance(|popped|, |pushed|, slots.Length);
      size := if head >= tail then head - tail else slots.Length - (tail - head);
    }
  }
}
