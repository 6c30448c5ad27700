/** The timeframe aggregator: closing bars out of a stream of market events.

    `Push` is one call of the aggregator on its state; `Grouped` is what it should compute,
    a group-by of the events into runs of equal buckets. */
module TimeframeAggregator {
  import opened Reals
  import opened RingIndex

  /** The clock counts nanoseconds since the epoch. */
  const TICKS_PER_SECOND: int := 1_000_000_000

  datatype MarketEvent = MarketEvent(timestamp: int, price: real, close: real, volume: real)

  datatype Frame = Frame(bucket: int, open: real, high: real, low: real, close: real, volume: real, ready: bool)

  const NO_FRAME: Frame := Frame(-1, 0.0, 0.0, 0.0, 0.0, 0.0, false)

  /** C++ integer division rounds toward zero. */
  function Quotient(a: int, b: int): int
    requires b > 0
  {
    if a >= 0 then a / b else -(-a / b)
  }

  function PriceOf(e: MarketEvent): real {
    if e.price > 0.0 then e.price else e.close
  }

  predicate Usable(e: MarketEvent) {
    PriceOf(e) > 0.0
  }

  function BucketOf(e: MarketEvent, seconds: int): int
    requires seconds >= 1
  {
    Quotient(Quotient(e.timestamp, TICKS_PER_SECOND), seconds)
  }

  // ---------------------------------------------------------------- the aggregator

  datatype State = State(current: Frame, latestClosed: Frame)

  const IDLE: State := State(NO_FRAME, NO_FRAME)

  function Push(s: State, e: MarketEvent, seconds: int): State
    requires seconds >= 1
  {
    if !Usable(e) then s
    else
      var price, bucket := PriceOf(e), BucketOf(e, seconds);
      var closing := Closes(s, e, seconds);
      var base := if closing then NO_FRAME else s.current;
      var frame :=
        if base.bucket < 0 then base.(bucket := bucket, open := price, high := price, low := price, close := price)
        else base.(high := Max(base.high, price), low := Min(base.low, price), close := price);
      State(frame.(volume := frame.volume + e.volume),
            if closing then s.current.(ready := true) else s.latestClosed)
  }

  predicate Closes(s: State, e: MarketEvent, seconds: int)
    requires seconds >= 1
  {
    Usable(e) && s.current.bucket >= 0 && BucketOf(e, seconds) != s.current.bucket
  }

  class TimeframeAggregator {
    const seconds: int
    var current: Frame
    var latestClosed: Frame

    ghost function Abstract(): State
      reads this
    {
      State(current, latestClosed)
    }

    constructor (period: int)
      ensures Abstract() == IDLE && seconds == if period < 1 then 1 else period
    {
      seconds := if period < 1 then 1 else period;
      current, latestClosed := NO_FRAME, NO_FRAME;
    }

    method PushEvent(e: MarketEvent) returns (closed: bool)
      requires seconds >= 1
      modifies this
      ensures Abstract() == Push(old(Abstract()), e, seconds)
      ensures closed <==> Closes(old(Abstract()), e, seconds)
    {
      var price := if e.price > 0.0 then e.price else e.close;
      if !(price > 0.0) { return false; }
      var bucket := BucketOf(e, seconds);
      closed := false;
      if current.bucket >= 0 && bucket != current.bucket {
        latestClosed := current.(ready := true);
        closed := true;
        current := NO_FRAME;
      }
      if current.bucket < 0 {
        current := current.(bucket := bucket, open := price, high := price, low := price, close := price);
      } else {
        current := current.(high := Max(current.high, price), low := Min(current.low, price), close := price);
      }
      current := current.(volume := current.volume + e.volume);
    }

    method Reset()
      modifies this
      ensures Abstract() == IDLE
    {
      current, latestClosed := NO_FRAME, NO_FRAME;
    }
  }

  /** The state after a whole stream. */
  function Fed(events: seq<MarketEvent>, seconds: int): State
    requires seconds >= 1
  {
    if events == [] then IDLE
    else Push(Fed(events[..|events| - 1], seconds), events[|events| - 1], seconds)
  }

  /** Every frame that was `latest_closed` after a push that returned true. */
  function ClosedFrames(events: seq<MarketEvent>, seconds: int): seq<Frame>
    requires seconds >= 1
  {
    if events == [] then []
    else
      var before, e := events[..|events| - 1], events[|events| - 1];
      ClosedFrames(before, seconds)
      + if Closes(Fed(before, seconds), e, seconds) then [Push(Fed(before, seconds), e, seconds).latestClosed] else []
  }

  // ---------------------------------------------------------------- grouping

  datatype Tick = Tick(bucket: int, price: real, volume: real)

  function Ticks(events: seq<MarketEvent>, seconds: int): seq<Tick>
    requires seconds >= 1
  {
    if events == [] then []
    else
      var e := events[|events| - 1];
      Ticks(events[..|events| - 1], seconds)
      + if Usable(e) then [Tick(BucketOf(e, seconds), PriceOf(e), e.volume)] else []
  }

  function OfTick(t: Tick): Frame {
    Frame(t.bucket, t.price, t.price, t.price, t.price, t.volume, false)
  }

  /** The bar of a run of ticks: first, highest, lowest and last price, total volume. */
  function OfRun(run: seq<Tick>): Frame
    requires run != []
  {
    Frame(run[0].bucket, run[0].price, Highest(run), Lowest(run), run[|run| - 1].price, Volume(run), false)
  }

  function Highest(run: seq<Tick>): (r: real)
    requires run != []
    ensures forall t | t in run :: t.price <= r
    ensures exists t | t in run :: t.price == r
  {
    if |run| == 1 then run[0].price else Max(Highest(run[..|run| - 1]), run[|run| - 1].price)
  }

  function Lowest(run: seq<Tick>): (r: real)
    requires run != []
    ensures forall t | t in run :: r <= t.price
    ensures exists t | t in run :: t.price == r
  {
    if |run| == 1 then run[0].price else Min(Lowest(run[..|run| - 1]), run[|run| - 1].price)
  }

  function Volume(run: seq<Tick>): real {
    if run == [] then 0.0 else Volume(run[..|run| - 1]) + run[|run| - 1].volume
  }

  predicate Uniform(run: seq<Tick>) {
    run != [] && forall i | 0 <= i < |run| :: run[i].bucket == run[0].bucket
  }

  /** Runs of one bucket each, neighbours of different buckets. */
  predicate Alternating(runs: seq<seq<Tick>>) {
    && (forall i | 0 <= i < |runs| :: Uniform(runs[i]))
    && (forall i | 0 <= i < |runs| - 1 :: runs[i][0].bucket != runs[i + 1][0].bucket)
  }

  /** A partition into maximal runs of equal buckets. */
  predicate MaximalRuns(runs: seq<seq<Tick>>, ticks: seq<Tick>) {
    Concat(runs) == ticks && Alternating(runs)
  }

  function Concat(runs: seq<seq<Tick>>): seq<Tick> {
    if runs == [] then [] else Concat(runs[..|runs| - 1]) + runs[|runs| - 1]
  }

  function Extend(f: Frame, t: Tick): Frame {
    f.(high := Max(f.high, t.price), low := Min(f.low, t.price), close := t.price, volume := f.volume + t.volume)
  }

  function AddTick(frames: seq<Frame>, t: Tick): seq<Frame> {
    var n := |frames|;
    if n > 0 && frames[n - 1].bucket == t.bucket then frames[..n - 1] + [Extend(frames[n - 1], t)]
    else frames + [OfTick(t)]
  }

  function Grouped(ticks: seq<Tick>): seq<Frame> {
    if ticks == [] then [] else AddTick(Grouped(ticks[..|ticks| - 1]), ticks[|ticks| - 1])
  }

  // one more tick, one more run

  lemma ConcatSnoc(runs: seq<seq<Tick>>, run: seq<Tick>)
    ensures Concat(runs + [run]) == Concat(runs) + run
  {
    assert (runs + [run])[..|runs|] == runs;
  }

  lemma GroupedSnoc(ticks: seq<Tick>, t: Tick)
    ensures Grouped(ticks + [t]) == AddTick(Grouped(ticks), t)
  {
    hide AddTick;
    assert (ticks + [t])[..|ticks|] == ticks;
  }

  lemma UniformSnoc(run: seq<Tick>, t: Tick)
    ensures Uniform(run + [t]) <==> run == [] || (Uniform(run) && t.bucket == run[0].bucket)
  {
    var after := run + [t];
    assert after[|run|] == t && forall i | 0 <= i < |run| :: after[i] == run[i];
  }

  lemma AlternatingSnoc(runs: seq<seq<Tick>>, run: seq<Tick>)
    ensures Alternating(runs + [run]) <==>
            Alternating(runs) && Uniform(run) && (runs != [] ==> runs[|runs| - 1][0].bucket != run[0].bucket)
  {
    var after, n := runs + [run], |runs|;
    assert after[n] == run && forall i | 0 <= i < n :: after[i] == runs[i];
    if Alternating(after) {
      forall i | 0 <= i < n ensures Uniform(runs[i]) { assert Uniform(after[i]); }
      forall i | 0 <= i < n - 1 ensures runs[i][0].bucket != runs[i + 1][0].bucket {
        assert Uniform(after[i]) && after[i][0].bucket != after[i + 1][0].bucket;
      }
      assert Uniform(after[n]);
      assert n > 0 ==> Uniform(after[n - 1]) && after[n - 1][0].bucket != after[n][0].bucket;
    }
  }

  ghost predicate FramesOf(frames: seq<Frame>, runs: seq<seq<Tick>>) {
    && |frames| == |runs|
    && forall i | 0 <= i < |runs| :: runs[i] != [] && frames[i] == OfRun(runs[i])
  }

  lemma FramesOfSnoc(frames: seq<Frame>, f: Frame, runs: seq<seq<Tick>>, run: seq<Tick>)
    ensures FramesOf(frames + [f], runs + [run]) <==> FramesOf(frames, runs) && run != [] && f == OfRun(run)
  {
    hide OfRun;
    var after, more, n := frames + [f], runs + [run], |runs|;
    assert more[n] == run && forall i | 0 <= i < n :: more[i] == runs[i];
    if |frames| == n {
      assert after[n] == f && forall i | 0 <= i < n :: after[i] == frames[i];
      if FramesOf(after, more) {
        forall i | 0 <= i < n ensures runs[i] != [] && frames[i] == OfRun(runs[i]) {
          assert more[i] != [] && after[i] == OfRun(more[i]);
        }
        assert more[n] != [] && after[n] == OfRun(more[n]);
      }
    }
  }

  lemma ExtendRun(run: seq<Tick>, t: Tick)
    requires run != []
    ensures OfRun(run + [t]) == Extend(OfRun(run), t)
  {
    assert (run + [t])[..|run|] == run;
  }

  lemma OneTickRun(t: Tick)
    ensures Uniform([t]) && OfRun([t]) == OfTick(t)
  {
    assert [t][..0] == [];
    assert Volume([t]) == t.volume;
  }

  /** A tick of another bucket than the last group's starts a group. */
  lemma NewGroup(frames: seq<Frame>, runs: seq<seq<Tick>>, t: Tick)
    requires FramesOf(frames, runs) && (runs != [] ==> runs[|runs| - 1][0].bucket != t.bucket)
    ensures FramesOf(AddTick(frames, t), runs + [[t]])
  {
    OneTickRun(t);
    FramesOfSnoc(frames, OfTick(t), runs, [t]);
    assert runs != [] ==> frames[|frames| - 1] == OfRun(runs[|runs| - 1]);
  }

  /** A tick of the last group's bucket extends that group. */
  lemma SameGroup(frames: seq<Frame>, runs: seq<seq<Tick>>, run: seq<Tick>, t: Tick)
    requires FramesOf(frames, runs + [run]) && run != [] && run[0].bucket == t.bucket
    ensures FramesOf(AddTick(frames, t), runs + [run + [t]])
  {
    hide FramesOf;
    var n := |runs|;
    SameLength(frames, runs + [run]);
    assert frames == frames[..n] + [frames[n]];
    FramesOfSnoc(frames[..n], frames[n], runs, run);
    ExtendRun(run, t);
    FramesOfSnoc(frames[..n], Extend(frames[n], t), runs, run + [t]);
  }

  lemma SameLength(frames: seq<Frame>, runs: seq<seq<Tick>>)
    requires FramesOf(frames, runs)
    ensures |frames| == |runs|
  {
  }

  /** However the ticks are cut into maximal runs of equal buckets, the grouping yields the
      bars of those runs. */
  lemma {:induction false} GroupedIsRuns(runs: seq<seq<Tick>>, ticks: seq<Tick>)
    requires MaximalRuns(runs, ticks)
    ensures FramesOf(Grouped(ticks), runs)
    decreases |ticks|
  {
    hide Concat, Alternating, Uniform, AddTick, FramesOf, OfRun, Grouped;
    if runs == [] {
      NoGroups();
    } else {
      var n := |runs| - 1;
      var front, run := runs[..n], runs[n];
      assert runs == front + [run];
      ConcatSnoc(front, run);
      AlternatingSnoc(front, run);
      NonEmpty(run);
      var k := |run| - 1;
      var rest, t := run[..k], run[k];
      assert run == rest + [t];
      GroupedSnoc(Concat(front) + rest, t);
      assert ticks == (Concat(front) + rest) + [t];
      UniformSnoc(rest, t);
      if rest == [] {
        assert Concat(front) + rest == Concat(front) && run == [t];
        GroupedIsRuns(front, Concat(front));
        NewGroup(Grouped(Concat(front)), front, t);
      } else {
        ConcatSnoc(front, rest);
        AlternatingSnoc(front, rest);
        GroupedIsRuns(front + [rest], Concat(front + [rest]));
        SameGroup(Grouped(Concat(front) + rest), front, rest, t);
      }
    }
  }

  lemma NonEmpty(run: seq<Tick>)
    requires Uniform(run)
    ensures run != []
  {
  }

  lemma NoGroups()
    ensures Concat([]) == [] && Alternating([]) && Grouped([]) == [] && FramesOf([], [])
  {
  }

  /** Such a partition exists for every stream. */
  lemma {:induction false} RunsExist(ticks: seq<Tick>) returns (runs: seq<seq<Tick>>)
    ensures MaximalRuns(runs, ticks)
    decreases |ticks|
  {
    hide Concat, Alternating, Uniform;
    if ticks == [] {
      runs := [];
      NoGroups();
    } else {
      var n := |ticks| - 1;
      var before := RunsExist(ticks[..n]);
      runs := AddToRuns(before, ticks[n]);
      assert ticks == ticks[..n] + [ticks[n]];
    }
  }

  lemma AddToRuns(before: seq<seq<Tick>>, t: Tick) returns (runs: seq<seq<Tick>>)
    requires Alternating(before)
    ensures Alternating(runs) && Concat(runs) == Concat(before) + [t]
  {
    hide Concat, Alternating, Uniform;
    runs := before + [[t]];
    ConcatSnoc(before, [t]);
    AlternatingSnoc(before, [t]);
    OneTickRun(t);
    if before != [] {
      var n := |before| - 1;
      var front, run := before[..n], before[n];
      assert before == front + [run];
      AlternatingSnoc(front, run);
      NonEmpty(run);
      if run[0].bucket == t.bucket {
        runs := front + [run + [t]];
        ConcatSnoc(front, run);
        ConcatSnoc(front, run + [t]);
        UniformSnoc(run, t);
        AlternatingSnoc(front, run + [t]);
        assert Concat(front) + (run + [t]) == (Concat(front) + run) + [t];
      }
    }
  }

  // ---------------------------------------------------------------- refinement

  ghost predicate NonNegativeTimes(events: seq<MarketEvent>) {
    forall e | e in events :: e.timestamp >= 0
  }

  /** No usable event falls into a bucket before the epoch. */
  ghost predicate NonNegativeBuckets(events: seq<MarketEvent>, seconds: int)
    requires seconds >= 1
  {
    forall e | e in events && Usable(e) :: BucketOf(e, seconds) >= 0
  }

  function Ready(frames: seq<Frame>): seq<Frame> {
    if frames == [] then [] else Ready(frames[..|frames| - 1]) + [frames[|frames| - 1].(ready := true)]
  }

  lemma ReadySnoc(frames: seq<Frame>, f: Frame)
    ensures Ready(frames + [f]) == Ready(frames) + [f.(ready := true)]
  {
    assert (frames + [f])[..|frames|] == frames;
  }

  // ---------------------------------------------------------------- the aggregator on ticks

  /** The state together with every frame closed so far. */
  datatype Output = Output(state: State, closed: seq<Frame>)

  const NOTHING: Output := Output(IDLE, [])

  /** A frame that takes its prices from a tick, and keeps the volume it has. */
  function Restart(f: Frame, t: Tick): Frame {
    f.(bucket := t.bucket, open := t.price, high := t.price, low := t.price, close := t.price, volume := f.volume + t.volume)
  }

  function FeedTick(o: Output, t: Tick): Output {
    var current := o.state.current;
    if current.bucket < 0 then Output(State(Restart(current, t), o.state.latestClosed), o.closed)
    else if current.bucket == t.bucket then Output(State(Extend(current, t), o.state.latestClosed), o.closed)
    else Output(State(Restart(NO_FRAME, t), current.(ready := true)), o.closed + [current.(ready := true)])
  }

  function Feed(ticks: seq<Tick>): Output {
    if ticks == [] then NOTHING else FeedTick(Feed(ticks[..|ticks| - 1]), ticks[|ticks| - 1])
  }

  function TickOf(e: MarketEvent, seconds: int): Tick
    requires seconds >= 1
  {
    Tick(BucketOf(e, seconds), PriceOf(e), e.volume)
  }

  lemma PushIsFeedTick(s: State, closed: seq<Frame>, e: MarketEvent, seconds: int)
    requires seconds >= 1
    ensures Output(Push(s, e, seconds), closed + if Closes(s, e, seconds) then [Push(s, e, seconds).latestClosed] else [])
         == if Usable(e) then FeedTick(Output(s, closed), TickOf(e, seconds)) else Output(s, closed)
  {
    hide BucketOf, PriceOf, Usable;
    assert closed + [] == closed;
  }

  lemma TicksSnoc(events: seq<MarketEvent>, seconds: int)
    requires seconds >= 1 && events != []
    ensures var before, e := Ticks(events[..|events| - 1], seconds), events[|events| - 1];
            Ticks(events, seconds) == if Usable(e) then before + [TickOf(e, seconds)] else before
  {
    hide BucketOf, PriceOf, Usable;
    assert Ticks(events[..|events| - 1], seconds) + [] == Ticks(events[..|events| - 1], seconds);
  }

  lemma FeedSnoc(ticks: seq<Tick>, t: Tick)
    ensures Feed(ticks + [t]) == FeedTick(Feed(ticks), t)
  {
    hide FeedTick;
    assert (ticks + [t])[..|ticks|] == ticks;
  }

  /** What the aggregator did to a stream depends on the ticks of its usable events alone. */
  lemma {:induction false} FedIsFeed(events: seq<MarketEvent>, seconds: int)
    requires seconds >= 1
    ensures Output(Fed(events, seconds), ClosedFrames(events, seconds)) == Feed(Ticks(events, seconds))
    decreases |events|
  {
    if events != [] {
      hide Push, Closes, FeedTick, Usable, TickOf;
      var before, e := events[..|events| - 1], events[|events| - 1];
      FedIsFeed(before, seconds);
      PushIsFeedTick(Fed(before, seconds), ClosedFrames(before, seconds), e, seconds);
      TicksSnoc(events, seconds);
      if Usable(e) { FeedSnoc(Ticks(before, seconds), TickOf(e, seconds)); }
    }
  }

  // ---------------------------------------------------------------- when the frames are the groups

  /** The closed frames are the finished groups, and `latest_closed` is the last of them. */
  ghost predicate ClosedRight(o: Output, groups: seq<Frame>) {
    var n := |groups| - 1;
    && o.closed == (if n < 0 then [] else Ready(groups[..n]))
    && o.state.latestClosed == (if n < 1 then NO_FRAME else groups[n - 1].(ready := true))
  }

  /** The current frame is the unfinished group. */
  ghost predicate CurrentRight(o: Output, groups: seq<Frame>) {
    o.state.current == if groups == [] then NO_FRAME else groups[|groups| - 1]
  }

  ghost predicate Agrees(o: Output, groups: seq<Frame>) {
    ClosedRight(o, groups) && CurrentRight(o, groups)
  }

  /** After a tick before the epoch there is none of another bucket. */
  ghost predicate Settled(ticks: seq<Tick>) {
    forall i, j | 0 <= i < j < |ticks| && ticks[i].bucket < 0 :: ticks[j].bucket == ticks[i].bucket
  }

  /** After a tick before the epoch there is none of another price. */
  ghost predicate Flat(ticks: seq<Tick>) {
    forall i, j | 0 <= i < j < |ticks| && ticks[i].bucket < 0 :: ticks[j].price == ticks[i].price
  }

  /** What holds of a settled stream: a group before the epoch may be wrong, but only while it
      is the current one. */
  ghost predicate Tracks(o: Output, groups: seq<Frame>) {
    && ClosedRight(o, groups)
    && (groups == [] ==> o.state.current == NO_FRAME)
    && (groups != [] ==> o.state.current.bucket == groups[|groups| - 1].bucket)
    && (groups != [] && o.state.current.bucket >= 0 ==> o.state.current == groups[|groups| - 1])
  }

  lemma ReadyOfNone()
    ensures Ready([]) == []
  {
  }

  lemma ClosedRightSnoc(o: Output, front: seq<Frame>, last: Frame)
    ensures ClosedRight(o, front + [last]) <==>
            && o.closed == Ready(front)
            && o.state.latestClosed == if front == [] then NO_FRAME else front[|front| - 1].(ready := true)
  {
    hide Ready;
    assert (front + [last])[..|front|] == front;
  }

  lemma AddTickSnoc(front: seq<Frame>, last: Frame, t: Tick)
    ensures AddTick(front + [last], t) ==
            if last.bucket == t.bucket then front + [Extend(last, t)] else (front + [last]) + [OfTick(t)]
  {
    hide Extend, OfTick;
    assert (front + [last])[..|front|] == front;
  }

  lemma FirstTickTracks(o: Output, t: Tick)
    requires Tracks(o, [])
    ensures Tracks(FeedTick(o, t), AddTick([], t))
  {
    hide Ready;
    ReadyOfNone();
    assert [] + [OfTick(t)] == [OfTick(t)];
    ClosedRightSnoc(FeedTick(o, t), [], OfTick(t));
  }

  lemma SameBucketTracks(o: Output, front: seq<Frame>, last: Frame, t: Tick)
    requires Tracks(o, front + [last]) && last.bucket == t.bucket
    ensures Tracks(FeedTick(o, t), AddTick(front + [last], t))
  {
    hide Ready, ClosedRight;
    ClosedRightSnoc(o, front, last);
    AddTickSnoc(front, last, t);
    ClosedRightSnoc(FeedTick(o, t), front, Extend(last, t));
  }

  lemma NewBucketTracks(o: Output, front: seq<Frame>, last: Frame, t: Tick)
    requires Tracks(o, front + [last]) && last.bucket != t.bucket && last.bucket >= 0
    ensures Tracks(FeedTick(o, t), AddTick(front + [last], t))
  {
    hide Ready, ClosedRight;
    ClosedRightSnoc(o, front, last);
    AddTickSnoc(front, last, t);
    ReadySnoc(front, last);
    ClosedRightSnoc(FeedTick(o, t), front + [last], OfTick(t));
  }

  lemma TickTracks(o: Output, groups: seq<Frame>, t: Tick)
    requires Tracks(o, groups)
    requires groups != [] && groups[|groups| - 1].bucket < 0 ==> t.bucket == groups[|groups| - 1].bucket
    ensures Tracks(FeedTick(o, t), AddTick(groups, t))
  {
    hide Tracks, FeedTick, AddTick;
    if groups == [] {
      FirstTickTracks(o, t);
    } else {
      var front, last := groups[..|groups| - 1], groups[|groups| - 1];
      assert groups == front + [last];
      if last.bucket == t.bucket { SameBucketTracks(o, front, last, t); } else { NewBucketTracks(o, front, last, t); }
    }
  }

  /** Adding a tick keeps the buckets of all groups; the last group reaches over its price. */
  lemma AddTickKeeps(groups: seq<Frame>, t: Tick)
    ensures var after, n := AddTick(groups, t), |groups| - 1;
            && |after| >= |groups| && after != []
            && (forall p | 0 <= p <= n :: after[p].bucket == groups[p].bucket)
            && (n >= 0 && groups[n].bucket != t.bucket ==> |after| == |groups| + 1)
            && after[|after| - 1].bucket == t.bucket
            && after[|after| - 1].low <= t.price <= after[|after| - 1].high
            && (n >= 0 && groups[n].bucket == t.bucket ==>
                  after[|after| - 1].low <= groups[n].low && groups[n].high <= after[|after| - 1].high)
  {
  }

  /** The last group is that of the last tick. */
  lemma LastGroup(ticks: seq<Tick>)
    requires ticks != []
    ensures Grouped(ticks) != [] && Grouped(ticks)[|Grouped(ticks)| - 1].bucket == ticks[|ticks| - 1].bucket
  {
  }

  lemma {:induction false} SettledTracks(ticks: seq<Tick>)
    requires Settled(ticks)
    ensures Tracks(Feed(ticks), Grouped(ticks))
    decreases |ticks|
  {
    hide FeedTick, AddTick;
    if ticks == [] {
      assert ClosedRight(NOTHING, []);
    } else {
      var n := |ticks| - 1;
      var before := ticks[..n];
      assert forall i | 0 <= i < n :: before[i] == ticks[i];
      SettledTracks(before);
      if before != [] { LastGroup(before); }
      hide Tracks, Settled;
      TickTracks(Feed(before), Grouped(before), ticks[n]);
    }
  }

  /** A group whose ticks had one price. */
  predicate OnePrice(f: Frame, price: real) {
    f.open == price && f.high == price && f.low == price && f.close == price
  }

  lemma TickAgrees(o: Output, groups: seq<Frame>, t: Tick)
    requires Tracks(o, groups) && CurrentRight(o, groups)
    requires groups != [] && groups[|groups| - 1].bucket < 0 ==>
               t.bucket == groups[|groups| - 1].bucket && OnePrice(groups[|groups| - 1], t.price)
    ensures CurrentRight(FeedTick(o, t), AddTick(groups, t))
  {
    hide ClosedRight;
  }

  lemma AddTickOnePrice(groups: seq<Frame>, t: Tick)
    requires groups != [] && groups[|groups| - 1].bucket == t.bucket ==> OnePrice(groups[|groups| - 1], t.price)
    ensures AddTick(groups, t) != [] && OnePrice(AddTick(groups, t)[|AddTick(groups, t)| - 1], t.price)
  {
  }

  lemma FlatPrefix(ticks: seq<Tick>)
    requires ticks != [] && Settled(ticks) && Flat(ticks)
    ensures var n := |ticks| - 1;
            && Settled(ticks[..n]) && Flat(ticks[..n])
            && (n > 0 && ticks[n - 1].bucket < 0 ==> ticks[n].bucket == ticks[n - 1].bucket && ticks[n].price == ticks[n - 1].price)
  {
    var n := |ticks| - 1;
    assert forall i | 0 <= i < n :: ticks[..n][i] == ticks[i];
  }

  lemma {:induction false} FlatAgrees(ticks: seq<Tick>)
    requires Settled(ticks) && Flat(ticks)
    ensures CurrentRight(Feed(ticks), Grouped(ticks))
    ensures ticks != [] && ticks[|ticks| - 1].bucket < 0 ==>
              Grouped(ticks) != [] && OnePrice(Grouped(ticks)[|Grouped(ticks)| - 1], ticks[|ticks| - 1].price)
    decreases |ticks|
  {
    hide FeedTick, AddTick, ClosedRight, Tracks, Settled, Flat, OnePrice;
    if ticks != [] {
      var n := |ticks| - 1;
      var before := ticks[..n];
      FlatPrefix(ticks);
      FlatAgrees(before);
      SettledTracks(before);
      if n > 0 { LastGroup(before); }
      TickAgrees(Feed(before), Grouped(before), ticks[n]);
      if ticks[n].bucket < 0 { AddTickOnePrice(Grouped(before), ticks[n]); }
    }
  }

  lemma {:induction false} ClosedAreNonNegative(ticks: seq<Tick>)
    ensures forall f | f in Feed(ticks).closed :: f.bucket >= 0
  {
    if ticks != [] { ClosedAreNonNegative(ticks[..|ticks| - 1]); }
  }

  /** A tick followed by one of another bucket belongs to a finished group. */
  lemma {:induction false} FinishedGroup(ticks: seq<Tick>, i: nat, j: nat) returns (p: nat)
    requires i < j < |ticks| && ticks[i].bucket != ticks[j].bucket
    ensures p < |Grouped(ticks)| - 1 && Grouped(ticks)[p].bucket == ticks[i].bucket
    decreases |ticks|
  {
    hide AddTick;
    var n := |ticks| - 1;
    var before := ticks[..n];
    LastGroup(before);
    AddTickKeeps(Grouped(before), ticks[n]);
    if j < n {
      p := FinishedGroup(before, i, j);
    } else if before[n - 1].bucket == ticks[i].bucket {
      p := |Grouped(before)| - 1;
    } else {
      p := FinishedGroup(before, i, n - 1);
    }
  }

  lemma {:induction false} ReadyKeepsBuckets(frames: seq<Frame>, p: nat)
    requires p < |frames|
    ensures exists f | f in Ready(frames) :: f.bucket == frames[p].bucket
  {
    var n := |frames| - 1;
    var last := frames[n].(ready := true);
    assert Ready(frames) == Ready(frames[..n]) + [last];
    if p < n {
      ReadyKeepsBuckets(frames[..n], p);
      var f :| f in Ready(frames[..n]) && f.bucket == frames[p].bucket;
      assert f in Ready(frames);
    } else {
      assert last in Ready(frames);
    }
  }

  /** The frames the class gives out are right exactly when no usable event before the epoch
      is followed by one of another bucket. */
  lemma ClosedRightExactly(ticks: seq<Tick>)
    ensures ClosedRight(Feed(ticks), Grouped(ticks)) <==> Settled(ticks)
  {
    if Settled(ticks) {
      SettledTracks(ticks);
    } else {
      hide Feed, Grouped, Ready;
      var i, j :| 0 <= i < j < |ticks| && ticks[i].bucket < 0 && ticks[j].bucket != ticks[i].bucket;
      var p := FinishedGroup(ticks, i, j);
      var groups := Grouped(ticks);
      ReadyKeepsBuckets(groups[..|groups| - 1], p);
      ClosedAreNonNegative(ticks);
    }
  }

  /** A current frame before the epoch shows one price only. */
  lemma {:induction false} NegativeFrameIsFlat(ticks: seq<Tick>)
    ensures Feed(ticks).state.current.bucket < 0 ==> Feed(ticks).state.current.high == Feed(ticks).state.current.low
  {
    if ticks != [] { NegativeFrameIsFlat(ticks[..|ticks| - 1]); }
  }

  /** The last group reaches over all prices of a run that goes on to the end. */
  lemma {:induction false} LastGroupSpans(ticks: seq<Tick>, i: nat, k: nat)
    requires i <= k < |ticks| && forall m | i <= m < |ticks| :: ticks[m].bucket == ticks[i].bucket
    ensures Grouped(ticks) != []
    ensures var last := Grouped(ticks)[|Grouped(ticks)| - 1]; last.low <= ticks[k].price <= last.high
    decreases |ticks|
  {
    hide AddTick;
    var n := |ticks| - 1;
    AddTickKeeps(Grouped(ticks[..n]), ticks[n]);
    if k < n {
      LastGroupSpans(ticks[..n], i, k);
      LastGroup(ticks[..n]);
    }
  }

  lemma TwoPricesDisagree(ticks: seq<Tick>, i: nat, j: nat)
    requires Settled(ticks) && i < j < |ticks| && ticks[i].bucket < 0 && ticks[j].price != ticks[i].price
    ensures !CurrentRight(Feed(ticks), Grouped(ticks))
  {
    hide Feed, Grouped;
    assert forall m | i <= m < |ticks| :: ticks[m].bucket == ticks[i].bucket;
    hide Settled;
    LastGroupSpans(ticks, i, i);
    LastGroupSpans(ticks, i, j);
    LastGroup(ticks);
    NegativeFrameIsFlat(ticks);
  }

  /** All frames are those of the group-by exactly when after a usable event before the epoch
      there is none of another bucket or another price. */
  lemma AgreesExactly(ticks: seq<Tick>)
    ensures Agrees(Feed(ticks), Grouped(ticks)) <==> Settled(ticks) && Flat(ticks)
  {
    hide Feed, Grouped, ClosedRight, CurrentRight, Settled;
    ClosedRightExactly(ticks);
    if Settled(ticks) && Flat(ticks) {
      FlatAgrees(ticks);
    } else if Settled(ticks) {
      var i, j :| 0 <= i < j < |ticks| && ticks[i].bucket < 0 && ticks[j].price != ticks[i].price;
      TwoPricesDisagree(ticks, i, j);
    }
  }

  /** For every stream: the closed frames and the latest closed frame are those of the group-by
      iff no usable event in a bucket before the epoch is followed by one of another bucket;
      the current frame is, too, iff none of another price follows either. */
  lemma AggregatorGroupsExactly(events: seq<MarketEvent>, seconds: int)
    requires seconds >= 1
    ensures var o, ticks := Output(Fed(events, seconds), ClosedFrames(events, seconds)), Ticks(events, seconds);
            && (ClosedRight(o, Grouped(ticks)) <==> Settled(ticks))
            && (Agrees(o, Grouped(ticks)) <==> Settled(ticks) && Flat(ticks))
  {
    hide Fed, ClosedFrames, Ticks, Feed, Grouped, Agrees, ClosedRight, Settled, Flat;
    FedIsFeed(events, seconds);
    ClosedRightExactly(Ticks(events, seconds));
    AgreesExactly(Ticks(events, seconds));
  }

  lemma {:induction false} NonNegativeTicks(events: seq<MarketEvent>, seconds: int)
    requires seconds >= 1 && NonNegativeBuckets(events, seconds)
    ensures forall t | t in Ticks(events, seconds) :: t.bucket >= 0
    decreases |events|
  {
    hide BucketOf;
    if events != [] {
      var n := |events| - 1;
      assert events[n] in events && forall e | e in events[..n] :: e in events;
      NonNegativeTicks(events[..n], seconds);
    }
  }

  /** In particular it groups every stream from the epoch on. */
  lemma AggregatorGroups(events: seq<MarketEvent>, seconds: int)
    requires seconds >= 1 && NonNegativeBuckets(events, seconds)
    ensures Agrees(Output(Fed(events, seconds), ClosedFrames(events, seconds)), Grouped(Ticks(events, seconds)))
    ensures Ticks(events, seconds) != [] ==> Fed(events, seconds).current.bucket >= 0
  {
    hide Fed, ClosedFrames, Ticks, Grouped, ClosedRight, NonNegativeBuckets;
    AggregatorGroupsExactly(events, seconds);
    NonNegativeTicks(events, seconds);
    var ticks := Ticks(events, seconds);
    if ticks != [] {
      assert ticks[|ticks| - 1] in ticks;
      LastGroup(ticks);
    }
  }

  lemma NonNegativeTimesSuffice(events: seq<MarketEvent>, seconds: int)
    requires seconds >= 1 && NonNegativeTimes(events)
    ensures NonNegativeBuckets(events, seconds)
  {
    hide Quotient;
    forall e | e in events && Usable(e) ensures BucketOf(e, seconds) >= 0 {
      QuotientIsNonNegative(e.timestamp, TICKS_PER_SECOND);
      QuotientIsNonNegative(Quotient(e.timestamp, TICKS_PER_SECOND), seconds);
    }
  }

  lemma QuotientIsNonNegative(a: nat, b: int)
    requires b > 0
    ensures Quotient(a, b) >= 0
  {
  }

  function TotalVolume(frames: seq<Frame>): real {
    if frames == [] then 0.0 else TotalVolume(frames[..|frames| - 1]) + frames[|frames| - 1].volume
  }

  lemma PushKeepsVolume(s: State, e: MarketEvent, seconds: int)
    requires seconds >= 1
    ensures Push(s, e, seconds).current.volume + (if Closes(s, e, seconds) then Push(s, e, seconds).latestClosed.volume else 0.0)
            == s.current.volume + if Usable(e) then e.volume else 0.0
  {
    hide BucketOf;
  }

  lemma TotalVolumeSnoc(frames: seq<Frame>, f: Frame)
    ensures TotalVolume(frames + [f]) == TotalVolume(frames) + f.volume
  {
    assert (frames + [f])[..|frames|] == frames;
  }

  lemma VolumeSnoc(ticks: seq<Tick>, t: Tick)
    ensures Volume(ticks + [t]) == Volume(ticks) + t.volume
  {
    assert (ticks + [t])[..|ticks|] == ticks;
  }

  /** For every stream, whatever its timestamps: volume is neither lost nor counted twice
      across the closed frames and the current one. */
  lemma {:induction false} VolumeConserved(events: seq<MarketEvent>, seconds: int)
    requires seconds >= 1
    ensures TotalVolume(ClosedFrames(events, seconds)) + Fed(events, seconds).current.volume
            == Volume(Ticks(events, seconds))
    decreases |events|
  {
    hide Push, Closes, BucketOf, TotalVolume, Volume;
    if events == [] {
      NoVolume();
    } else {
      var before, e := events[..|events| - 1], events[|events| - 1];
      var s := Fed(before, seconds);
      VolumeConserved(before, seconds);
      PushKeepsVolume(s, e, seconds);
      assert ClosedFrames(before, seconds) + [] == ClosedFrames(before, seconds) && Ticks(before, seconds) + [] == Ticks(before, seconds);
      if Closes(s, e, seconds) { TotalVolumeSnoc(ClosedFrames(before, seconds), Push(s, e, seconds).latestClosed); }
      if Usable(e) { VolumeSnoc(Ticks(before, seconds), Tick(BucketOf(e, seconds), PriceOf(e), e.volume)); }
    }
  }

  lemma NoVolume()
    ensures TotalVolume([]) == 0.0 && Volume([]) == 0.0
  {
  }

  // ---------------------------------------------------------------- two timeframes

  function Merge(a: Frame, b: Frame): Frame {
    a.(high := Max(a.high, b.high), low := Min(a.low, b.low), close := b.close, volume := a.volume + b.volume)
  }

  /** Bars of a period k times as long, out of bars: those that fall into the same long
      bucket are merged. */
  function RollUp(frames: seq<Frame>, k: int): seq<Frame>
    requires k >= 1
  {
    if frames == [] then [] else AddFrame(RollUp(frames[..|frames| - 1], k), frames[|frames| - 1], k)
  }

  function AddFrame(acc: seq<Frame>, f: Frame, k: int): seq<Frame>
    requires k >= 1
  {
    var n, slow := |acc|, f.(bucket := Quotient(f.bucket, k));
    if n > 0 && acc[n - 1].bucket == slow.bucket then acc[..n - 1] + [Merge(acc[n - 1], slow)]
    else acc + [slow]
  }

  function SlowTickOf(t: Tick, k: int): Tick
    requires k >= 1
  {
    t.(bucket := Quotient(t.bucket, k))
  }

  function Slow(ticks: seq<Tick>, k: int): seq<Tick>
    requires k >= 1
  {
    if ticks == [] then []
    else Slow(ticks[..|ticks| - 1], k)
         + [SlowTickOf(ticks[|ticks| - 1], k)]
  }

  lemma {:induction false} RollUpIsSlowGrouping(ticks: seq<Tick>, k: int)
    requires k >= 1
    ensures RollUp(Grouped(ticks), k) == Grouped(Slow(ticks, k))
    decreases |ticks|
  {
    hide AddTick, AddFrame, Quotient;
    if ticks != [] {
      var n := |ticks| - 1;
      RollUpIsSlowGrouping(ticks[..n], k);
      var slow := Slow(ticks[..n], k);
      assert Slow(ticks, k) == slow + [SlowTickOf(ticks[n], k)];
      assert (slow + [SlowTickOf(ticks[n], k)])[..|slow|] == slow;
      RollUpAddsTick(Grouped(ticks[..n]), ticks[n], k);
    }
  }

  lemma RollUpSnoc(frames: seq<Frame>, f: Frame, k: int)
    requires k >= 1
    ensures RollUp(frames + [f], k) == AddFrame(RollUp(frames, k), f, k)
  {
    hide AddFrame;
    assert (frames + [f])[..|frames|] == frames;
  }

  lemma RollUpAddsTick(frames: seq<Frame>, t: Tick, k: int)
    requires k >= 1
    ensures RollUp(AddTick(frames, t), k) == AddTick(RollUp(frames, k), SlowTickOf(t, k))
  {
    hide AddFrame, RollUp, Extend, OfTick, SlowTickOf;
    var n := |frames|;
    if n > 0 && frames[n - 1].bucket == t.bucket {
      assert frames == frames[..n - 1] + [frames[n - 1]];
      RollUpSnoc(frames[..n - 1], frames[n - 1], k);
      RollUpSnoc(frames[..n - 1], Extend(frames[n - 1], t), k);
      ExtendThenRoll(RollUp(frames[..n - 1], k), frames[n - 1], t, k);
    } else {
      RollUpSnoc(frames, OfTick(t), k);
      RollTick(RollUp(frames, k), t, k);
    }
  }

  lemma RollTick(acc: seq<Frame>, t: Tick, k: int)
    requires k >= 1
    ensures AddFrame(acc, OfTick(t), k) == AddTick(acc, SlowTickOf(t, k))
  {
  }

  /** Adding a tick to the last short bar and rolling it up is rolling it up and adding the
      tick to the last long bar. */
  lemma ExtendThenRoll(acc: seq<Frame>, f: Frame, t: Tick, k: int)
    requires k >= 1 && f.bucket == t.bucket
    ensures AddFrame(acc, Extend(f, t), k) == AddTick(AddFrame(acc, f, k), SlowTickOf(t, k))
  {
  }

  lemma Nested(f: nat, k: nat, q: nat, r: nat, rest: nat)
    requires r < k && rest < f
    ensures f * (q * k + r) + rest == q * (f * k) + (f * r + rest)
    ensures f * r + rest < f * k
  {
    assert f * (q * k + r) == q * (f * k) + f * r;
    MulSpreads(k - r, f);
    assert f * k == f * r + (k - r) * f;
  }

  lemma Divided(a: nat, f: nat, k: nat, q: nat, s: nat, r: nat, rest: nat, product: nat)
    requires f >= 1 && k >= 1 && product == f * k >= 1
    requires q == s * k + r && r < k && a == f * q + rest && rest < f
    ensures a / product == s
  {
    Nested(f, k, s, r, rest);
    DivModUnique(a, s, f * r + rest, product);
  }

  lemma SlowBucket(a: nat, f: nat, k: nat)
    requires f >= 1 && k >= 1 && f * k >= 1
    ensures a / (f * k) == (a / f) / k
  {
    Divided(a, f, k, a / f, (a / f) / k, (a / f) % k, a % f, f * k);
  }

  /** Division that rounds toward zero nests on both sides of zero. */
  lemma SlowQuotient(a: int, f: nat, k: nat)
    requires f >= 1 && k >= 1 && f * k >= 1
    ensures Quotient(a, f * k) == Quotient(Quotient(a, f), k)
  {
    SlowBucket(if a >= 0 then a else -a, f, k);
    NestedQuotient(a, f, k, f * k);
  }

  lemma NestedQuotient(a: int, f: nat, k: nat, product: nat)
    requires f >= 1 && k >= 1 && product >= 1
    requires var n := if a >= 0 then a else -a; n / product == (n / f) / k
    ensures Quotient(a, product) == Quotient(Quotient(a, f), k)
  {
    var n := if a >= 0 then a else -a;
    QuotientIsNonNegative(n, f);
    assert Quotient(n, f) == n / f;
    if n / f == 0 { NoQuotient(k); }
  }

  lemma NoQuotient(k: nat)
    requires k >= 1
    ensures 0 / k == 0
  {
  }

  lemma SlowTick(e: MarketEvent, fast: int, k: int)
    requires fast >= 1 && k >= 1 && fast * k >= 1
    ensures BucketOf(e, fast * k) == Quotient(BucketOf(e, fast), k)
  {
    hide Quotient;
    SlowQuotient(Quotient(e.timestamp, TICKS_PER_SECOND), fast, k);
  }

  lemma {:induction false} SlowTicks(events: seq<MarketEvent>, fast: int, k: int)
    requires fast >= 1 && k >= 1 && fast * k >= 1
    ensures Ticks(events, fast * k) == Slow(Ticks(events, fast), k)
    decreases |events|
  {
    if events != [] {
      var before, e := events[..|events| - 1], events[|events| - 1];
      assert forall x | x in before :: x in events;
      SlowTicks(before, fast, k);
      if Usable(e) {
        SlowTick(e, fast, k);
        var ticks := Ticks(events, fast);
        assert ticks[..|ticks| - 1] == Ticks(before, fast);
        assert ticks[|ticks| - 1] == Tick(BucketOf(e, fast), PriceOf(e), e.volume);
      } else {
        assert Ticks(events, fast) == Ticks(before, fast);
        assert Ticks(events, fast * k) == Ticks(before, fast * k);
      }
    }
  }

  /** All frames: the closed ones and, from the first usable event on, the one being built. */
  function AllFrames(events: seq<MarketEvent>, seconds: int): seq<Frame>
    requires seconds >= 1
  {
    ClosedFrames(events, seconds) + if Ticks(events, seconds) == [] then [] else [Fed(events, seconds).current]
  }

  lemma {:induction false} SlowAt(ticks: seq<Tick>, k: int)
    requires k >= 1
    ensures |Slow(ticks, k)| == |ticks|
    ensures forall i | 0 <= i < |ticks| :: Slow(ticks, k)[i] == SlowTickOf(ticks[i], k)
  {
    hide SlowTickOf;
    if ticks != [] {
      SlowAt(ticks[..|ticks| - 1], k);
    }
  }

  lemma NegativeSlowBucket(bucket: int, k: int)
    requires k >= 1 && Quotient(bucket, k) < 0
    ensures bucket < 0
  {
    if bucket >= 0 { QuotientIsNonNegative(bucket, k); }
  }

  /** What the fast aggregator groups rightly, the slow one does, too. */
  lemma SlowSettles(ticks: seq<Tick>, k: int)
    requires k >= 1 && Settled(ticks) && Flat(ticks)
    ensures Settled(Slow(ticks, k)) && Flat(Slow(ticks, k))
  {
    var slow := Slow(ticks, k);
    SlowAt(ticks, k);
    forall i, j | 0 <= i < j < |slow| && slow[i].bucket < 0
      ensures slow[j].bucket == slow[i].bucket && slow[j].price == slow[i].price
    {
      assert slow[i] == SlowTickOf(ticks[i], k) && slow[j] == SlowTickOf(ticks[j], k);
      NegativeSlowBucket(ticks[i].bucket, k);
    }
  }

  /** When the slow period is a multiple of the fast one, the slow frames (closed and current)
      are the merges of the fast frames inside them, for every stream whose fast frames are
      those of its group-by. */
  lemma SlowFramesMergeFastFrames(events: seq<MarketEvent>, fast: int, k: int)
    requires fast >= 1 && k >= 1 && fast * k >= 1
    requires Settled(Ticks(events, fast)) && Flat(Ticks(events, fast))
    ensures Unready(AllFrames(events, fast * k)) == RollUp(Unready(AllFrames(events, fast)), k)
  {
    hide Settled, Flat, AllFrames, Unready, RollUp, Slow, Ticks;
    SlowTicks(events, fast, k);
    SlowSettles(Ticks(events, fast), k);
    RollUpIsSlowGrouping(Ticks(events, fast), k);
    FramesAreGroups(events, fast);
    FramesAreGroups(events, fast * k);
  }

  /** Forgetting which frames are closed. */
  function Unready(frames: seq<Frame>): seq<Frame> {
    if frames == [] then [] else Unready(frames[..|frames| - 1]) + [frames[|frames| - 1].(ready := false)]
  }

  lemma {:induction false} UnreadyReady(frames: seq<Frame>)
    requires forall f | f in frames :: !f.ready
    ensures Unready(Ready(frames)) == frames
  {
    if frames != [] {
      var n := |frames| - 1;
      UnreadyReady(frames[..n]);
      assert Ready(frames)[..|Ready(frames[..n])|] == Ready(frames[..n]);
      assert frames == frames[..n] + [frames[n]];
      assert frames[n] in frames;
    }
  }

  lemma {:induction false} GroupsUnready(ticks: seq<Tick>)
    ensures forall f | f in Grouped(ticks) :: !f.ready
  {
    if ticks != [] {
      GroupsUnready(ticks[..|ticks| - 1]);
    }
  }

  lemma NoTicksNoFrames(events: seq<MarketEvent>, seconds: int)
    requires seconds >= 1 && Ticks(events, seconds) == []
    ensures ClosedFrames(events, seconds) == []
  {
    FedIsFeed(events, seconds);
  }

  lemma FramesAreGroups(events: seq<MarketEvent>, seconds: int)
    requires seconds >= 1 && Settled(Ticks(events, seconds)) && Flat(Ticks(events, seconds))
    ensures Unready(AllFrames(events, seconds)) == Grouped(Ticks(events, seconds))
  {
    hide Fed, ClosedFrames, Ticks, Grouped, Settled, Flat;
    var ticks := Ticks(events, seconds);
    if ticks == [] {
      NoTicksNoFrames(events, seconds);
      assert Grouped([]) == [] by { NoTicksNoGroups(); }
    } else {
      AggregatorGroupsExactly(events, seconds);
      LastGroup(ticks);
      GroupsUnready(ticks);
      var groups := Grouped(ticks);
      var n := |groups| - 1;
      assert groups[n] in groups && groups == groups[..n] + [groups[n]];
      UnreadyReady(groups[..n]);
      UnreadySnoc(Ready(groups[..n]), groups[n]);
    }
  }

  lemma NoTicksNoGroups()
    ensures Grouped([]) == []
  {
  }

  lemma UnreadySnoc(frames: seq<Frame>, f: Frame)
    ensures Unready(frames + [f]) == Unready(frames) + [f.(ready := false)]
  {
    assert (frames + [f])[..|frames|] == frames;
  }

  /** Two trades of the same minute before the epoch do not share a bar: the first one's open
      and high are lost. */
  lemma NegativeTimesBreakGrouping()
    ensures var a, b := MarketEvent(-130 * TICKS_PER_SECOND, 5.0, 2.0, 1.0), MarketEvent(-125 * TICKS_PER_SECOND, 0.0, 3.0, 1.0);
            && BucketOf(a, 60) == BucketOf(b, 60) == -2
            && Grouped(Ticks([a, b], 60)) == [Frame(-2, 5.0, 5.0, 3.0, 3.0, 2.0, false)]
            && Fed([a, b], 60).current == Frame(-2, 3.0, 3.0, 3.0, 3.0, 2.0, false)
  {
    var a, b := MarketEvent(-130 * TICKS_PER_SECOND, 5.0, 2.0, 1.0), MarketEvent(-125 * TICKS_PER_SECOND, 0.0, 3.0, 1.0);
    assert BucketOf(a, 60) == BucketOf(b, 60) == -2;
    hide BucketOf, Feed, Grouped, Fed, Ticks;
    var x, y := Tick(-2, 5.0, 1.0), Tick(-2, 3.0, 1.0);
    TicksOfTwo(a, b, 60);
    FedIsFeed([a, b], 60);
    TwoTicks(x, y);
  }

  /** With two buckets before the epoch the closed frames are wrong, too: the first of them is
      never closed. */
  lemma NegativeTimesLoseFrames()
    ensures var a, b := MarketEvent(-190 * TICKS_PER_SECOND, 5.0, 5.0, 1.0), MarketEvent(-130 * TICKS_PER_SECOND, 3.0, 3.0, 1.0);
            && Grouped(Ticks([a, b], 60)) == [Frame(-3, 5.0, 5.0, 5.0, 5.0, 1.0, false), Frame(-2, 3.0, 3.0, 3.0, 3.0, 1.0, false)]
            && ClosedFrames([a, b], 60) == [] && Fed([a, b], 60) == State(Frame(-2, 3.0, 3.0, 3.0, 3.0, 2.0, false), NO_FRAME)
            && !ClosedRight(Output(Fed([a, b], 60), ClosedFrames([a, b], 60)), Grouped(Ticks([a, b], 60)))
  {
    var a, b := MarketEvent(-190 * TICKS_PER_SECOND, 5.0, 5.0, 1.0), MarketEvent(-130 * TICKS_PER_SECOND, 3.0, 3.0, 1.0);
    assert BucketOf(a, 60) == -3 && BucketOf(b, 60) == -2;
    hide BucketOf, Feed, Grouped, Fed, Ticks, ClosedFrames;
    var x, y := Tick(-3, 5.0, 1.0), Tick(-2, 3.0, 1.0);
    TicksOfTwo(a, b, 60);
    FedIsFeed([a, b], 60);
    TwoTicks(x, y);
  }

  lemma TicksOfTwo(a: MarketEvent, b: MarketEvent, seconds: int)
    requires seconds >= 1 && Usable(a) && Usable(b)
    ensures Ticks([a, b], seconds) == [TickOf(a, seconds), TickOf(b, seconds)]
  {
    hide BucketOf, PriceOf, Usable;
    assert [a, b][..1] == [a] && [a][..0] == [];
    TicksSnoc([a], seconds);
    TicksSnoc([a, b], seconds);
  }

  lemma TwoTicks(x: Tick, y: Tick)
    ensures Feed([x, y]) == FeedTick(FeedTick(NOTHING, x), y)
    ensures Grouped([x, y]) == AddTick(AddTick([], x), y)
  {
    hide FeedTick, AddTick;
    FeedSnoc([], x);
    FeedSnoc([x], y);
    GroupedSnoc([], x);
    GroupedSnoc([x], y);
    assert [] + [x] == [x] && [x] + [y] == [x, y];
  }
}
