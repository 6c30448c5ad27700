/** Walk-forward index arithmetic: how a dataset is divided into initial training, validation
    folds and holdout, and which events a trial reads. Sizes wrap at 64 bits. */
module WalkForward {
  import opened Wrappers
  import opened Reals
  import opened RingIndex

  const SIZE_LIMIT := 0x1_0000_0000_0000_0000

  datatype Config = Config(trainFraction: real, holdoutFraction: real, folds: nat, purge: nat, embargo: nat)

  predicate ValidConfig(c: Config) {
    && 0.10 < c.trainFraction < 0.90 && 0.0 < c.holdoutFraction < 0.40
    && c.trainFraction + c.holdoutFraction < 0.95
    && 1 <= c.folds < SIZE_LIMIT && c.purge < SIZE_LIMIT && c.embargo < SIZE_LIMIT
  }

  datatype Layout = Layout(researchEnd: nat, initialTrain: nat, folds: nat, width: nat)

  datatype Fold = Fold(boundary: nat, trainEnd: nat, validationBegin: nat, validationEnd: nat)

  datatype Error = TooFewEvents | NoValidationEvents

  /** A fraction of the events, rounded down. */
  function Share(events: nat, fraction: real): int { Times(events as real, fraction).Floor }

  function Plan(events: nat, c: Config): Result<Layout, Error>
    requires ValidConfig(c) && events < SIZE_LIMIT
  {
    if events < 50 then Err(TooFewEvents)
    else
      SharesFit(events, c);
      var researchEnd := events - AtLeast(1, Share(events, c.holdoutFraction));
      var initial := Least(AtLeast(2, Share(events, c.trainFraction)), researchEnd - 1);
      var remaining := researchEnd - initial;
      var folds := Least(c.folds, remaining);
      if folds == 0 then Err(NoValidationEvents)
      else Ok(Layout(researchEnd, initial, folds, AtLeast(1, remaining / folds)))
  }

  lemma SharesFit(events: nat, c: Config)
    requires ValidConfig(c) && events >= 50
    ensures 0 <= Share(events, c.holdoutFraction) && 5 * Share(events, c.holdoutFraction) <= 2 * events
  {
    TimesUp(0.0, c.holdoutFraction, events as real);
    TimesUp(c.holdoutFraction, 0.40, events as real);
    assert Times(events as real, 0.40) == events as real * 0.40;
  }

  lemma TrainingFits(events: nat, c: Config)
    requires ValidConfig(c) && events >= 50
    ensures 5 <= Share(events, c.trainFraction)
  {
    TimesUp(0.10, c.trainFraction, events as real);
    assert Times(events as real, 0.10) == events as real * 0.10;
  }

  function Boundary(l: Layout, f: nat): nat { l.initialTrain + f * l.width }

  function FoldAt(l: Layout, c: Config, f: nat): Fold
    requires f < l.folds
  {
    var boundary := Boundary(l, f);
    var end := if f + 1 == l.folds then l.researchEnd else Least(l.researchEnd, Boundary(l, f + 1));
    Fold(boundary,
         if boundary > c.purge then boundary - c.purge else 0,
         Least(end, (boundary + c.embargo) % SIZE_LIMIT),
         end)
  }

  /** A layout leaves room: something to train on, something to validate, something held out. */
  predicate Fits(l: Layout, events: nat) {
    && 2 <= l.initialTrain < l.researchEnd < events < SIZE_LIMIT
    && 1 <= l.folds && 1 <= l.width && Boundary(l, l.folds) <= l.researchEnd
  }

  /** Every dataset of at least 50 events gets such a layout. */
  lemma PlanFits(events: nat, c: Config)
    requires ValidConfig(c) && events < SIZE_LIMIT
    ensures Plan(events, c).Ok? <==> events >= 50
    ensures Plan(events, c).Ok? ==> Fits(Plan(events, c).value, events)
    // at most two fifths are held out, and at least one event and as many whole ones as its share
    // has; the initial training is its share rounded down, or all but one of the other events;
    // there are as many folds as configured, or one for each remaining event, as wide as fit
    ensures Plan(events, c).Ok? ==>
              var l := Plan(events, c).value;
              && 5 * (events - l.researchEnd) <= 2 * events
              && ((events - l.researchEnd) as real <= Times(events as real, c.holdoutFraction) || events - l.researchEnd == 1)
              && Times(events as real, c.holdoutFraction) < (events - l.researchEnd + 1) as real
              && l.folds == Least(c.folds, l.researchEnd - l.initialTrain)
              && Boundary(l, l.folds) <= l.researchEnd < Boundary(l, l.folds) + l.folds
              && l.initialTrain as real <= Times(events as real, c.trainFraction)
              && (Times(events as real, c.trainFraction) < (l.initialTrain + 1) as real || l.initialTrain == l.researchEnd - 1)
  {
    if events >= 50 {
      SharesFit(events, c);
      TrainingFits(events, c);
      hide Times;
      var l := Plan(events, c).value;
      WholeFolds(l.researchEnd - l.initialTrain, l.folds);
    }
  }

  lemma WholeFolds(remaining: nat, folds: nat)
    requires 1 <= folds <= remaining
    ensures 1 <= remaining / folds && folds * (remaining / folds) <= remaining
  {
    assert remaining == folds * (remaining / folds) + remaining % folds;
  }

  lemma OneFold(l: Layout, f: nat)
    ensures Boundary(l, f + 1) == Boundary(l, f) + l.width
  {
  }

  lemma {:induction false} BoundariesGrow(l: Layout, f: nat, g: nat)
    requires f <= g && l.width >= 1
    ensures Boundary(l, f) + (g - f) <= Boundary(l, g)
    decreases g
  {
    if f < g {
      hide Boundary;
      BoundariesGrow(l, f, g - 1);
      OneFold(l, g - 1);
    }
  }

  /** Folds tile the region between initial training and holdout. */
  lemma FoldsTile(l: Layout, c: Config, events: nat, f: nat)
    requires Fits(l, events) && f < l.folds
    ensures var fold := FoldAt(l, c, f);
            && l.initialTrain <= fold.boundary < fold.validationEnd <= l.researchEnd
            && fold.validationEnd == (if f + 1 == l.folds then l.researchEnd else FoldAt(l, c, f + 1).boundary)
            && fold.trainEnd <= fold.boundary && fold.validationBegin <= fold.validationEnd
            && (f == 0 ==> fold.boundary == l.initialTrain)
  {
    BoundariesGrow(l, 0, f);
    OneFold(l, f);
    BoundariesGrow(l, f + 1, l.folds);
    assert Boundary(l, 0) == l.initialTrain;
    hide Boundary;
  }

  /** Validation ranges of different folds are ordered. */
  lemma ValidationIsOrdered(l: Layout, c: Config, events: nat, f: nat, g: nat)
    requires Fits(l, events) && f < g < l.folds
    ensures FoldAt(l, c, f).validationEnd <= FoldAt(l, c, g).boundary
  {
    FoldsTile(l, c, events, f);
    BoundariesGrow(l, f + 1, g);
  }

  /** Training of a fold that has both a training and a validation slice ends purge plus embargo
      events before its validation begins, exactly when the embargo does not wrap around. */
  lemma SeparationExactly(l: Layout, c: Config, events: nat, f: nat)
    requires ValidConfig(c) && Fits(l, events) && f < l.folds
    requires FoldAt(l, c, f).trainEnd > 0 && FoldAt(l, c, f).validationBegin < FoldAt(l, c, f).validationEnd
    ensures var fold := FoldAt(l, c, f);
            fold.trainEnd + c.purge + c.embargo <= fold.validationBegin <==> fold.boundary + c.embargo < SIZE_LIMIT
  {
    FoldsTile(l, c, events, f);
    Wrapped(Boundary(l, f), c.embargo);
  }

  /** Such an embargo can be configured, and training and validation then overlap: a negative
      number in the configuration is read as one. */
  lemma WrappingEmbargoOverlaps()
    ensures var c := Config(0.6, 0.15, 1, 0, SIZE_LIMIT - 1);
            && ValidConfig(c) && Plan(100, c) == Ok(Layout(85, 60, 1, 25)) && Fits(Layout(85, 60, 1, 25), 100)
            && FoldAt(Layout(85, 60, 1, 25), c, 0) == Fold(60, 60, 59, 85)
  {
    assert Share(100, 0.15) == 15 && Share(100, 0.6) == 60;
    Wrapped(60, SIZE_LIMIT - 1);
  }

  lemma Wrapped(a: nat, b: nat)
    requires a < SIZE_LIMIT && b < SIZE_LIMIT
    ensures (a + b) % SIZE_LIMIT == if a + b < SIZE_LIMIT then a + b else a + b - SIZE_LIMIT
  {
  }

  // ---------------------------------------------------------------- what a trial reads

  /** begin, begin + 1, ..., end - 1 */
  function Range(begin: nat, end: nat): (r: seq<nat>)
    ensures |r| == AtLeast(0, end - begin) && forall k | 0 <= k < |r| :: r[k] == begin + k
    decreases end
  {
    if end <= begin then [] else Range(begin, end - 1) + [end - 1]
  }

  lemma RangesJoin(a: nat, b: nat, c: nat)
    requires a <= b <= c
    ensures Range(a, b) + Range(b, c) == Range(a, c)
  {
  }

  ghost predicate Below(indices: seq<nat>, bound: nat) {
    forall i | i in indices :: i < bound
  }

  ghost predicate Increasing(indices: seq<nat>, from: nat) {
    && (forall k | 0 <= k < |indices| :: from <= indices[k])
    && (forall j, k | 0 <= j < k < |indices| :: indices[j] < indices[k])
  }

  lemma JoinIncreasing(a: seq<nat>, begin: nat, end: nat, from: nat)
    requires Increasing(a, from) && Below(a, begin) && from <= begin
    ensures Increasing(a + Range(begin, end), from)
  {
    var r := Range(begin, end);
    forall k | 0 <= k < |a| ensures a[k] < begin { assert a[k] in a; }
    assert forall k | |a| <= k < |a + r| :: (a + r)[k] == r[k - |a|];
  }

  lemma JoinBelow(a: seq<nat>, begin: nat, end: nat, bound: nat)
    requires Below(a, bound) && end <= bound
    ensures Below(a + Range(begin, end), bound)
  {
    var r := Range(begin, end);
    forall i | i in a + r ensures i < bound {
      if i in r {
        var k :| 0 <= k < |r| && r[k] == i;
      }
    }
  }

  /** What one fold replays: events to train on, to validate on, and to warm the strategy up. */
  datatype Slices = Slices(train: seq<nat>, validation: seq<nat>, warmup: seq<nat>)

  ghost predicate Consecutive(indices: seq<nat>, from: nat) {
    forall k | 0 <= k < |indices| :: indices[k] == from + k
  }

  /** Training replays all events up to the purge before the boundary, from the first one. */
  ghost predicate TrainsUpTo(s: Slices, boundary: nat, purge: nat) {
    |s.train| == AtLeast(0, boundary - purge) && Consecutive(s.train, 0)
  }

  /** Validation replays all events from the embargo after the boundary to the end of the fold. */
  ghost predicate ValidatesFrom(s: Slices, begin: nat, end: nat) {
    |s.validation| == AtLeast(0, end - begin) && Consecutive(s.validation, begin)
  }

  /** Every training event lies more than the gap before every validation event. */
  ghost predicate Separated(s: Slices, gap: nat) {
    forall i, j | i in s.train && j in s.validation :: i + gap < j
  }

  /** The warm-up replays the events right before the first validated one, lookback + 1 of them
      if there are so many. Without validation there is none. */
  ghost predicate WarmsUp(s: Slices, lookback: nat) {
    && (s.validation == [] ==> s.warmup == [])
    && (s.validation != [] && lookback + 1 < SIZE_LIMIT ==>
          && |s.warmup| == Least(s.validation[0], lookback + 1)
          && Consecutive(s.warmup, s.validation[0] - |s.warmup|))
  }

  /** The slices of fold f. */
  ghost predicate Replays(l: Layout, c: Config, lookback: nat, f: nat, s: Slices)
    requires f < l.folds
  {
    var boundary := l.initialTrain + f * l.width;
    var end := if f + 1 == l.folds then l.researchEnd else l.initialTrain + (f + 1) * l.width;
    && Below(s.train, l.researchEnd) && Below(s.validation, l.researchEnd) && Below(s.warmup, l.researchEnd)
    && TrainsUpTo(s, boundary, c.purge) && WarmsUp(s, lookback)
    && (boundary + c.embargo < SIZE_LIMIT ==>
          ValidatesFrom(s, boundary + c.embargo, end) && Separated(s, c.purge + c.embargo))
  }

  /** The events one fold replays. */
  method ReplayFold(l: Layout, c: Config, lookback: nat, ghost events: nat, f: nat) returns (s: Slices)
    requires ValidConfig(c) && Fits(l, events) && f < l.folds
    ensures Replays(l, c, lookback, f, s)
    ensures s.validation == Range(FoldAt(l, c, f).validationBegin, FoldAt(l, c, f).validationEnd)
  {
    var fold := FoldAt(l, c, f);
    var begin, end := fold.validationBegin, fold.validationEnd;
    s := Slices([], [], []);
    if fold.trainEnd > 0 { s := s.(train := Range(0, fold.trainEnd)); }
    if begin < end {
      s := s.(warmup := Range(WarmupBegin(begin, lookback), begin), validation := Range(begin, end));
    }
    FoldEnds(l, c, events, f);
    hide FoldAt, Fits, Replays;
    SlicesReplay(l, c, lookback, f, s, fold);
  }

  /** A fold in terms of the layout. */
  lemma FoldEnds(l: Layout, c: Config, events: nat, f: nat)
    requires ValidConfig(c) && Fits(l, events) && f < l.folds
    ensures var fold, boundary := FoldAt(l, c, f), l.initialTrain + f * l.width;
            && fold.trainEnd == AtLeast(0, boundary - c.purge)
            && fold.validationEnd == (if f + 1 == l.folds then l.researchEnd else l.initialTrain + (f + 1) * l.width)
            && boundary <= fold.validationEnd <= l.researchEnd && fold.validationBegin <= fold.validationEnd
            && (boundary + c.embargo < SIZE_LIMIT ==> fold.validationBegin == Least(fold.validationEnd, boundary + c.embargo))
  {
    hide Boundary;
    BoundaryOf(l, f);
    BoundaryOf(l, f + 1);
    FoldsTile(l, c, events, f);
    Wrapped(Boundary(l, f), c.embargo);
    BoundariesGrow(l, f + 1, l.folds);
  }

  lemma BoundaryOf(l: Layout, f: nat)
    ensures Boundary(l, f) == l.initialTrain + f * l.width
  {
  }

  lemma SlicesReplay(l: Layout, c: Config, lookback: nat, f: nat, s: Slices, fold: Fold)
    requires f < l.folds
    requires var boundary := l.initialTrain + f * l.width;
             && fold.trainEnd == AtLeast(0, boundary - c.purge)
             && fold.validationEnd == (if f + 1 == l.folds then l.researchEnd else l.initialTrain + (f + 1) * l.width)
             && boundary <= fold.validationEnd <= l.researchEnd && fold.validationBegin <= fold.validationEnd
             && (boundary + c.embargo < SIZE_LIMIT ==> fold.validationBegin == Least(fold.validationEnd, boundary + c.embargo))
    requires s.train == (if fold.trainEnd > 0 then Range(0, fold.trainEnd) else [])
    requires var begin, end := fold.validationBegin, fold.validationEnd;
             && s.validation == (if begin < end then Range(begin, end) else [])
             && s.warmup == (if begin < end then Range(WarmupBegin(begin, lookback), begin) else [])
    ensures Replays(l, c, lookback, f, s)
  {
    hide Range, Below;
    RangeHolds(0, fold.trainEnd);
    RangeHolds(fold.validationBegin, fold.validationEnd);
    WarmupIsRight(fold.validationBegin, lookback);
    RangeIsBelow(0, fold.trainEnd, l.researchEnd);
    RangeIsBelow(fold.validationBegin, fold.validationEnd, l.researchEnd);
    RangeIsBelow(WarmupBegin(fold.validationBegin, lookback), fold.validationBegin, l.researchEnd);
    NothingIsBelow(l.researchEnd);
  }

  lemma RangeHolds(begin: nat, end: nat)
    ensures forall i: nat :: i in Range(begin, end) <==> begin <= i < end
  {
    forall i: nat ensures i in Range(begin, end) <==> begin <= i < end {
      if begin <= i < end { assert Range(begin, end)[i - begin] == i; }
    }
  }

  lemma RangeIsBelow(begin: nat, end: nat, bound: nat)
    requires end <= bound
    ensures Below(Range(begin, end), bound)
  {
    RangeHolds(begin, end);
  }

  lemma NothingIsBelow(bound: nat)
    ensures Below([], bound)
  {
  }

  lemma WarmupIsRight(begin: nat, lookback: nat)
    ensures WarmupBegin(begin, lookback) <= begin
    ensures lookback + 1 < SIZE_LIMIT ==> WarmupBegin(begin, lookback) == begin - Least(begin, lookback + 1)
  {
  }

  /** The validated events of some folds, one after the other. */
  function Validated(folds: seq<Slices>): seq<nat> {
    if folds == [] then [] else Validated(folds[..|folds| - 1]) + folds[|folds| - 1].validation
  }

  /** The events a trial replays, fold by fold. No holdout event is among them, and unless the
      embargo wraps around, each validation event is replayed once, in order. These are all
      events between initial training and holdout exactly when there is no embargo: otherwise
      the first is missing. */
  method Trial(l: Layout, c: Config, lookback: nat, ghost events: nat) returns (folds: seq<Slices>)
    requires ValidConfig(c) && Fits(l, events)
    ensures |folds| == l.folds && forall f | 0 <= f < l.folds :: Replays(l, c, lookback, f, folds[f])
    ensures l.researchEnd + c.embargo < SIZE_LIMIT ==>
              && Increasing(Validated(folds), l.initialTrain)
              && (Validated(folds) == Range(l.initialTrain, l.researchEnd) <==> c.embargo == 0)
  {
    folds := [];
    for f := 0 to l.folds
      invariant |folds| == f && forall g | 0 <= g < f :: Replays(l, c, lookback, g, folds[g])
      invariant Below(Validated(folds), l.researchEnd) && Reached(l, c, f) <= l.researchEnd
      invariant l.researchEnd + c.embargo < SIZE_LIMIT ==>
                  Increasing(Validated(folds), Earliest(l, c)) && Below(Validated(folds), Reached(l, c, f))
      invariant c.embargo == 0 ==> Validated(folds) == Range(l.initialTrain, Reached(l, c, f))
    {
      hide FoldAt, Below, Increasing, Reached, Earliest, Replays;
      var s := ReplayFold(l, c, lookback, events, f);
      ghost var before := Validated(folds);
      FoldExtends(l, c, events, f, before);
      assert (folds + [s])[..f] == folds;
      folds := folds + [s];
      assert Validated(folds) == before + s.validation;
      assert s.validation == [] ==> before + s.validation == before;
    }
    CompleteExactly(l, c, events, Validated(folds));
  }

  /** No earlier event is validated when nothing wraps. */
  function Earliest(l: Layout, c: Config): nat {
    l.initialTrain + if c.embargo == 0 then 0 else 1
  }

  lemma CompleteExactly(l: Layout, c: Config, events: nat, validation: seq<nat>)
    requires Fits(l, events)
    requires c.embargo == 0 ==> validation == Range(l.initialTrain, l.researchEnd)
    ensures Increasing(validation, Earliest(l, c)) ==>
              && Increasing(validation, l.initialTrain)
              && (validation == Range(l.initialTrain, l.researchEnd) <==> c.embargo == 0)
  {
    assert Range(l.initialTrain, l.researchEnd)[0] == l.initialTrain;
  }

  /** The strategy is warmed up with lookback + 1 events, or what there is. */
  function WarmupBegin(begin: nat, lookback: nat): nat {
    begin - Least(begin, (lookback + 1) % SIZE_LIMIT)
  }

  /** Where a fold begins to validate. */
  lemma FoldBegins(l: Layout, c: Config, events: nat, f: nat)
    requires ValidConfig(c) && Fits(l, events) && f < l.folds
    ensures var fold := FoldAt(l, c, f);
            && l.initialTrain <= fold.boundary == Reached(l, c, f)
            && fold.validationBegin <= fold.validationEnd == Reached(l, c, f + 1) <= l.researchEnd
            && (l.researchEnd + c.embargo < SIZE_LIMIT ==> fold.boundary <= fold.validationBegin)
            && (l.researchEnd + c.embargo < SIZE_LIMIT && fold.validationBegin < fold.validationEnd ==>
                  Earliest(l, c) <= fold.validationBegin)
            && (c.embargo == 0 ==> fold.boundary == fold.validationBegin)
  {
    FoldsTile(l, c, events, f);
    if f > 0 { FoldsTile(l, c, events, f - 1); }
    Wrapped(FoldAt(l, c, f).boundary, c.embargo);
  }

  /** What one fold adds to the validation events. */
  lemma FoldExtends(l: Layout, c: Config, events: nat, f: nat, validation: seq<nat>)
    requires ValidConfig(c) && Fits(l, events) && f < l.folds && Below(validation, l.researchEnd)
    ensures Reached(l, c, f + 1) <= l.researchEnd
    ensures var fold := FoldAt(l, c, f);
            var after := if fold.validationBegin < fold.validationEnd
                         then validation + Range(fold.validationBegin, fold.validationEnd) else validation;
            && Below(after, l.researchEnd)
            && (l.researchEnd + c.embargo < SIZE_LIMIT && Increasing(validation, Earliest(l, c))
                && Below(validation, Reached(l, c, f)) ==>
                  Increasing(after, Earliest(l, c)) && Below(after, Reached(l, c, f + 1)))
            && (c.embargo == 0 && validation == Range(l.initialTrain, Reached(l, c, f)) ==>
                  after == Range(l.initialTrain, Reached(l, c, f + 1)))
  {
    hide FoldAt, Below, Increasing, Reached, Boundary, Range, Fits, Earliest;
    var fold := FoldAt(l, c, f);
    var begin, end := fold.validationBegin, fold.validationEnd;
    FoldBegins(l, c, events, f);
    if begin < end { JoinBelow(validation, begin, end, l.researchEnd); }
    if l.researchEnd + c.embargo < SIZE_LIMIT && Increasing(validation, Earliest(l, c)) && Below(validation, fold.boundary) {
      Weaken(validation, fold.boundary, begin);
      Weaken(validation, begin, end);
      if begin < end {
        JoinIncreasing(validation, begin, end, Earliest(l, c));
        JoinBelow(validation, begin, end, end);
      }
    }
    if c.embargo == 0 { RangesJoin(l.initialTrain, begin, end); }
  }

  lemma Weaken(indices: seq<nat>, low: nat, high: nat)
    requires Below(indices, low) && low <= high
    ensures Below(indices, high)
  {
  }

  /** Where the folds before f end. */
  function Reached(l: Layout, c: Config, f: nat): nat
    requires f <= l.folds
  {
    if f == 0 then l.initialTrain else FoldAt(l, c, f - 1).validationEnd
  }
}
