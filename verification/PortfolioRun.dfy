/** The candidate loop of the portfolio simulation.

    `Book` is the state of the loop, with the accepted (scaled) trades in order of acceptance
    as a history value. `Run` processes candidates in entry order. */
module PortfolioRun {
  import opened Reals
  import opened Positions
  import opened Metrics
  import opened Portfolio

  datatype Inputs = Inputs(
    config: PortfolioRiskConfig,
    startingEquity: real,
    volatility: map<string, real>,
    correlations: map<string, map<string, real>>)

  datatype Book = Book(
    equity: real,
    open: seq<TradePosition>,
    closed: seq<TradePosition>,
    losses: nat,
    tradeTimes: seq<int>,
    accepted: nat,
    rejected: nat,
    entries: seq<TradePosition>)

  function Start(inputs: Inputs): Book {
    Book(inputs.startingEquity, [], [], 0, [], 0, 0, [])
  }

  // ---------------------------------------------------------------- one candidate

  function Due(open: seq<TradePosition>, at: int): seq<TradePosition> {
    if open == [] then []
    else Due(open[..|open| - 1], at) + if open[|open| - 1].exitTime <= at then [open[|open| - 1]] else []
  }

  function Held(open: seq<TradePosition>, at: int): seq<TradePosition> {
    if open == [] then []
    else Held(open[..|open| - 1], at) + if open[|open| - 1].exitTime <= at then [] else [open[|open| - 1]]
  }

  /** The losing streak after closing some trades. */
  function Streak(before: nat, closing: seq<TradePosition>): nat {
    if closing == [] then before
    else if closing[|closing| - 1].netProfit < 0.0 then Streak(before, closing[..|closing| - 1]) + 1 else 0
  }

  function CloseUntil(b: Book, at: int): Book {
    var due := Due(b.open, at);
    b.(equity := b.equity + Net(due), open := Held(b.open, at), closed := b.closed + due, losses := Streak(b.losses, due))
  }

  function Scale(t: TradePosition, m: real): TradePosition {
    t.(quantity := Times(t.quantity, m), grossProfit := Times(t.grossProfit, m), netProfit := Times(t.netProfit, m),
       feeEntry := Times(t.feeEntry, m), feeExit := Times(t.feeExit, m), capitalAtRisk := Times(t.capitalAtRisk, m))
  }

  function Notional(t: TradePosition): real {
    Times(t.entryPrice, t.quantity)
  }

  function PositionsOf(open: seq<TradePosition>): seq<PortfolioPosition> {
    if open == [] then []
    else PositionsOf(open[..|open| - 1]) + [PortfolioPosition(open[|open| - 1].symbol, Notional(open[|open| - 1]))]
  }

  function SnapshotOf(inputs: Inputs, b: Book): Snapshot {
    Snapshot(b.equity, inputs.startingEquity, PositionsOf(b.open), inputs.volatility, inputs.correlations, b.losses, b.tradeTimes)
  }

  /** Drop times from the front while they are before the cutoff. */
  function Prune(times: seq<int>, cutoff: int): seq<int> {
    if times != [] && times[0] < cutoff then Prune(times[1..], cutoff) else times
  }

  function DecisionOn(inputs: Inputs, b: Book, t: TradePosition): Decision {
    var c := CloseUntil(b, t.entryTime);
    Approve(inputs.config, t.symbol, Notional(t), SnapshotOf(inputs, c), t.entryTime)
  }

  function Step(inputs: Inputs, b: Book, t: TradePosition): Book {
    var c := CloseUntil(b, t.entryTime);
    match DecisionOn(inputs, b, t)
    case Rejected(_) => c.(rejected := c.rejected + 1)
    case Approved(m) =>
      c.(open := c.open + [Scale(t, m)],
         tradeTimes := Prune(c.tradeTimes + [t.entryTime], t.entryTime - HOUR),
         accepted := c.accepted + 1,
         entries := c.entries + [Scale(t, m)])
  }

  function Run(inputs: Inputs, candidates: seq<TradePosition>): Book {
    if candidates == [] then Start(inputs)
    else Step(inputs, Run(inputs, candidates[..|candidates| - 1]), candidates[|candidates| - 1])
  }

  /** The last close: `time_point::max()` is at or after every exit. */
  function Finish(b: Book): Book {
    b.(equity := b.equity + Net(b.open), open := [], closed := b.closed + b.open, losses := Streak(b.losses, b.open))
  }

  // ---------------------------------------------------------------- the loops

  method CloseUntilLoop(at: int, open: seq<TradePosition>, accepted: seq<TradePosition>, equity: real, losses: nat)
    returns (open': seq<TradePosition>, accepted': seq<TradePosition>, equity': real, losses': nat)
    ensures open' == Held(open, at) && accepted' == accepted + Due(open, at)
    ensures equity' == equity + Net(Due(open, at)) && losses' == Streak(losses, Due(open, at))
  {
    open', accepted', equity', losses' := open, accepted, equity, losses;
    var it := 0;
    // the part of the original vector already visited
    ghost var seen: seq<TradePosition> := [];
    ghost var rest := open;
    hide Held, Due, Streak, Net;
    NothingSeen(at, losses);
    while it < |open'|
      invariant it <= |open'| && open == seen + rest
      invariant open'[..it] == Held(seen, at) && open'[it..] == rest
      invariant accepted' == accepted + Due(seen, at)
      invariant equity' == equity + Net(Due(seen, at)) && losses' == Streak(losses, Due(seen, at))
      decreases |open'| - it
    {
      var p := open'[it];
      assert p == rest[0] && open == (seen + [p]) + rest[1..];
      OneSeen(seen, p, at, losses);
      if p.exitTime <= at {
        equity' := equity' + p.netProfit;
        losses' := if p.netProfit < 0.0 then losses' + 1 else 0;
        accepted' := accepted' + [p];
        open' := open'[..it] + open'[it + 1..];
      } else {
        it := it + 1;
      }
      seen, rest := seen + [p], rest[1..];
    }
    assert open == seen;
  }

  lemma NothingSeen(at: int, losses: nat)
    ensures Held([], at) == Due([], at) == [] && Net([]) == 0.0 && Streak(losses, []) == losses
  {
  }

  lemma OneSeen(seen: seq<TradePosition>, p: TradePosition, at: int, losses: nat)
    ensures p.exitTime > at ==> Held(seen + [p], at) == Held(seen, at) + [p] && Due(seen + [p], at) == Due(seen, at)
    ensures p.exitTime <= at ==>
              && Held(seen + [p], at) == Held(seen, at) && Due(seen + [p], at) == Due(seen, at) + [p]
              && Net(Due(seen, at) + [p]) == Net(Due(seen, at)) + p.netProfit
              && Streak(losses, Due(seen, at) + [p]) == if p.netProfit < 0.0 then Streak(losses, Due(seen, at)) + 1 else 0
  {
    assert (seen + [p])[..|seen|] == seen;
    NetSnoc(Due(seen, at), p);
    assert (Due(seen, at) + [p])[..|Due(seen, at)|] == Due(seen, at);
  }

  lemma PositionsSnoc(open: seq<TradePosition>, t: TradePosition)
    ensures PositionsOf(open + [t]) == PositionsOf(open) + [PortfolioPosition(t.symbol, Notional(t))]
  {
    var after := open + [t];
    assert after[..|after| - 1] == open && after[|after| - 1] == t;
    assert PositionsOf(after) == PositionsOf(open) + [PortfolioPosition(after[|after| - 1].symbol, Notional(after[|after| - 1]))];
  }

  method BuildPositions(open: seq<TradePosition>) returns (positions: seq<PortfolioPosition>)
    ensures positions == PositionsOf(open)
  {
    positions := [];
    for k := 0 to |open|
      invariant positions == PositionsOf(open[..k])
    {
      PositionsSnoc(open[..k], open[k]);
      assert open[..k + 1] == open[..k] + [open[k]];
      positions := positions + [PortfolioPosition(open[k].symbol, Notional(open[k]))];
    }
    assert open[..|open|] == open;
  }

  /** One iteration of the candidate loop. */
  method ProcessCandidate(inputs: Inputs, b: Book, t: TradePosition) returns (u: Book)
    ensures u == Step(inputs, b, t)
  {
    hide Approve, Held, Due, Streak, Net;
    var open, closed, equity, losses := CloseUntilLoop(t.entryTime, b.open, b.closed, b.equity, b.losses);
    var positions := BuildPositions(open);
    var snapshot := Snapshot(equity, inputs.startingEquity, positions, inputs.volatility, inputs.correlations, losses, b.tradeTimes);
    var proposed := Notional(t);
    var decision := ApproveTrade(inputs.config, t.symbol, proposed, snapshot, t.entryTime);
    assert snapshot == SnapshotOf(inputs, CloseUntil(b, t.entryTime));
    assert decision == DecisionOn(inputs, b, t);
    match decision
    case Rejected(_) =>
      u := Book(equity, open, closed, losses, b.tradeTimes, b.accepted, b.rejected + 1, b.entries);
    case Approved(m) =>
      var scaled := Scale(t, m);
      var times := PruneLoop(b.tradeTimes + [t.entryTime], t.entryTime - HOUR);
      u := Book(equity, open + [scaled], closed, losses, times, b.accepted + 1, b.rejected, b.entries + [scaled]);
  }

  method FilterCandidates(inputs: Inputs, candidates: seq<TradePosition>) returns (book: Book)
    ensures book == Finish(Run(inputs, candidates))
  {
    book := Start(inputs);
    for i := 0 to |candidates|
      invariant book == Run(inputs, candidates[..i])
    {
      book := ProcessCandidate(inputs, book, candidates[i]);
      RunSnoc(inputs, candidates[..i], candidates[i]);
      assert candidates[..i + 1] == candidates[..i] + [candidates[i]];
    }
    assert candidates[..|candidates|] == candidates;
    book := Finish(book);
  }

  lemma RunSnoc(inputs: Inputs, candidates: seq<TradePosition>, t: TradePosition)
    ensures Run(inputs, candidates + [t]) == Step(inputs, Run(inputs, candidates), t)
  {
    hide Step;
    assert (candidates + [t])[..|candidates|] == candidates;
  }

  method PruneLoop(times: seq<int>, cutoff: int) returns (kept: seq<int>)
    ensures kept == Prune(times, cutoff)
  {
    kept := times;
    while kept != [] && kept[0] < cutoff
      invariant Prune(kept, cutoff) == Prune(times, cutoff)
      decreases |kept|
    {
      kept := kept[1..];
    }
  }

  // ---------------------------------------------------------------- conservation

  ghost predicate Accounted(inputs: Inputs, b: Book, candidates: seq<TradePosition>) {
    && b.accepted + b.rejected == |candidates|
    && |b.entries| == b.accepted
    && multiset(b.open) + multiset(b.closed) == multiset(b.entries)
    && b.equity == inputs.startingEquity + Net(b.closed)
  }

  lemma DueOrHeld(front: seq<TradePosition>, p: TradePosition, at: int)
    ensures if p.exitTime <= at then Due(front + [p], at) == Due(front, at) + [p] && Held(front + [p], at) == Held(front, at)
            else Due(front + [p], at) == Due(front, at) && Held(front + [p], at) == Held(front, at) + [p]
  {
    hide Net, Streak;
    OneSeen(front, p, at, 0);
  }

  lemma {:induction false} DueAndHeldSplit(open: seq<TradePosition>, at: int)
    ensures multiset(Due(open, at)) + multiset(Held(open, at)) == multiset(open)
    decreases |open|
  {
    hide Due, Held;
    if open == [] {
      NothingSeen(at, 0);
    } else {
      var n := |open| - 1;
      DueAndHeldSplit(open[..n], at);
      DueOrHeld(open[..n], open[n], at);
      assert open == open[..n] + [open[n]];
      assert multiset(open) == multiset(open[..n]) + multiset{open[n]};
    }
  }

  lemma StepAccounted(inputs: Inputs, b: Book, candidates: seq<TradePosition>, t: TradePosition)
    requires Accounted(inputs, b, candidates)
    ensures Accounted(inputs, Step(inputs, b, t), candidates + [t])
  {
    hide Approve, Due, Held, Net, Streak;
    DueAndHeldSplit(b.open, t.entryTime);
    NetConcat(b.closed, Due(b.open, t.entryTime));
  }

  lemma {:induction false} RunAccounted(inputs: Inputs, candidates: seq<TradePosition>)
    ensures Accounted(inputs, Run(inputs, candidates), candidates)
  {
    hide Step;
    if candidates != [] {
      var n := |candidates| - 1;
      RunAccounted(inputs, candidates[..n]);
      StepAccounted(inputs, Run(inputs, candidates[..n]), candidates[..n], candidates[n]);
      assert candidates == candidates[..n] + [candidates[n]];
    }
  }

  /** At the end every candidate was accepted or rejected, every accepted trade was closed
      exactly once, and equity is the start plus the summed net profit of what was accepted. */
  lemma Conservation(inputs: Inputs, candidates: seq<TradePosition>)
    ensures var b := Finish(Run(inputs, candidates));
            && b.accepted + b.rejected == |candidates|
            && b.open == [] && |b.entries| == b.accepted
            && multiset(b.closed) == multiset(b.entries)
            && b.equity == inputs.startingEquity + Net(b.closed) == inputs.startingEquity + Net(b.entries)
  {
    RunAccounted(inputs, candidates);
    var b := Run(inputs, candidates);
    NetConcat(b.closed, b.open);
    NetOfPermutation(b.closed + b.open, b.entries);
  }

  /** The filtered metrics, computed on the accepted trades in any exit order, report exactly
      the change of equity. */
  method FilteredMetrics(inputs: Inputs, candidates: seq<TradePosition>, byExit: seq<TradePosition>) returns (m: BacktestMetrics)
    requires multiset(byExit) == multiset(Finish(Run(inputs, candidates)).closed)
    ensures m.netProfit == Finish(Run(inputs, candidates)).equity - inputs.startingEquity
    ensures m.trades == Finish(Run(inputs, candidates)).accepted
  {
    Conservation(inputs, candidates);
    NetOfPermutation(byExit, Finish(Run(inputs, candidates)).closed);
    assert |byExit| == |multiset(byExit)| == |Finish(Run(inputs, candidates)).closed|;
    assert |multiset(Finish(Run(inputs, candidates)).entries)| == |byExit|;
    m := Calculate(byExit);
  }

  // ---------------------------------------------------------------- sliding window

  function EntryTimes(entries: seq<TradePosition>): seq<int> {
    if entries == [] then [] else EntryTimes(entries[..|entries| - 1]) + [entries[|entries| - 1].entryTime]
  }

  /** How many times lie in the closed interval. */
  function CountBetween(times: seq<int>, from: int, to: int): nat {
    if times == [] then 0
    else CountBetween(times[..|times| - 1], from, to) + if from <= times[|times| - 1] <= to then 1 else 0
  }

  /** Acceptances in the closed hour that starts at `from`. */
  function CountInHour(times: seq<int>, from: int): nat {
    CountBetween(times, from, from + HOUR)
  }

  ghost predicate AllBefore(times: seq<int>, cutoff: int) {
    forall i | 0 <= i < |times| :: times[i] < cutoff
  }

  predicate InEntryOrder(candidates: seq<TradePosition>) {
    forall i, j | 0 <= i < j < |candidates| :: candidates[i].entryTime <= candidates[j].entryTime
  }

  lemma {:induction false} CountsCompare(times: seq<int>, from: int, to: int, cutoff: int)
    requires cutoff <= from
    ensures CountBetween(times, from, to) <= CountSince(times, cutoff)
  {
    if times != [] {
      CountsCompare(times[..|times| - 1], from, to, cutoff);
    }
  }

  lemma {:induction false} CountSinceConcat(a: seq<int>, b: seq<int>, cutoff: int)
    ensures CountSince(a + b, cutoff) == CountSince(a, cutoff) + CountSince(b, cutoff)
    decreases |b|
  {
    if b == [] {
      assert a + b == a;
    } else {
      CountSinceConcat(a, b[..|b| - 1], cutoff);
      assert (a + b)[..|a + b| - 1] == a + b[..|b| - 1];
    }
  }

  lemma {:induction false} OldTimesDoNotCount(times: seq<int>, cutoff: int)
    requires AllBefore(times, cutoff)
    ensures CountSince(times, cutoff) == 0
  {
    if times != [] {
      OldTimesDoNotCount(times[..|times| - 1], cutoff);
    }
  }

  lemma {:induction false} PruneDropsOld(times: seq<int>, cutoff: int) returns (dropped: seq<int>)
    ensures times == dropped + Prune(times, cutoff)
    ensures AllBefore(dropped, cutoff)
  {
    dropped := [];
    if times != [] && times[0] < cutoff {
      var rest := PruneDropsOld(times[1..], cutoff);
      dropped := [times[0]] + rest;
    }
  }

  /** The deque is the recent part of the full history, what it dropped is more than an hour
      older than the last acceptance, and no closed hour holds too many acceptances. */
  ghost predicate WindowInv(inputs: Inputs, b: Book, now: int) {
    var all := EntryTimes(b.entries);
    && (forall t | t in all :: t <= now)
    && (exists dropped :: all == dropped + b.tradeTimes && AllBefore(dropped, now - HOUR))
    && (forall from :: CountInHour(all, from) <= inputs.config.maxTradesPerHour)
  }

  lemma SameCount(inputs: Inputs, b: Book, earlier: int, now: int)
    requires WindowInv(inputs, b, earlier) && earlier <= now
    ensures CountSince(b.tradeTimes, now - HOUR) == CountSince(EntryTimes(b.entries), now - HOUR)
  {
    var dropped :| EntryTimes(b.entries) == dropped + b.tradeTimes && AllBefore(dropped, earlier - HOUR);
    CountSinceConcat(dropped, b.tradeTimes, now - HOUR);
    OldTimesDoNotCount(dropped, now - HOUR);
  }

  lemma WindowStillHolds(inputs: Inputs, b: Book, earlier: int, now: int)
    requires WindowInv(inputs, b, earlier) && earlier <= now
    ensures WindowInv(inputs, b, now)
  {
    var all := EntryTimes(b.entries);
    var dropped :| all == dropped + b.tradeTimes && AllBefore(dropped, earlier - HOUR);
    assert AllBefore(dropped, now - HOUR);
  }

  lemma EntryTimesSnoc(entries: seq<TradePosition>, t: TradePosition)
    ensures EntryTimes(entries + [t]) == EntryTimes(entries) + [t.entryTime]
  {
    assert (entries + [t])[..|entries|] == entries;
  }

  lemma OneMoreInHour(all: seq<int>, now: int, from: int, limit: nat)
    requires forall t | t in all :: t <= now
    requires CountInHour(all, from) <= limit && CountSince(all, now - HOUR) < limit
    ensures CountInHour(all + [now], from) <= limit
  {
    assert (all + [now])[..|all|] == all;
    if from <= now <= from + HOUR {
      CountsCompare(all, from, from + HOUR, now - HOUR);
    }
  }

  lemma AcceptKeepsWindow(inputs: Inputs, b: Book, now: int, t: TradePosition, u: Book)
    requires WindowInv(inputs, b, now) && t.entryTime == now
    requires CountSince(EntryTimes(b.entries), now - HOUR) < inputs.config.maxTradesPerHour
    requires u.entries == b.entries + [t] && u.tradeTimes == Prune(b.tradeTimes + [now], now - HOUR)
    ensures WindowInv(inputs, u, now)
  {
    hide Prune, EntryTimes, CountInHour, CountSince;
    var all := EntryTimes(b.entries);
    EntryTimesSnoc(b.entries, t);
    var after := EntryTimes(u.entries);
    forall from ensures CountInHour(after, from) <= inputs.config.maxTradesPerHour {
      OneMoreInHour(all, now, from, inputs.config.maxTradesPerHour);
    }
    var dropped :| all == dropped + b.tradeTimes && AllBefore(dropped, now - HOUR);
    var more := PruneDropsOld(b.tradeTimes + [now], now - HOUR);
    assert b.tradeTimes + [now] == more + u.tradeTimes;
    assert after == dropped + (b.tradeTimes + [now]) == (dropped + more) + u.tradeTimes;
  }

  lemma {:induction false} RunKeepsWindow(inputs: Inputs, candidates: seq<TradePosition>, now: int)
    requires InEntryOrder(candidates)
    requires candidates != [] ==> candidates[|candidates| - 1].entryTime <= now
    ensures WindowInv(inputs, Run(inputs, candidates), now)
    decreases |candidates|
  {
    if candidates == [] {
      assert EntryTimes(Run(inputs, candidates).entries) == [] + Run(inputs, candidates).tradeTimes;
    } else {
      var n := |candidates| - 1;
      var t := candidates[n];
      RunKeepsWindow(inputs, candidates[..n], t.entryTime);
      StepKeepsWindow(inputs, Run(inputs, candidates[..n]), t);
      WindowStillHolds(inputs, Run(inputs, candidates), t.entryTime, now);
    }
  }

  lemma StepKeepsWindow(inputs: Inputs, b: Book, t: TradePosition)
    requires WindowInv(inputs, b, t.entryTime)
    ensures WindowInv(inputs, Step(inputs, b, t), t.entryTime)
  {
    var c := CloseUntil(b, t.entryTime);
    SameCount(inputs, b, t.entryTime, t.entryTime);
    match DecisionOn(inputs, b, t)
    case Rejected(_) =>
    case Approved(m) =>
      AcceptKeepsWindow(inputs, b, t.entryTime, Scale(t, m), Step(inputs, b, t));
  }

  /** With candidates in entry order, every closed hour contains at most the configured
      number of accepted entries. */
  lemma HourlyLimit(inputs: Inputs, candidates: seq<TradePosition>, from: int)
    requires InEntryOrder(candidates)
    ensures CountInHour(EntryTimes(Run(inputs, candidates).entries), from) <= inputs.config.maxTradesPerHour
  {
    RunKeepsWindow(inputs, candidates, if candidates == [] then 0 else candidates[|candidates| - 1].entryTime);
  }

  /** Pruning the deque never changes a decision: the next candidate is judged as if every
      earlier acceptance were still remembered. */
  lemma PruningIsInvisible(inputs: Inputs, candidates: seq<TradePosition>, t: TradePosition)
    requires InEntryOrder(candidates + [t])
    ensures var b := Run(inputs, candidates);
            DecisionOn(inputs, b, t) == DecisionOn(inputs, b.(tradeTimes := EntryTimes(b.entries)), t)
  {
    hide Approve, Run, CountSince, EntryTimes;
    assert forall i | 0 <= i < |candidates| :: (candidates + [t])[i] == candidates[i];
    assert (candidates + [t])[|candidates|] == t;
    RunKeepsWindow(inputs, candidates, t.entryTime);
    var b := Run(inputs, candidates);
    SameCount(inputs, b, t.entryTime, t.entryTime);
    hide WindowInv;
    var c := CloseUntil(b, t.entryTime);
    SameVerdict(inputs.config, t.symbol, Notional(t), SnapshotOf(inputs, c), EntryTimes(b.entries), t.entryTime);
  }

  lemma SameVerdict(config: PortfolioRiskConfig, symbol: string, proposed: real, s: Snapshot, times: seq<int>, now: int)
    requires CountSince(s.tradeTimes, now - HOUR) == CountSince(times, now - HOUR)
    ensures Approve(config, symbol, proposed, s, now) == Approve(config, symbol, proposed, s.(tradeTimes := times), now)
  {
  }

  // ---------------------------------------------------------------- exposure

  function ExposureInBook(limit: Limit, inputs: Inputs, b: Book, symbol: string): real
    requires b.equity > 0.0
  {
    Exposure(limit, PositionsOf(b.open), b.equity, inputs.correlations, inputs.config.correlationThreshold, symbol)
  }

  lemma {:induction false} ExposureIsNonNegative(limit: Limit, positions: seq<PortfolioPosition>, equity: real,
                                                 correlations: map<string, map<string, real>>, threshold: real, symbol: string)
    requires equity > 0.0
    ensures Exposure(limit, positions, equity, correlations, threshold, symbol) >= 0.0
  {
    if positions != [] {
      ExposureIsNonNegative(limit, positions[..|positions| - 1], equity, correlations, threshold, symbol);
    }
  }

  /** The caps are tested on the unscaled size and the multiplier is applied afterwards, so
      right after an acceptance each exposure is bounded by its cap times the multiplier when
      that exceeds 1, and by the cap itself otherwise. */
  lemma ExposureAfterAcceptance(inputs: Inputs, b: Book, t: TradePosition, limit: Limit)
    requires DecisionOn(inputs, b, t).Approved?
    ensures var u := Step(inputs, b, t);
            && u.equity > 0.0
            && ExposureInBook(limit, inputs, u, t.symbol)
               <= Times(CapOf(inputs.config, limit), Max(1.0, Abs(DecisionOn(inputs, b, t).multiplier)))
  {
    hide Approve, Exposure, Due, Held, Net, Streak, Scale, Abs, Prune;
    var c := CloseUntil(b, t.entryTime);
    var u := Step(inputs, b, t);
    var m := DecisionOn(inputs, b, t).multiplier;
    WithinCaps(inputs.config, t.symbol, Notional(t), SnapshotOf(inputs, c), t.entryTime, limit);
    ExposureIsNonNegative(limit, PositionsOf(c.open), c.equity, inputs.correlations, inputs.config.correlationThreshold, t.symbol);
    ScaledNotional(t, m, c.equity);
    AddedPosition(limit, inputs, c, u, Scale(t, m), t.symbol);
    var before, fraction := ExposureInBook(limit, inputs, c, t.symbol), Notional(t) / c.equity;
    AbsIsNonNegative(m);
    Stretch(before, fraction, Abs(m), CapOf(inputs.config, limit));
  }

  lemma AbsIsNonNegative(m: real)
    ensures Abs(m) >= 0.0
  {
  }

  lemma WithinCaps(config: PortfolioRiskConfig, symbol: string, proposed: real, s: Snapshot, now: int, limit: Limit)
    requires Approve(config, symbol, proposed, s, now).Approved?
    ensures s.equity > 0.0 && proposed > 0.0
    ensures ExposureOf(limit, s, config, symbol) + proposed / s.equity <= CapOf(config, limit)
  {
  }

  lemma ScaledNotional(t: TradePosition, m: real, equity: real)
    requires equity > 0.0 && Notional(t) > 0.0
    ensures Abs(Notional(Scale(t, m))) / equity == Times(Abs(m), Notional(t) / equity)
  {
    hide Times, Abs, Notional, Scale;
    NotionalScales(t, m);
    AbsTimes(Notional(t), m);
    TimesDivided(Abs(m), Notional(t), equity);
  }

  lemma NotionalScales(t: TradePosition, m: real)
    ensures Notional(Scale(t, m)) == Times(Notional(t), m)
  {
    hide Times;
    TimesReorder(t.entryPrice, t.quantity, m);
  }

  lemma AddedPosition(limit: Limit, inputs: Inputs, c: Book, u: Book, added: TradePosition, symbol: string)
    requires c.equity > 0.0 && u.equity == c.equity && u.open == c.open + [added]
    ensures var share := Abs(Notional(added)) / c.equity;
            var before, after := ExposureInBook(limit, inputs, c, symbol), ExposureInBook(limit, inputs, u, symbol);
            before <= after <= before + share
  {
    assert u.open[..|c.open|] == c.open;
    var positions := PositionsOf(u.open);
    assert positions[..|PositionsOf(c.open)|] == PositionsOf(c.open);
  }

  lemma Stretch(before: real, fraction: real, m: real, cap: real)
    requires before >= 0.0 && fraction >= 0.0 && m >= 0.0 && before + fraction <= cap
    ensures before + Times(m, fraction) <= Times(cap, Max(1.0, m))
  {
    hide Times;
    var k := Max(1.0, m);
    TimesUnit(before);
    TimesUp(1.0, k, before);
    TimesUp(m, k, fraction);
    TimesUp(before + fraction, cap, k);
    TimesSum(before, fraction, k);
    TimesReorder(m, fraction, 1.0);
  }

  /** No accepted trade ever leaves an exposure above its cap. */
  ghost predicate CapsAlwaysHold(config: PortfolioRiskConfig) {
    forall inputs: Inputs, b: Book, t: TradePosition, limit: Limit
      | inputs.config == config && DecisionOn(inputs, b, t).Approved? && Step(inputs, b, t).equity > 0.0 ::
      ExposureInBook(limit, inputs, Step(inputs, b, t), t.symbol) <= CapOf(config, limit)
  }

  /** A configuration under which trades can be accepted and sized by volatility. */
  predicate Operative(config: PortfolioRiskConfig) {
    && config.maxGrossExposure > 0.0 && config.maxAssetExposure > 0.0 && config.maxCorrelatedExposure > 0.0
    && config.maxDailyDrawdown > 0.0 && config.maxConsecutiveLosses > 0 && config.maxTradesPerHour > 0
    && config.targetVolatility > 0.0
    && 0.0 <= config.minimumSizeMultiplier <= config.maximumSizeMultiplier
  }

  /** The documented caps hold exactly when the size multiplier cannot exceed 1; the default
      maximum of 1.5 lets an accepted trade overshoot. */
  lemma CapsHoldIffMultiplierAtMostOne(config: PortfolioRiskConfig)
    requires Operative(config)
    ensures CapsAlwaysHold(config) <==> config.maximumSizeMultiplier <= 1.0
  {
    if config.maximumSizeMultiplier <= 1.0 {
      forall inputs: Inputs, b: Book, t: TradePosition, limit: Limit
        | inputs.config == config && DecisionOn(inputs, b, t).Approved? && Step(inputs, b, t).equity > 0.0
        ensures ExposureInBook(limit, inputs, Step(inputs, b, t), t.symbol) <= CapOf(config, limit)
      {
        ExposureAfterAcceptance(inputs, b, t, limit);
        MultiplierBounds(config, SnapshotOf(inputs, CloseUntil(b, t.entryTime)), t.symbol);
        hide Step, ExposureInBook;
      }
    } else if config.correlationThreshold <= 1.0 {
      var inputs, t, limit := Overshoot(config);
      var b := Start(inputs);
      assert ExposureInBook(limit, inputs, Step(inputs, b, t), t.symbol) > CapOf(config, limit);
    } else {
      var inputs, b, t, limit := OvershootUncorrelated(config);
      assert ExposureInBook(limit, inputs, Step(inputs, b, t), t.symbol) > CapOf(config, limit);
    }
  }

  lemma MultiplierBounds(config: PortfolioRiskConfig, s: Snapshot, symbol: string)
    requires config.minimumSizeMultiplier <= config.maximumSizeMultiplier
    ensures config.minimumSizeMultiplier <= Multiplier(config, s, symbol) <= config.maximumSizeMultiplier
  {
  }

  function TightestCap(config: PortfolioRiskConfig): (limit: Limit)
    ensures forall other: Limit :: CapOf(config, limit) <= CapOf(config, other)
  {
    if config.maxGrossExposure <= config.maxAssetExposure && config.maxGrossExposure <= config.maxCorrelatedExposure then Gross
    else if config.maxAssetExposure <= config.maxCorrelatedExposure then SameAsset else Correlated
  }

  /** An asset calmer than the target, and perfectly correlated with itself. */
  function OvershootInputs(config: PortfolioRiskConfig): Inputs
    requires Operative(config) && config.maximumSizeMultiplier > 1.0
  {
    Inputs(config, 1.0, map["A" := config.targetVolatility / config.maximumSizeMultiplier], map["A" := map["A" := 1.0]])
  }

  /** A trade in it from time 0. */
  function TradeInA(notional: real, exitTime: int): TradePosition {
    TradePosition("A", 0, exitTime, 1.0, 1.0, notional, 1.0, 1.0, 1.0, 1.0, 0.0, 0.0, 0.0, 0.0, 0.0, "")
  }

  /** A first trade that uses the tightest cap fully. */
  function OvershootTrade(config: PortfolioRiskConfig): TradePosition {
    TradeInA(CapOf(config, TightestCap(config)), 0)
  }

  lemma OvershootIsApproved(config: PortfolioRiskConfig)
    requires Operative(config) && config.maximumSizeMultiplier > 1.0
    ensures var inputs, t := OvershootInputs(config), OvershootTrade(config);
            && CloseUntil(Start(inputs), 0) == Start(inputs)
            && Notional(t) == CapOf(config, TightestCap(config)) > 0.0
            && DecisionOn(inputs, Start(inputs), t) == Approved(config.maximumSizeMultiplier)
  {
    var inputs, t := OvershootInputs(config), OvershootTrade(config);
    var b := Start(inputs);
    var s := SnapshotOf(inputs, b);
    assert CloseUntil(b, 0) == b;
    assert Multiplier(config, s, "A") == config.maximumSizeMultiplier by {
      Inverse(config.targetVolatility, config.maximumSizeMultiplier);
    }
    assert forall other: Limit :: ExposureOf(other, s, config, "A") == 0.0;
    assert Notional(t) / 1.0 == CapOf(config, TightestCap(config));
    assert CountSince([], 0 - HOUR) == 0;
  }

  /** A first trade that overshoots, whenever a correlation can reach the threshold. */
  lemma Overshoot(config: PortfolioRiskConfig) returns (inputs: Inputs, t: TradePosition, limit: Limit)
    requires Operative(config) && config.maximumSizeMultiplier > 1.0 && config.correlationThreshold <= 1.0
    ensures inputs.config == config
    ensures var b := Start(inputs);
            && DecisionOn(inputs, b, t).Approved? && Step(inputs, b, t).equity > 0.0
            && ExposureInBook(limit, inputs, Step(inputs, b, t), t.symbol) > CapOf(config, limit)
  {
    hide DecisionOn, CloseUntil, CapOf, TightestCap, ExposureInBook, Notional;
    limit := TightestCap(config);
    var max := config.maximumSizeMultiplier;
    inputs, t := OvershootInputs(config), OvershootTrade(config);
    OvershootIsApproved(config);
    var u := Step(inputs, Start(inputs), t);
    var scaled := Scale(t, max);
    assert u.open == [scaled] && u.equity == 1.0;
    Exceeds(t, max);
    FirstPosition(limit, inputs, u, scaled);
    assert t.symbol == "A";
    assert ExposureInBook(limit, inputs, u, t.symbol) == Notional(scaled) > CapOf(config, limit);
  }

  /** With a threshold that no correlation reaches, one trade may not be able to fill the
      tighter of the other two caps; the last one that fits under it overshoots. */
  lemma OvershootUncorrelated(config: PortfolioRiskConfig) returns (inputs: Inputs, b: Book, t: TradePosition, limit: Limit)
    requires Operative(config) && config.maximumSizeMultiplier > 1.0 && config.correlationThreshold > 1.0
    ensures inputs.config == config
    ensures DecisionOn(inputs, b, t).Approved? && Step(inputs, b, t).equity > 0.0
    ensures ExposureInBook(limit, inputs, Step(inputs, b, t), t.symbol) > CapOf(config, limit)
  {
    hide DecisionOn, CloseUntil, ExposureInBook, Notional, Scale;
    limit := if config.maxGrossExposure <= config.maxAssetExposure then Gross else SameAsset;
    var cap, max := CapOf(config, limit), config.maximumSizeMultiplier;
    var fraction := if cap <= config.maxCorrelatedExposure then cap else config.maxCorrelatedExposure;
    inputs, t := OvershootInputs(config), TradeInA(fraction, 0);
    var held := TradeInA(cap - fraction, 1);
    b := Start(inputs).(open := [held]);
    LastFitIsApproved(config, b, cap - fraction, fraction);
    var u := Step(inputs, b, t);
    assert u.open == [held] + [Scale(t, max)] && u.equity == 1.0;
    NotionalInA(cap - fraction, 1);
    NotionalInA(fraction, 0);
    Exceeds(t, max);
    assert Scale(t, max).symbol == "A" by { ScaleKeepsSymbol(t, max); }
    TwoPositions(limit, inputs, u, held, Scale(t, max));
  }

  lemma ScaleKeepsSymbol(t: TradePosition, m: real)
    ensures Scale(t, m).symbol == t.symbol
  {
  }

  lemma NotionalInA(notional: real, exitTime: int)
    ensures Notional(TradeInA(notional, exitTime)) == notional
  {
  }

  lemma ExposureSnoc(limit: Limit, positions: seq<PortfolioPosition>, last: PortfolioPosition, equity: real,
                     correlations: map<string, map<string, real>>, threshold: real, symbol: string)
    requires equity > 0.0
    ensures Exposure(limit, positions + [last], equity, correlations, threshold, symbol)
         == Exposure(limit, positions, equity, correlations, threshold, symbol)
            + if Counts(limit, correlations, threshold, symbol, last.symbol) then Abs(last.notional) / equity else 0.0
  {
    assert (positions + [last])[..|positions|] == positions;
  }

  /** Positions in A, which correlates with nothing. */
  lemma ExposureOfOne(limit: Limit, inputs: Inputs, held: TradePosition)
    requires held.symbol == "A" && Notional(held) >= 0.0 && PositionsOf([held]) == [PortfolioPosition("A", Notional(held))]
    requires !IsCorrelated(inputs.correlations, inputs.config.correlationThreshold, "A", "A")
    ensures Exposure(limit, PositionsOf([held]), 1.0, inputs.correlations, inputs.config.correlationThreshold, "A")
         == if limit == Correlated then 0.0 else Notional(held)
  {
    ExposureSnoc(limit, [], PortfolioPosition("A", Notional(held)), 1.0, inputs.correlations, inputs.config.correlationThreshold, "A");
    assert [] + [PortfolioPosition("A", Notional(held))] == [PortfolioPosition("A", Notional(held))];
  }

  lemma PositionsOfOne(held: TradePosition)
    ensures PositionsOf([held]) == [PortfolioPosition(held.symbol, Notional(held))]
  {
    PositionsSnoc([], held);
    assert [] + [held] == [held];
  }

  lemma TwoPositions(limit: Limit, inputs: Inputs, u: Book, held: TradePosition, added: TradePosition)
    requires u.equity == 1.0 && u.open == [held] + [added] && held.symbol == added.symbol == "A"
    requires Notional(held) >= 0.0 && Notional(added) >= 0.0 && limit != Correlated
    requires !IsCorrelated(inputs.correlations, inputs.config.correlationThreshold, "A", "A")
    ensures ExposureInBook(limit, inputs, u, "A") == Notional(held) + Notional(added)
  {
    hide Notional, PositionsOf, Exposure;
    PositionsOfOne(held);
    PositionsSnoc([held], added);
    ExposureOfOne(limit, inputs, held);
    ExposureSnoc(limit, PositionsOf([held]), PortfolioPosition("A", Notional(added)), 1.0,
                 inputs.correlations, inputs.config.correlationThreshold, "A");
  }

  lemma LastFitIsApproved(config: PortfolioRiskConfig, b: Book, before: real, fraction: real)
    requires Operative(config) && config.maximumSizeMultiplier > 1.0 && config.correlationThreshold > 1.0
    requires b == Start(OvershootInputs(config)).(open := [TradeInA(before, 1)])
    requires before >= 0.0 && 0.0 < fraction <= config.maxCorrelatedExposure
    requires before + fraction <= config.maxGrossExposure && before + fraction <= config.maxAssetExposure
    ensures CloseUntil(b, 0) == b
    ensures DecisionOn(OvershootInputs(config), b, TradeInA(fraction, 0)) == Approved(config.maximumSizeMultiplier)
  {
    hide PositionsOf, Exposure, Notional;
    var inputs, held := OvershootInputs(config), TradeInA(before, 1);
    var s := SnapshotOf(inputs, b);
    NothingDue(b, held);
    NotionalInA(before, 1);
    NotionalInA(fraction, 0);
    Inverse(config.targetVolatility, config.maximumSizeMultiplier);
    PositionsOfOne(held);
    ExposureOfOne(Gross, inputs, held);
    ExposureOfOne(SameAsset, inputs, held);
    ExposureOfOne(Correlated, inputs, held);
    assert fraction / 1.0 == fraction;
  }

  lemma NothingDue(b: Book, held: TradePosition)
    requires b.open == [held] && held.exitTime > 0
    ensures CloseUntil(b, 0) == b
  {
    assert [held][..0] == [];
    assert Due([held], 0) == [] && Held([held], 0) == [held];
    assert b.closed + [] == b.closed;
  }

  lemma Exceeds(t: TradePosition, m: real)
    requires Notional(t) > 0.0 && m > 1.0
    ensures Notional(Scale(t, m)) > Notional(t)
  {
    hide Notional, Times, Scale;
    NotionalScales(t, m);
    TimesUpStrictly(1.0, m, Notional(t));
    TimesUnit(Notional(t));
  }

  lemma Inverse(target: real, max: real)
    requires target > 0.0 && max > 0.0
    ensures target / max > 0.0 && target / (target / max) == max
  {
    var v := target / max;
    assert v * max == target;
  }

  lemma FirstPosition(limit: Limit, inputs: Inputs, u: Book, added: TradePosition)
    requires u.equity == 1.0 && u.open == [added] && added.symbol == "A" && Notional(added) >= 0.0
    requires IsCorrelated(inputs.correlations, inputs.config.correlationThreshold, "A", "A")
    ensures ExposureInBook(limit, inputs, u, "A") == Notional(added)
  {
    PositionsSnoc([], added);
    assert u.open == [] + [added];
    var positions := PositionsOf(u.open);
    assert positions == [PortfolioPosition("A", Notional(added))];
    var none: seq<PortfolioPosition> := [];
    assert positions[..|positions| - 1] == none;
    assert Exposure(limit, none, 1.0, inputs.correlations, inputs.config.correlationThreshold, "A") == 0.0;
    assert Counts(limit, inputs.correlations, inputs.config.correlationThreshold, "A", "A");
    assert Abs(Notional(added)) / 1.0 == Notional(added);
  }
}
