/** The trailing stop: exactly when it is a ratchet, on paths of quotes and in runs of the engine. */
module TrailingStop {
  import opened Reals
  import opened RiskManager
  import opened TradeEngine
  import opened TradeEngineRun

  /** On this path of quotes, which keeps the position open, the last quote does not lower the stop. */
  ghost predicate KeepsStop(c: RiskConfig, entry: real, seen: seq<Quote>) {
    entry > 0.0 && seen != [] && (forall k | 0 <= k < |seen| :: HoldsAt(c, entry, seen, k)) ==>
      StopAfter(c, entry, seen[..|seen| - 1]) <= StopAfter(c, entry, seen)
  }

  predicate RatchetCondition(c: RiskConfig) {
    !c.trailing || (c.trail <= c.stopLoss && c.trail <= 1.0)
  }

  lemma StopRises(c: RiskConfig, entry: real, low: real, high: real)
    requires RatchetCondition(c) && 0.0 < entry <= low <= high
    ensures StopAt(c, entry, low) <= StopAt(c, entry, high)
  {
    hide Times;
    if c.trailing && high > entry {
      TimesUp(low, high, 1.0 - c.trail);
      TimesUp(1.0 - c.stopLoss, 1.0 - c.trail, entry);
    }
  }

  lemma RatchetHolds(c: RiskConfig, entry: real, seen: seq<Quote>)
    requires RatchetCondition(c)
    ensures KeepsStop(c, entry, seen)
  {
    if entry > 0.0 && seen != [] {
      TopAndBottomAreExtremes(entry, seen[..|seen| - 1]);
      StopRises(c, entry, Top(entry, seen[..|seen| - 1]), Top(entry, seen));
    }
  }

  // ---------------------------------------------------------------- paths on which the stop falls

  /** A path from any entry on which the last of the quotes, all at one time, lowers the stop. */
  ghost predicate Lowers(c: RiskConfig, entry: real, seen: seq<Quote>, now: int) {
    && !KeepsStop(c, entry, seen)
    && 1 <= |seen| <= 2 && forall q | q in seen :: q.time == now && q.price > entry
  }

  lemma TopOfOne(entry: real, q: Quote)
    ensures Top(entry, [q]) == Max(entry, q.price) && Top(entry, []) == entry
    ensures [q][..0] == [] && [q][..1] == [q]
  {
    assert [q][..0] == [];
  }

  lemma TopOfTwo(entry: real, q: Quote, r: Quote)
    ensures [q, r][..1] == [q] && [q, r][..2] == [q, r]
    ensures Top(entry, [q, r]) == Max(Top(entry, [q]), r.price)
  {
    assert [q, r][..1] == [q];
  }

  /** A price above the entry and below the take-profit price, which stays above the stop it
      draws behind it. */
  lemma RiseHolds(c: RiskConfig, entry: real, x: real)
    requires ValidConfig(c) && c.trail > 0.0 && entry > 0.0 && 0.0 < x < c.takeProfit
    ensures entry < Times(entry, 1.0 + x) < Times(entry, 1.0 + c.takeProfit)
    ensures Times(Times(entry, 1.0 + x), 1.0 - c.trail) < Times(entry, 1.0 + x)
  {
    TimesUnit(entry);
    TimesUnit(Times(entry, 1.0 + x));
    TimesUpStrictly(1.0, 1.0 + x, entry);
    TimesUpStrictly(1.0 + x, 1.0 + c.takeProfit, entry);
    hide Times;
    TimesUpStrictly(1.0 - c.trail, 1.0, Times(entry, 1.0 + x));
  }

  /** A small rise draws the stop below where it was, if the trail is longer than the first
      stop distance. */
  lemma SmallRise(c: RiskConfig, entry: real, x: real)
    requires entry > 0.0 && c.trail <= 1.0 && 0.0 < x && x < c.trail - c.stopLoss && c.trail > 0.0
    ensures Times(Times(entry, 1.0 + x), 1.0 - c.trail) < Times(entry, 1.0 - c.stopLoss)
  {
    hide Times;
    TimesReorder(entry, 1.0 + x, 1.0 - c.trail);
    TimesSum(1.0, x, 1.0 - c.trail);
    TimesUnit(1.0 - c.trail);
    TimesUnit(x);
    TimesUp(1.0 - c.trail, 1.0, x);
    TimesUpStrictly(Times(1.0 + x, 1.0 - c.trail), 1.0 - c.stopLoss, entry);
  }

  /** A trail longer than the first stop distance: the first rise lowers the stop. */
  lemma FirstRiseLowersStop(c: RiskConfig, entry: real, now: int) returns (seen: seq<Quote>)
    requires ValidConfig(c) && c.trailing && c.stopLoss < c.trail <= 1.0 && entry > 0.0
    ensures Lowers(c, entry, seen, now)
  {
    hide Times;
    var x := if c.takeProfit < c.trail - c.stopLoss then c.takeProfit / 2.0 else (c.trail - c.stopLoss) / 2.0;
    var q := Quote(Times(entry, 1.0 + x), now);
    seen := [q];
    TopOfOne(entry, q);
    RiseHolds(c, entry, x);
    SmallRise(c, entry, x);
    assert HoldsAt(c, entry, seen, 0);
    assert forall k | 0 <= k < |seen| :: HoldsAt(c, entry, seen, k);
  }

  /** A trail of more than the whole price: every rise lowers the stop. */
  lemma EveryRiseLowersStop(c: RiskConfig, entry: real, now: int) returns (seen: seq<Quote>)
    requires ValidConfig(c) && c.trailing && c.trail > 1.0 && entry > 0.0
    ensures Lowers(c, entry, seen, now)
  {
    hide Times;
    var q, r := Quote(Times(entry, 1.0 + c.takeProfit / 3.0), now), Quote(Times(entry, 1.0 + c.takeProfit / 2.0), now);
    seen := [q, r];
    TopOfOne(entry, q);
    TopOfTwo(entry, q, r);
    RiseHolds(c, entry, c.takeProfit / 3.0);
    RiseHolds(c, entry, c.takeProfit / 2.0);
    TimesUpStrictly(1.0 + c.takeProfit / 3.0, 1.0 + c.takeProfit / 2.0, entry);
    TimesUpStrictly(q.price, r.price, c.trail - 1.0);
    Opposite(q.price, c.trail);
    Opposite(r.price, c.trail);
    assert HoldsAt(c, entry, seen, 0);
    assert HoldsAt(c, entry, seen, 1);
    assert forall k | 0 <= k < |seen| :: HoldsAt(c, entry, seen, k);
  }

  lemma Opposite(price: real, trail: real)
    ensures Times(price, trail - 1.0) == -Times(price, 1.0 - trail)
  {
  }

  /** Without the condition some path lowers the stop, whatever the entry. */
  lemma SomeRiseLowersStop(c: RiskConfig, entry: real, now: int) returns (seen: seq<Quote>)
    requires ValidConfig(c) && !RatchetCondition(c) && entry > 0.0
    ensures Lowers(c, entry, seen, now)
  {
    hide Lowers;
    if c.trail > 1.0 { seen := EveryRiseLowersStop(c, entry, now); } else { seen := FirstRiseLowersStop(c, entry, now); }
  }

  /** The stop is a ratchet exactly when trailing is off, or the trail is at most the stop-loss
      distance and at most the whole price. The loader checks neither. */
  lemma RatchetExactly(c: RiskConfig)
    requires ValidConfig(c)
    ensures RatchetCondition(c) <==> forall entry, seen :: KeepsStop(c, entry, seen)
  {
    hide KeepsStop;
    if RatchetCondition(c) {
      forall entry, seen ensures KeepsStop(c, entry, seen) { RatchetHolds(c, entry, seen); }
    } else {
      var seen := SomeRiseLowersStop(c, 1.0, 0);
    }
  }

  // ---------------------------------------------------------------- runs

  /** In runs: with such a configuration the stop of an open position never falls. */
  lemma StopNeverFalls(e: Setup, states: seq<EngineState>, events: seq<Event>, n: nat)
    requires Run(e, states, events) && n < |events| && RatchetCondition(e.risk)
    requires states[n].open && states[n + 1].open
    ensures states[n].position.stopLossPrice <= states[n + 1].position.stopLossPrice
  {
    RunIsAccounted(e, states, events, n);
    RunIsProfiled(e, states, events, n);
    BuysArePositive(e.risk, states[n].entryMarket);
    var p := states[n].position;
    TopAndBottomAreExtremes(p.entryPrice, states[n].seen);
    var event := events[n];
    if event.Evaluation? || event.MarketEvent? {
      hide Times, Profiled, Accounted, Price, Execute;
      StopAfterTracking(e.risk, states[n], event.tick.price);
    }
  }

  lemma StopAfterTracking(c: RiskConfig, s: EngineState, price: real)
    requires s.open && Profiled(c, s) && RatchetCondition(c) && s.position.entryPrice > 0.0
    ensures s.position.stopLossPrice <= Tracked(c, s.position, price).stopLossPrice
  {
    TopAndBottomAreExtremes(s.position.entryPrice, s.seen);
    if price > s.position.highestPrice {
      StopRises(c, s.position.entryPrice, s.position.highestPrice, price);
    }
  }

  /** From one state of a run to the next the stop of an open position does not fall. */
  ghost predicate StopIsKept(states: seq<EngineState>, n: nat) {
    n + 1 < |states| && states[n].open && states[n + 1].open ==>
      states[n].position.stopLossPrice <= states[n + 1].position.stopLossPrice
  }

  /** An open position and a quote that holds it. */
  lemma QuoteHolds(e: Setup, s: EngineState, q: Quote)
    requires ValidConfig(e.risk) && Profiled(e.risk, s) && s.open && !s.closeRequested
    requires HoldsAt(e.risk, s.position.entryPrice, s.seen + [q], |s.seen|)
    requires q.time - s.position.entryTime < e.risk.maxHoldingSeconds * SECOND
    ensures var n := Evaluate(e, s, QuoteTick(q)).0;
            && n.open && !n.closeRequested && Profiled(e.risk, n) && n.seen == s.seen + [q]
            && n.position.entryPrice == s.position.entryPrice && n.position.entryTime == s.position.entryTime
  {
    hide Tracked, Profiled, StopAfter, Times;
    var seen := s.seen + [q];
    assert seen[..|s.seen| + 1] == seen;
    TrackingIsProfiled(e.risk, s, q.price, q.time);
    ProfileAtLast(e.risk, s.(position := Tracked(e.risk, s.position, q.price), seen := seen), q.price, q.time);
    TrackingKeepsEntry(e.risk, s.position, q.price);
  }

  function QuoteTick(q: Quote): Tick {
    Tick(q.price, q.time, q.time, false, false, false)
  }

  /** A run that enters and then sees the quotes. */
  function StatesOf(e: Setup, t: Tick, seen: seq<Quote>): seq<EngineState>
    requires e.risk.stepSize > 0.0
  {
    if seen == [] then [INITIAL, Evaluate(e, INITIAL, t).0]
    else
      var before := StatesOf(e, t, seen[..|seen| - 1]);
      before + [Evaluate(e, before[|before| - 1], QuoteTick(seen[|seen| - 1])).0]
  }

  function EventsOf(t: Tick, seen: seq<Quote>): seq<Event> {
    if seen == [] then [Evaluation(t)] else EventsOf(t, seen[..|seen| - 1]) + [Evaluation(QuoteTick(seen[|seen| - 1]))]
  }

  lemma {:induction false} QuotesAreRun(e: Setup, t: Tick, seen: seq<Quote>)
    requires ValidConfig(e.risk)
    ensures |StatesOf(e, t, seen)| == |seen| + 2 && |EventsOf(t, seen)| == |seen| + 1
    ensures Run(e, StatesOf(e, t, seen), EventsOf(t, seen))
  {
    hide Evaluate;
    if seen != [] {
      var front := seen[..|seen| - 1];
      QuotesAreRun(e, t, front);
      var states, events := StatesOf(e, t, seen), EventsOf(t, seen);
      forall i | 0 <= i < |events| ensures states[i + 1] == Apply(e, states[i], events[i]).0 {
        if i < |seen| {
          assert states[i] == StatesOf(e, t, front)[i] && states[i + 1] == StatesOf(e, t, front)[i + 1];
          assert events[i] == EventsOf(t, front)[i];
        }
      }
    }
  }

  /** All quotes come at one time and hold a position of this entry. */
  ghost predicate AllHold(c: RiskConfig, entry: real, seen: seq<Quote>, now: int) {
    forall k | 0 <= k < |seen| :: HoldsAt(c, entry, seen, k) && seen[k].time == now
  }

  lemma FrontHolds(c: RiskConfig, entry: real, seen: seq<Quote>, now: int)
    requires seen != [] && AllHold(c, entry, seen, now)
    ensures var n := |seen| - 1;
            && seen == seen[..n] + [seen[n]] && AllHold(c, entry, seen[..n], now)
            && HoldsAt(c, entry, seen[..n] + [seen[n]], n) && seen[n].time == now
  {
    hide StopAfter, Times;
    var n := |seen| - 1;
    var front := seen[..n];
    assert seen == front + [seen[n]];
    forall k | 0 <= k < n ensures HoldsAt(c, entry, front, k) && front[k].time == now {
      assert front[..k + 1] == seen[..k + 1] && HoldsAt(c, entry, seen, k);
    }
    assert HoldsAt(c, entry, seen, n);
  }

  /** Quotes that hold the position leave it open, with exactly these quotes seen. */
  lemma {:induction false} QuotesHold(e: Setup, t: Tick, entry: real, seen: seq<Quote>)
    requires CanEnter(e, t) && !t.lateRequest && entry == Evaluate(e, INITIAL, t).0.position.entryPrice
    requires AllHold(e.risk, entry, seen, t.now)
    ensures |StatesOf(e, t, seen)| == |seen| + 2
    ensures var s := StatesOf(e, t, seen)[|seen| + 1];
            && s.open && !s.closeRequested && Profiled(e.risk, s) && s.seen == seen
            && s.position.entryPrice == entry && s.position.entryTime == t.now
  {
    hide Evaluate, Profiled, HoldsAt, ApproveEntry, AllHold;
    QuotesAreRun(e, t, seen);
    if seen == [] {
      EntryOpens(e, t);
    } else {
      var n := |seen| - 1;
      var front := seen[..n];
      QuotesAreRun(e, t, front);
      FrontHolds(e.risk, entry, seen, t.now);
      QuotesHold(e, t, entry, front);
      QuoteHolds(e, StatesOf(e, t, front)[n + 1], seen[n]);
    }
  }

  /** In runs, too, the condition is exact: for an engine that can enter at all, the stop of an
      open position never falls in any run iff the condition holds. */
  lemma RatchetExactlyInRuns(e: Setup, t: Tick)
    requires CanEnter(e, t)
    ensures RatchetCondition(e.risk) <==> forall states, events, n: nat | Run(e, states, events) :: StopIsKept(states, n)
  {
    if RatchetCondition(e.risk) {
      forall states: seq<EngineState>, events, n: nat | Run(e, states, events) ensures StopIsKept(states, n) {
        if n + 1 < |states| && states[n].open && states[n + 1].open {
          RunHasEvent(e, states, events, n);
          StopNeverFalls(e, states, events, n);
        }
      }
    } else {
      StopFallsInRun(e, t.(lateRequest := false));
    }
  }

  lemma RunHasEvent(e: Setup, states: seq<EngineState>, events: seq<Event>, n: nat)
    requires Run(e, states, events) && n + 1 < |states|
    ensures n < |events|
  {
  }

  lemma StopFallsInRun(e: Setup, t: Tick)
    requires CanEnter(e, t) && !t.lateRequest && !RatchetCondition(e.risk)
    ensures exists states, events, n: nat :: Run(e, states, events) && !StopIsKept(states, n)
  {
    hide Evaluate, Profiled, StopAfter, ApproveEntry, RatchetCondition;
    EntryOpens(e, t);
    var entry := Evaluate(e, INITIAL, t).0.position.entryPrice;
    var seen := SomeRiseLowersStop(e.risk, entry, t.now);
    var n := |seen| - 1;
    var front := seen[..n];
    assert forall k | 0 <= k < |seen| :: seen[k] in seen;
    assert AllHold(e.risk, entry, seen, t.now);
    FrontHolds(e.risk, entry, seen, t.now);
    QuotesHold(e, t, entry, front);
    QuotesHold(e, t, entry, seen);
    QuotesAreRun(e, t, seen);
    var states := StatesOf(e, t, seen);
    assert states[n + 1] == StatesOf(e, t, front)[n + 1];
    StopOfProfile(e.risk, states[n + 1]);
    StopOfProfile(e.risk, states[n + 2]);
    assert !StopIsKept(states, n + 1);
  }

  lemma StopOfProfile(c: RiskConfig, s: EngineState)
    requires Profiled(c, s) && s.open
    ensures s.position.stopLossPrice == StopAfter(c, s.position.entryPrice, s.seen)
  {
  }
}
