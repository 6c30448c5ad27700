/** The market store under concurrent calls. One step is one lock section: the shared look-up of
    a symbol or an id, the exclusive creation of a buffer, the exclusive binding of an id, or one
    update under a buffer's own lock. Between the look-up that misses and the creation any other
    thread may create the same buffer. */
module MarketDataStoreThreads {
  import opened MarketDataStore

  datatype Call = Upsert(symbol: string, candle: Kline) | UpsertId(id: nat, candle: Kline) | Register(id: nat, symbol: string)

  datatype Point = Looking | Creating | Holding(buffer: nat) | Done

  datatype Thread = Thread(call: Call, at: Point)

  /** Buffers are numbered in the order of their creation; `data[b]` is the log of buffer b.
      History: whose buffer each is, which symbol each id was bound to, and all updates so far. */
  datatype Store = Store(
    buffers: map<string, nat>,
    idBuffers: map<nat, nat>,
    data: seq<seq<Kline>>,
    threads: map<nat, Thread>,
    owner: seq<string>,
    ids: map<nat, string>,
    updates: seq<(string, Kline)>)

  const EMPTY: Store := Store(map[], map[], [], map[], [], map[], [])

  datatype Step = Begin(thread: nat, call: Call) | Advance(thread: nat)

  predicate Enabled(s: Store, step: Step) {
    match step
    case Begin(t, _) => t !in s.threads
    case Advance(t) =>
      && t in s.threads && !s.threads[t].at.Done?
      && (s.threads[t].at.Holding? ==> s.threads[t].at.buffer < |s.data| == |s.owner|)
  }

  function Move(s: Store, t: nat, to: Point): Store
    requires t in s.threads
  {
    s.(threads := s.threads[t := s.threads[t].(at := to)])
  }

  /** The look-up; the invalid id is never registered. */
  function Look(s: Store, t: nat): Store
    requires t in s.threads
  {
    match s.threads[t].call
    case Upsert(symbol, _) => Move(s, t, if symbol in s.buffers then Holding(s.buffers[symbol]) else Creating)
    case UpsertId(id, _) => Move(s, t, if id in s.idBuffers then Holding(s.idBuffers[id]) else Done)
    case Register(id, symbol) =>
      Move(s, t, if id == INVALID_ID then Done else if symbol in s.buffers then Holding(s.buffers[symbol]) else Creating)
  }

  /** `emplace` finds the entry that another thread has made in the meantime. */
  function Create(s: Store, t: nat): Store
    requires t in s.threads && !s.threads[t].call.UpsertId?
  {
    var symbol := s.threads[t].call.symbol;
    if symbol in s.buffers then Move(s, t, Holding(s.buffers[symbol]))
    else Move(s.(buffers := s.buffers[symbol := |s.data|], data := s.data + [[]], owner := s.owner + [symbol]), t, Holding(|s.data|))
  }

  /** Binding the id, or updating the buffer. */
  function Use(s: Store, t: nat, b: nat): Store
    requires t in s.threads && b < |s.data| == |s.owner|
  {
    match s.threads[t].call
    case Register(id, symbol) => Move(s.(idBuffers := s.idBuffers[id := b], ids := s.ids[id := symbol]), t, Done)
    case Upsert(_, k) => Move(s.(data := s.data[b := UpsertLog(s.data[b], k)], updates := s.updates + [(s.owner[b], k)]), t, Done)
    case UpsertId(_, k) => Move(s.(data := s.data[b := UpsertLog(s.data[b], k)], updates := s.updates + [(s.owner[b], k)]), t, Done)
  }

  function Next(s: Store, step: Step): Store
    requires Enabled(s, step)
  {
    match step
    case Begin(t, call) => s.(threads := s.threads[t := Thread(call, Looking)])
    case Advance(t) =>
      match s.threads[t].at
      case Looking => Look(s, t)
      case Creating => if s.threads[t].call.UpsertId? then Move(s, t, Done) else Create(s, t)
      case Holding(b) => Use(s, t, b)
  }

  ghost predicate Run(states: seq<Store>, steps: seq<Step>) {
    && |states| == |steps| + 1 && states[0] == EMPTY
    && forall i | 0 <= i < |steps| :: Enabled(states[i], steps[i]) && states[i + 1] == Next(states[i], steps[i])
  }

  /** The log of a symbol: its updates in order, a candle of the last timestamp replacing it. */
  function LogOf(updates: seq<(string, Kline)>, symbol: string): seq<Kline> {
    if updates == [] then []
    else
      var n := |updates| - 1;
      var log := LogOf(updates[..n], symbol);
      if updates[n].0 == symbol then UpsertLog(log, updates[n].1) else log
  }

  lemma LogOfSnoc(updates: seq<(string, Kline)>, u: (string, Kline), symbol: string)
    ensures LogOf(updates + [u], symbol) ==
            if u.0 == symbol then UpsertLog(LogOf(updates, symbol), u.1) else LogOf(updates, symbol)
  {
    hide UpsertLog;
    assert (updates + [u])[..|updates|] == updates;
  }

  // ---------------------------------------------------------------- invariant

  /** Symbols and buffers belong to each other, one to one. */
  ghost predicate Indexed(s: Store) {
    && |s.owner| == |s.data|
    && (forall x | x in s.buffers :: s.buffers[x] < |s.owner| && s.owner[s.buffers[x]] == x)
    && (forall b | 0 <= b < |s.owner| :: s.owner[b] in s.buffers && s.buffers[s.owner[b]] == b)
    && s.idBuffers.Keys == s.ids.Keys && INVALID_ID !in s.ids
    && (forall id | id in s.ids :: s.ids[id] in s.buffers && s.idBuffers[id] == s.buffers[s.ids[id]])
  }

  /** A buffer in a thread's hand is that of its symbol. */
  ghost predicate HandIsRight(s: Store, th: Thread) {
    && (th.at.Holding? ==> th.at.buffer < |s.owner| && (!th.call.UpsertId? ==> s.owner[th.at.buffer] == th.call.symbol))
    && (th.call.Register? && !th.at.Looking? && !th.at.Done? ==> th.call.id != INVALID_ID)
  }

  ghost predicate Logged(s: Store) {
    |s.owner| == |s.data| && forall b | 0 <= b < |s.data| :: s.data[b] == LogOf(s.updates, s.owner[b])
  }

  /** No update names a symbol that has no buffer yet. */
  ghost predicate Known(s: Store) {
    forall u | u in s.updates :: u.0 in s.buffers
  }

  ghost predicate Inv(s: Store) {
    Indexed(s) && Logged(s) && Known(s) && forall t | t in s.threads :: HandIsRight(s, s.threads[t])
  }

  lemma {:induction false} NoLogYet(updates: seq<(string, Kline)>, symbol: string)
    requires forall u | u in updates :: u.0 != symbol
    ensures LogOf(updates, symbol) == []
  {
    if updates != [] {
      assert updates[|updates| - 1] in updates;
      assert forall u | u in updates[..|updates| - 1] :: u in updates;
      NoLogYet(updates[..|updates| - 1], symbol);
    }
  }

  lemma MoveKeepsInv(s: Store, t: nat, to: Point)
    requires Inv(s) && t in s.threads && HandIsRight(s, s.threads[t].(at := to))
    ensures Inv(Move(s, t, to))
  {
    hide LogOf;
  }

  lemma LookKeepsInv(s: Store, t: nat)
    requires Inv(s) && t in s.threads && s.threads[t].at.Looking?
    ensures Inv(Look(s, t))
  {
    hide Logged, Known, Move;
    var to := match s.threads[t].call
              case Upsert(symbol, _) => if symbol in s.buffers then Holding(s.buffers[symbol]) else Creating
              case UpsertId(id, _) => if id in s.idBuffers then Holding(s.idBuffers[id]) else Done
              case Register(id, symbol) =>
                if id == INVALID_ID then Done else if symbol in s.buffers then Holding(s.buffers[symbol]) else Creating;
    MoveKeepsInv(s, t, to);
  }

  lemma CreateKeepsInv(s: Store, t: nat)
    requires Inv(s) && t in s.threads && s.threads[t].at.Creating? && !s.threads[t].call.UpsertId?
    ensures Inv(Create(s, t))
  {
    hide LogOf;
    var symbol := s.threads[t].call.symbol;
    if symbol !in s.buffers { NoLogYet(s.updates, symbol); }
  }

  lemma BindKeepsInv(s: Store, t: nat, b: nat)
    requires Inv(s) && t in s.threads && s.threads[t] == Thread(s.threads[t].call, Holding(b)) && s.threads[t].call.Register?
    ensures b < |s.data| == |s.owner| && Inv(Use(s, t, b))
  {
    hide LogOf;
    assert HandIsRight(s, s.threads[t]);
  }

  lemma UpdateKeepsInv(s: Store, t: nat, b: nat)
    requires Inv(s) && t in s.threads && s.threads[t] == Thread(s.threads[t].call, Holding(b)) && !s.threads[t].call.Register?
    ensures b < |s.data| == |s.owner| && Inv(Use(s, t, b))
  {
    hide LogOf, UpsertLog;
    assert HandIsRight(s, s.threads[t]);
    var u := (s.owner[b], s.threads[t].call.candle);
    forall c | 0 <= c < |s.data| ensures Use(s, t, b).data[c] == LogOf(s.updates + [u], s.owner[c]) {
      LogOfSnoc(s.updates, u, s.owner[c]);
    }
  }

  lemma NextKeepsInv(s: Store, step: Step)
    requires Inv(s) && Enabled(s, step)
    ensures Inv(Next(s, step))
  {
    match step {
      case Begin(_, _) =>
      case Advance(t) =>
        hide Look, Create, Use;
        match s.threads[t].at
        case Looking => LookKeepsInv(s, t);
        case Creating => if !s.threads[t].call.UpsertId? { CreateKeepsInv(s, t); }
        case Holding(b) => if s.threads[t].call.Register? { BindKeepsInv(s, t, b); } else { UpdateKeepsInv(s, t, b); }
    }
  }

  lemma {:induction false} RunKeepsInv(states: seq<Store>, steps: seq<Step>, n: nat)
    requires Run(states, steps) && n < |states|
    ensures Inv(states[n])
  {
    hide Inv, Next, Enabled;
    if n > 0 {
      RunKeepsInv(states, steps, n - 1);
      NextKeepsInv(states[n - 1], steps[n - 1]);
    } else {
      EmptyInv();
    }
  }

  lemma EmptyInv()
    ensures Inv(EMPTY)
  {
  }

  // ---------------------------------------------------------------- over every interleaving

  lemma NextKeepsBuffers(s: Store, step: Step, symbol: string)
    requires Inv(s) && Enabled(s, step) && symbol in s.buffers
    ensures symbol in Next(s, step).buffers && Next(s, step).buffers[symbol] == s.buffers[symbol]
  {
    hide Logged, Known, LogOf, UpsertLog;
  }

  /** A symbol's buffer never changes identity once created, whatever runs at the same time. */
  lemma {:induction false} BuffersKeepIdentity(states: seq<Store>, steps: seq<Step>, i: nat, j: nat, symbol: string)
    requires Run(states, steps) && i <= j < |states| && symbol in states[i].buffers
    ensures symbol in states[j].buffers && states[j].buffers[symbol] == states[i].buffers[symbol]
  {
    hide Inv, Next, Enabled;
    if i < j {
      BuffersKeepIdentity(states, steps, i, j - 1, symbol);
      RunKeepsInv(states, steps, j - 1);
      NextKeepsBuffers(states[j - 1], steps[j - 1], symbol);
    }
  }

  /** In every reachable state each symbol has its own buffer, holding exactly the log of the
      updates made to it, by symbol or by id, in the order of their lock sections; and an id
      leads to the buffer of the symbol it was registered for last. */
  lemma StoreIsLogs(states: seq<Store>, steps: seq<Step>, n: nat, symbol: string)
    requires Run(states, steps) && n < |states|
    ensures var s := states[n];
            && (symbol in s.buffers ==> s.buffers[symbol] < |s.data| && s.data[s.buffers[symbol]] == LogOf(s.updates, symbol))
            && (symbol !in s.buffers ==> LogOf(s.updates, symbol) == [])
            && (forall other | other in s.buffers && symbol in s.buffers && other != symbol :: s.buffers[other] != s.buffers[symbol])
            && (forall id | id in s.idBuffers :: id in s.ids && s.ids[id] in s.buffers && s.idBuffers[id] == s.buffers[s.ids[id]])
  {
    hide LogOf;
    RunKeepsInv(states, steps, n);
    if symbol !in states[n].buffers { NoLogYet(states[n].updates, symbol); }
  }

  /** An update is made exactly by the last step of an upsert, to the buffer the upsert looked
      up: for an upsert by symbol, the buffer of that symbol. */
  lemma UpdatesAreUpserts(states: seq<Store>, steps: seq<Step>, n: nat)
    requires Run(states, steps) && n < |steps|
    ensures var s, u, step := states[n], states[n + 1], steps[n];
            if step.Advance? && s.threads[step.thread].at.Holding? && !s.threads[step.thread].call.Register?
            then
              var th := s.threads[step.thread];
              && th.at.buffer < |s.owner|
              && u.updates == s.updates + [(s.owner[th.at.buffer], th.call.candle)]
              && (th.call.Upsert? ==> s.owner[th.at.buffer] == th.call.symbol)
            else u.updates == s.updates
  {
    RunKeepsInv(states, steps, n);
    hide LogOf, UpsertLog, Indexed, Logged, Known;
    if steps[n].Advance? { assert HandIsRight(states[n], states[n].threads[steps[n].thread]); }
  }

  // ---------------------------------------------------------------- what a call has done when it is done

  /** In this step the thread makes its update, to the log of the symbol. */
  ghost predicate Updates(s: Store, step: Step, t: nat, symbol: string) {
    && step == Advance(t) && Enabled(s, step) && !s.threads[t].call.Register?
    && Next(s, step).updates == s.updates + [(symbol, s.threads[t].call.candle)]
  }

  /** In this step the thread binds the id to the buffer of the symbol. */
  ghost predicate Binds(s: Store, step: Step, t: nat, id: nat, symbol: string) {
    && step == Advance(t) && Enabled(s, step) && symbol in s.buffers
    && Next(s, step).ids == s.ids[id := symbol] && Next(s, step).idBuffers == s.idBuffers[id := s.buffers[symbol]]
  }

  /** In this step the thread looks its id up and finds, or misses, it. */
  ghost predicate LooksUp(s: Store, step: Step, t: nat) {
    step == Advance(t) && Enabled(s, step) && s.threads[t].at.Looking?
  }

  /** By step n this thread has stored the candle of its upsert. */
  ghost predicate HasUpdated(states: seq<Store>, steps: seq<Step>, from: nat, n: nat, t: nat, symbol: string)
    requires |states| == |steps| + 1 && n < |states|
  {
    exists m :: from <= m < n && Updates(states[m], steps[m], t, symbol)
  }

  ghost predicate HasBound(states: seq<Store>, steps: seq<Step>, n: nat, t: nat, id: nat, symbol: string)
    requires |states| == |steps| + 1 && n < |states|
  {
    exists m :: 0 <= m < n && Binds(states[m], steps[m], t, id, symbol)
  }

  /** By step n an upsert by id at this point has looked its id up at step l: it holds the buffer of
      the symbol the id was bound to then, or has updated it, or the id was not bound. */
  ghost predicate FollowsId(states: seq<Store>, steps: seq<Step>, n: nat, t: nat, id: nat, at: Point, l: nat)
    requires |states| == |steps| + 1 && n < |states|
  {
    && l < n && LooksUp(states[l], steps[l], t)
    && match at
       case Holding(b) => id in states[l].ids && b < |states[n].owner| && states[n].owner[b] == states[l].ids[id]
       case Done => id in states[l].ids ==> HasUpdated(states, steps, l + 1, n, t, states[l].ids[id])
       case _ => false
  }

  /** By step n the call of a thread that has come to this point has had these effects. */
  ghost predicate Effects(states: seq<Store>, steps: seq<Step>, n: nat, t: nat, th: Thread)
    requires |states| == |steps| + 1 && n < |states|
  {
    match th.call
    case Upsert(symbol, _) => th.at.Done? ==> HasUpdated(states, steps, 0, n, t, symbol)
    case Register(id, symbol) => th.at.Done? && id != INVALID_ID ==> HasBound(states, steps, n, t, id, symbol)
    case UpsertId(id, _) => th.at.Looking? || exists l: nat :: FollowsId(states, steps, n, t, id, th.at, l)
  }

  /** Buffers keep their owners. */
  lemma OwnersStay(s: Store, step: Step)
    requires Enabled(s, step)
    ensures |s.owner| <= |Next(s, step).owner| && forall b | 0 <= b < |s.owner| :: Next(s, step).owner[b] == s.owner[b]
  {
    hide UpsertLog;
  }

  lemma EffectsStay(states: seq<Store>, steps: seq<Step>, n: nat, t: nat, th: Thread)
    requires Run(states, steps) && 0 < n < |states| && Effects(states, steps, n - 1, t, th)
    ensures Effects(states, steps, n, t, th)
  {
    hide Next, Enabled, Updates, Binds, LooksUp;
    assert states[(n - 1) + 1] == Next(states[n - 1], steps[n - 1]);
    OwnersStay(states[n - 1], steps[n - 1]);
    if th.call.UpsertId? && !th.at.Looking? {
      var l: nat :| FollowsId(states, steps, n - 1, t, th.call.id, th.at, l);
      assert FollowsId(states, steps, n, t, th.call.id, th.at, l);
    }
  }

  lemma LookingUp(states: seq<Store>, steps: seq<Step>, n: nat, t: nat)
    requires Run(states, steps) && 0 < n < |states| && steps[n - 1] == Advance(t)
    requires Inv(states[n - 1]) && t in states[n - 1].threads && states[n - 1].threads[t].at.Looking?
    ensures t in states[n].threads && Effects(states, steps, n, t, states[n].threads[t])
  {
    hide Logged, Known, LogOf, UpsertLog, Updates, Binds;
    var s, call := states[n - 1], states[n - 1].threads[t].call;
    assert Enabled(s, steps[n - 1]) && states[(n - 1) + 1] == Next(s, steps[n - 1]);
    if call.UpsertId? {
      assert LooksUp(s, steps[n - 1], t);
      if call.id in s.ids { assert s.owner[s.idBuffers[call.id]] == s.ids[call.id]; }
      assert FollowsId(states, steps, n, t, call.id, states[n].threads[t].at, n - 1);
    }
  }

  lemma Using(states: seq<Store>, steps: seq<Step>, n: nat, t: nat)
    requires Run(states, steps) && 0 < n < |states| && steps[n - 1] == Advance(t)
    requires Inv(states[n - 1]) && t in states[n - 1].threads && states[n - 1].threads[t].at.Holding?
    requires Effects(states, steps, n - 1, t, states[n - 1].threads[t])
    ensures t in states[n].threads && Effects(states, steps, n, t, states[n].threads[t])
  {
    hide Logged, Known, LogOf, UpsertLog;
    var s, th := states[n - 1], states[n - 1].threads[t];
    assert Enabled(s, steps[n - 1]) && states[(n - 1) + 1] == Next(s, steps[n - 1]);
    assert HandIsRight(s, th);
    match th.call
    case Upsert(symbol, _) => assert Updates(states[n - 1], steps[n - 1], t, symbol);
    case Register(id, symbol) => assert Binds(states[n - 1], steps[n - 1], t, id, symbol);
    case UpsertId(id, _) =>
      var l: nat :| FollowsId(states, steps, n - 1, t, id, th.at, l);
      assert Updates(states[n - 1], steps[n - 1], t, states[l].ids[id]);
      assert FollowsId(states, steps, n, t, id, Done, l);
  }

  /** Whatever runs at the same time, a call that is done has done what it was called for: an
      upsert has stored its candle in the log of its symbol, a registration has bound its id to
      the buffer of its symbol, and an upsert by id has stored its candle in the log of the
      symbol the id was bound to when it looked it up, if it was bound to one. */
  lemma {:induction false} CallsAreCarriedOut(states: seq<Store>, steps: seq<Step>, n: nat, t: nat)
    requires Run(states, steps) && n < |states| && t in states[n].threads
    ensures Effects(states, steps, n, t, states[n].threads[t])
    decreases n
  {
    hide Effects, Inv, Next, Enabled;
    NoThreadYet(states, steps, n, t);
    var s, step := states[n - 1], steps[n - 1];
    assert Enabled(s, step) && states[(n - 1) + 1] == Next(s, step);
    RunKeepsInv(states, steps, n - 1);
    ThreadBefore(s, step, t);
    if step.Begin? && step.thread == t {
      BeginsWithout(states, steps, n, t, states[n].threads[t]);
    } else {
      CallsAreCarriedOut(states, steps, n - 1, t);
      if step != Advance(t) {
        EffectsStay(states, steps, n, t, s.threads[t]);
        OtherThreadStays(s, step, t);
      } else if s.threads[t].at.Looking? {
        LookingUp(states, steps, n, t);
      } else if s.threads[t].at.Holding? {
        Using(states, steps, n, t);
      } else {
        CreatingOnly(states, steps, n, t);
      }
    }
  }

  lemma NoThreadYet(states: seq<Store>, steps: seq<Step>, n: nat, t: nat)
    requires Run(states, steps) && n < |states| && t in states[n].threads
    ensures n > 0
  {
  }

  /** Where a thread of the next state comes from. */
  lemma ThreadBefore(s: Store, step: Step, t: nat)
    requires Enabled(s, step) && t in Next(s, step).threads
    ensures if step.Begin? && step.thread == t then Next(s, step).threads[t].at.Looking? else t in s.threads
    ensures step == Advance(t) ==> t in s.threads && !s.threads[t].at.Done?
  {
    hide UpsertLog;
  }

  lemma BeginsWithout(states: seq<Store>, steps: seq<Step>, n: nat, t: nat, th: Thread)
    requires |states| == |steps| + 1 && n < |states| && th.at.Looking?
    ensures Effects(states, steps, n, t, th)
  {
  }

  lemma OtherThreadStays(s: Store, step: Step, t: nat)
    requires Enabled(s, step) && step.thread != t && t in s.threads
    ensures t in Next(s, step).threads && Next(s, step).threads[t] == s.threads[t]
  {
    hide UpsertLog;
  }

  lemma CreatingOnly(states: seq<Store>, steps: seq<Step>, n: nat, t: nat)
    requires Run(states, steps) && 0 < n < |states| && steps[n - 1] == Advance(t)
    requires t in states[n - 1].threads && states[n - 1].threads[t].at.Creating?
    requires Effects(states, steps, n - 1, t, states[n - 1].threads[t])
    ensures t in states[n].threads && Effects(states, steps, n, t, states[n].threads[t])
  {
    hide UpsertLog, Updates, Binds, LooksUp;
    assert states[(n - 1) + 1] == Next(states[n - 1], steps[n - 1]);
  }
}
