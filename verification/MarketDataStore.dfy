/** The in-memory market store: one fixed ring of candles per symbol, reachable by symbol and
    by numeric id.

    The ghost `log` of a ring is everything ever stored in it; a candle with the timestamp of
    the last entry replaces that entry. */
module MarketDataStore {
  import opened RingIndex
  import opened Wrappers

  datatype Kline = Kline(timestamp: int, open: real, high: real, low: real, close: real, volume: real)

  const INVALID_ID: nat := 0

  // ---------------------------------------------------------------- the log

  function UpsertLog(log: seq<Kline>, k: Kline): seq<Kline> {
    var n := |log|;
    if n > 0 && log[n - 1].timestamp == k.timestamp then log[..n - 1] + [k] else log + [k]
  }

  /** Storing candles one after another. */
  function Stored(candles: seq<Kline>): seq<Kline> {
    if candles == [] then [] else UpsertLog(Stored(candles[..|candles| - 1]), candles[|candles| - 1])
  }

  /** The candles that are not followed by one of the same timestamp. */
  function LastOfRuns(candles: seq<Kline>): seq<Kline> {
    if |candles| <= 1 then candles
    else (if candles[0].timestamp == candles[1].timestamp then [] else [candles[0]]) + LastOfRuns(candles[1..])
  }

  lemma {:induction false} LastOfRunsSnoc(candles: seq<Kline>, k: Kline)
    requires candles != []
    ensures var kept := LastOfRuns(candles);
            && kept != [] && kept[|kept| - 1] == candles[|candles| - 1]
            && LastOfRuns(candles + [k]) ==
               (if candles[|candles| - 1].timestamp == k.timestamp then kept[..|kept| - 1] else kept) + [k]
    decreases |candles|
  {
    var after := candles + [k];
    if |candles| == 1 {
      assert after[1..] == [k];
    } else {
      LastOfRunsSnoc(candles[1..], k);
      assert after[1..] == candles[1..] + [k] && after[0] == candles[0] && after[1] == candles[1];
    }
  }

  /** What is stored of any candles: of neighbours with equal timestamps exactly the last. */
  lemma {:induction false} StoredExactly(candles: seq<Kline>)
    ensures Stored(candles) == LastOfRuns(candles)
  {
    if candles != [] {
      var n := |candles| - 1;
      StoredExactly(candles[..n]);
      assert candles == candles[..n] + [candles[n]];
      if n > 0 { LastOfRunsSnoc(candles[..n], candles[n]); }
    }
  }

  /** The return is what the first value grows by to become the last; there is none from a
      value that is not positive. */
  lemma ReturnIsGrowth(first: real, last: real)
    ensures ReturnBetween(first, last).Some? <==> first > 0.0
    ensures first > 0.0 ==> first * (1.0 + ReturnBetween(first, last).value) == last
  {
    if first > 0.0 {
      var r := ReturnBetween(first, last).value;
      assert r * first == last - first;
    }
  }

  /** First-to-last return over a stretch of closes. */
  function ReturnOver(candles: seq<Kline>): Option<real> {
    if |candles| < 2 then None else ReturnBetween(candles[0].close, candles[|candles| - 1].close)
  }

  function ReturnBetween(first: real, last: real): Option<real> {
    if first <= 0.0 then None else Some((last - first) / first)
  }

  // ---------------------------------------------------------------- one ring

  class RingBuffer {
    const data: array<Kline>
    var head: nat
    var size: nat
    ghost var log: seq<Kline>

    ghost predicate Valid()
      reads this, data
    {
      && RingShape(data.Length, head, size)
      && Unroll(data[..], head, size) == Suffix(log, data.Length)
    }

    constructor (capacity: nat)
      requires capacity >= 1
      ensures Valid() && log == [] && data.Length == capacity && fresh(data)
    {
      data := new Kline[capacity](_ => Kline(0, 0.0, 0.0, 0.0, 0.0, 0.0));
      head, size := 0, 0;
      log := [];
    }

    method Upsert(k: Kline)
      requires Valid()
      modifies this, data
      ensures Valid() && log == UpsertLog(old(log), k)
    {
      var capacity := data.Length;
      if size > 0 {
        var last := Wrap(head + capacity - 1, capacity);
        UnrollLast(data[..], head, size, k);
        if data[last].timestamp == k.timestamp {
          data[last] := k;
          log := log[..|log| - 1] + [k];
          return;
        }
      }
      Append(k);
    }

    method Append(k: Kline)
      requires Valid()
      modifies this, data
      ensures Valid() && log == old(log) + [k]
    {
      hide Suffix, Unroll, Wrap;
      ghost var before := data[..];
      UnrollPush(before, head, size, k);
      SuffixOfSuffix(log, k, data.Length);
      data[head] := k;
      assert data[..] == before[head := k];
      head := Wrap(head + 1, data.Length);
      if size < data.Length { size := size + 1; }
      log := log + [k];
    }

    method Latest(limit: nat) returns (result: seq<Kline>)
      requires Valid()
      ensures result == Suffix(log, Least(limit, data.Length))
    {
      hide Suffix, Unroll, Wrap;
      var capacity := data.Length;
      var count := Least(limit, size);
      result := [];
      var start := Wrap(head + capacity - count, capacity);
      ghost var wanted := Suffix(log, Least(limit, capacity));
      SuffixOfLonger(log, capacity, limit);
      for i := 0 to count
        invariant |result| == i && result <= wanted
      {
        NewestAt(data[..], head, size, log, limit, i);
        result := result + [data[Wrap(start + i, capacity)]];
      }
    }

    method CumulativeReturn(lookback: nat) returns (result: Option<real>)
      requires Valid()
      ensures result == ReturnOver(Suffix(log, Least(lookback, data.Length)))
    {
      hide Suffix, Unroll, Wrap, ReturnBetween;
      if lookback < 2 { return None; }
      var capacity := data.Length;
      var count := Least(lookback, size);
      if count < 2 { return None; }
      ghost var kept := Suffix(log, capacity);
      SuffixOfLonger(log, capacity, lookback);
      UnrollAt(data[..], head, size, count, 0);
      UnrollAt(data[..], head, size, 1, 0);
      var firstIndex := Wrap(head + capacity - count, capacity);
      var lastIndex := Wrap(head + capacity - 1, capacity);
      return ReturnBetween(data[firstIndex].close, data[lastIndex].close);
    }
  }

  // ---------------------------------------------------------------- the store

  class MarketDataStore {
    const capacityPerSymbol: nat
    var buffers: map<string, RingBuffer>
    var idBuffers: seq<RingBuffer?>
    // what the store remembers: a log per symbol, and a symbol per registered id
    ghost var logs: map<string, seq<Kline>>
    ghost var ids: map<nat, string>
    // whose ring each object belongs to; rings of different symbols share nothing
    ghost var owner: map<object, string>

    ghost predicate Valid()
      reads this, owner.Keys
    {
      && this !in owner
      && capacityPerSymbol >= 1
      && logs.Keys == buffers.Keys
      && (forall s | s in buffers :: Holds(buffers[s], s))
      && (forall id | id in ids :: id != INVALID_ID && id < |idBuffers| && ids[id] in buffers && idBuffers[id] == buffers[ids[id]])
      && (forall id | 0 <= id < |idBuffers| && id !in ids :: idBuffers[id] == null)
    }

    ghost predicate Holds(b: RingBuffer, s: string)
      requires s in logs
      reads this, owner.Keys
    {
      && b in owner && owner[b] == s && b.data in owner && owner[b.data] == s
      && b.Valid() && b.log == logs[s] && b.data.Length == capacityPerSymbol
    }

    /** Buffers that exist keep their identity. */
    twostate predicate SameBuffers()
      reads this
    {
      forall s | s in old(buffers) :: s in buffers && buffers[s] == old(buffers[s])
    }

    constructor (capacity: nat)
      requires capacity >= 1
      ensures Valid() && logs == map[] && ids == map[] && capacityPerSymbol == capacity
    {
      capacityPerSymbol := capacity;
      buffers, idBuffers := map[], [];
      logs, ids := map[], map[];
      owner := map[];
    }

    method GetOrCreate(symbol: string) returns (buffer: RingBuffer)
      requires Valid()
      modifies this
      ensures Valid() && SameBuffers() && fresh(owner.Keys - old(owner.Keys))
      ensures ids == old(ids) && idBuffers == old(idBuffers)
      ensures symbol in buffers && buffer == buffers[symbol] && buffer in owner && buffer.data in owner
      ensures logs == if symbol in old(logs) then old(logs) else old(logs)[symbol := []]
    {
      hide RingBuffer.Valid;
      if symbol in buffers { return buffers[symbol]; }
      buffer := new RingBuffer(capacityPerSymbol);
      AddBuffer(symbol, buffer);
    }

    method AddBuffer(symbol: string, buffer: RingBuffer)
      requires Valid() && symbol !in buffers
      requires buffer !in owner && buffer.data !in owner
      requires buffer.Valid() && buffer.log == [] && buffer.data.Length == capacityPerSymbol
      modifies this`buffers, this`logs, this`owner
      ensures Valid() && buffers == old(buffers)[symbol := buffer] && logs == old(logs)[symbol := []]
      ensures owner == old(owner)[buffer := symbol][buffer.data := symbol]
    {
      hide RingBuffer.Valid;
      buffers := buffers[symbol := buffer];
      logs := logs[symbol := []];
      owner := owner[buffer := symbol][buffer.data := symbol];
    }

    method RegisterSymbol(id: nat, symbol: string)
      requires Valid()
      modifies this
      ensures Valid() && SameBuffers() && fresh(owner.Keys - old(owner.Keys))
      ensures id == INVALID_ID ==> logs == old(logs) && ids == old(ids)
      ensures id != INVALID_ID ==>
                && logs == (if symbol in old(logs) then old(logs) else old(logs)[symbol := []])
                && ids == old(ids)[id := symbol]
    {
      hide RingBuffer.Valid;
      if id == INVALID_ID { return; }
      var buffer := GetOrCreate(symbol);
      BindId(id, symbol, buffer);
    }

    method BindId(id: nat, ghost symbol: string, buffer: RingBuffer)
      requires Valid() && id != INVALID_ID && symbol in buffers && buffer == buffers[symbol]
      modifies this`idBuffers, this`ids
      ensures Valid() && ids == old(ids)[id := symbol]
    {
      hide RingBuffer.Valid;
      if |idBuffers| <= id {
        idBuffers := idBuffers + seq(id + 1 - |idBuffers|, _ => null);
      }
      idBuffers := idBuffers[id := buffer];
      ids := ids[id := symbol];
    }

    /** Only the log of the symbol changes, and no buffer is replaced. */
    method Upsert(symbol: string, k: Kline)
      requires Valid()
      modifies this, owner.Keys
      ensures Valid() && SameBuffers() && ids == old(ids) && fresh(owner.Keys - old(owner.Keys))
      ensures logs == old(logs)[symbol := UpsertLog(if symbol in old(logs) then old(logs)[symbol] else [], k)]
    {
      hide Valid, Holds, UpsertLog, RingBuffer.Valid;
      var buffer := GetOrCreate(symbol);
      UpsertBuffer(symbol, buffer, k);
    }

    method UpsertBuffer(ghost symbol: string, buffer: RingBuffer, k: Kline)
      requires Valid() && symbol in buffers && buffer == buffers[symbol]
      modifies this`logs, buffer, buffer.data
      ensures Valid()
      ensures logs == old(logs)[symbol := UpsertLog(old(logs)[symbol], k)]
    {
      hide RingBuffer.Valid;
      buffer.Upsert(k);
      logs := logs[symbol := buffer.log];
    }

    method Find(symbol: string) returns (buffer: RingBuffer?)
      requires Valid()
      ensures buffer == if symbol in buffers then buffers[symbol] else null
    {
      if symbol in buffers { return buffers[symbol]; }
      return null;
    }

    method FindId(id: nat) returns (buffer: RingBuffer?)
      requires Valid()
      ensures buffer == if id in ids then buffers[ids[id]] else null
    {
      if id < |idBuffers| { return idBuffers[id]; }
      return null;
    }

    method UpsertId(id: nat, k: Kline)
      requires Valid()
      modifies this, owner.Keys
      ensures Valid() && ids == old(ids) && buffers == old(buffers)
      ensures id !in ids ==> logs == old(logs)
      ensures id in ids ==> logs == old(logs)[ids[id] := UpsertLog(old(logs)[ids[id]], k)]
    {
      hide RingBuffer.Valid;
      var buffer := FindId(id);
      if buffer != null { UpsertBuffer(ids[id], buffer, k); }
    }

    method Latest(symbol: string, limit: nat) returns (result: seq<Kline>)
      requires Valid()
      ensures result == LatestIn(logs, symbol, Least(limit, capacityPerSymbol))
    {
      var buffer := Find(symbol);
      if buffer == null || limit == 0 { return []; }
      result := buffer.Latest(limit);
    }

    method LatestId(id: nat, limit: nat) returns (result: seq<Kline>)
      requires Valid()
      ensures result == if id in ids then LatestIn(logs, ids[id], Least(limit, capacityPerSymbol)) else []
    {
      var buffer := FindId(id);
      if buffer == null || limit == 0 { return []; }
      result := buffer.Latest(limit);
    }

    method CumulativeReturn(symbol: string, lookback: nat) returns (result: Option<real>)
      requires Valid()
      ensures result == ReturnOver(LatestIn(logs, symbol, Least(lookback, capacityPerSymbol)))
    {
      var buffer := Find(symbol);
      if buffer == null { return None; }
      result := buffer.CumulativeReturn(lookback);
    }

    method CumulativeReturnId(id: nat, lookback: nat) returns (result: Option<real>)
      requires Valid()
      ensures result == if id in ids then ReturnOver(LatestIn(logs, ids[id], Least(lookback, capacityPerSymbol))) else None
    {
      var buffer := FindId(id);
      if buffer == null { return None; }
      result := buffer.CumulativeReturn(lookback);
    }
  }

  /** The last `count` candles of a symbol; none for a symbol that was never stored. */
  function LatestIn(logs: map<string, seq<Kline>>, symbol: string, count: nat): seq<Kline> {
    if symbol in logs then Suffix(logs[symbol], count) else []
  }
}
