/** Index arithmetic of the fixed-size rings: a logical position n, counted from the start,
    lives at index n % capacity. */
module RingIndex {

  function Increment(index: nat, capacity: nat): nat
    requires capacity > 0
  {
    (index + 1) % capacity
  }

  function Distance(head: nat, tail: nat, capacity: nat): int {
    if head >= tail then head - tail else capacity - (tail - head)
  }

  lemma ModAddOne(n: nat, capacity: nat)
    requires capacity > 0
    ensures (n % capacity + 1) % capacity == (n + 1) % capacity
  {
    var q, r := n / capacity, n % capacity;
    assert n + 1 == q * capacity + (r + 1);
    if r + 1 < capacity {
      DivModUnique(n + 1, q, r + 1, capacity);
      DivModUnique(r + 1, 0, r + 1, capacity);
    } else {
      assert n + 1 == (q + 1) * capacity;
      DivModUnique(n + 1, q + 1, 0, capacity);
      DivModUnique(r + 1, 1, 0, capacity);
    }
  }

  lemma MulSpreads(d: int, capacity: nat)
    ensures d > 0 ==> d * capacity >= capacity
    ensures d < 0 ==> d * capacity + capacity <= 0
  {
    if d > 0 {
      assert d * capacity == (d - 1) * capacity + capacity;
    } else if d < 0 {
      assert d * capacity + capacity == -((-d - 1) * capacity);
    }
  }

  lemma DivModUnique(n: nat, q: nat, r: nat, capacity: nat)
    requires capacity > 0 && r < capacity && n == q * capacity + r
    ensures n / capacity == q && n % capacity == r
  {
    var d := n / capacity - q;
    MulSpreads(d, capacity);
    assert d * capacity == (n / capacity) * capacity - q * capacity;
  }

  /** Two logical positions less than one lap apart use different slots, and the index
      distance recovers how far apart they are. */
  lemma ModDistance(from: nat, to: nat, capacity: nat)
    requires capacity > 0 && from <= to < from + capacity
    ensures Distance(to % capacity, from % capacity, capacity) == to - from
    ensures from < to ==> from % capacity != to % capacity
  {
    var q, r := from / capacity, from % capacity;
    var k := to - from;
    if r + k < capacity {
      DivModUnique(to, q, r + k, capacity);
    } else {
      assert to == (q + 1) * capacity + (r + k - capacity);
      DivModUnique(to, q + 1, r + k - capacity, capacity);
    }
  }

  // ---------------------------------------------------------------- overwriting rings

  function Least(a: nat, b: nat): nat { if a <= b then a else b }

  function AtLeast(least: nat, n: int): nat { if n < least then least else n }

  /** The last `count` elements, or all of them. */
  function Suffix<T>(s: seq<T>, count: nat): (r: seq<T>)
    ensures |r| == Least(count, |s|)
  {
    s[|s| - Least(count, |s|)..]
  }

  /** A ring that overwrites its oldest entry: until it is full it fills from index 0. */
  predicate RingShape(capacity: nat, head: nat, size: nat) {
    capacity >= 1 && head < capacity && size <= capacity && (size < capacity ==> head == size)
  }

  /** The entries from the oldest to the newest. */
  function Unroll<T>(slots: seq<T>, head: nat, size: nat): (r: seq<T>)
    requires RingShape(|slots|, head, size)
    ensures |r| == size
  {
    if size < |slots| then slots[..size] else slots[head..] + slots[..head]
  }

  /** An index less than two laps away, brought into the ring. */
  function Wrap(n: nat, capacity: nat): (r: nat)
    requires capacity >= 1 && n < 2 * capacity
    ensures r == if n < capacity then n else n - capacity
  {
    DivModUnique(n, if n < capacity then 0 else 1, if n < capacity then n else n - capacity, capacity);
    n % capacity
  }

  lemma UnrollPush<T>(slots: seq<T>, head: nat, size: nat, x: T)
    requires RingShape(|slots|, head, size)
    ensures var next, grown := Wrap(head + 1, |slots|), Least(size + 1, |slots|);
            && RingShape(|slots|, next, grown)
            && Unroll(slots[head := x], next, grown) == Suffix(Unroll(slots, head, size) + [x], |slots|)
  {
    hide Wrap;
  }

  /** Entry i of the newest `count` ones. */
  lemma UnrollAt<T>(slots: seq<T>, head: nat, size: nat, count: nat, i: nat)
    requires RingShape(|slots|, head, size) && i < count <= size
    ensures slots[Wrap(Wrap(head + |slots| - count, |slots|) + i, |slots|)] == Unroll(slots, head, size)[size - count + i]
  {
    hide Wrap;
  }

  lemma UnrollOldest<T>(slots: seq<T>, head: nat)
    requires RingShape(|slots|, head, |slots|)
    ensures Unroll(slots, head, |slots|)[0] == slots[head]
  {
  }

  lemma UnrollLast<T>(slots: seq<T>, head: nat, size: nat, x: T)
    requires RingShape(|slots|, head, size) && size > 0
    ensures var last := Wrap(head + |slots| - 1, |slots|);
            && slots[last] == Unroll(slots, head, size)[size - 1]
            && Unroll(slots[last := x], head, size) == Unroll(slots, head, size)[..size - 1] + [x]
  {
    hide Wrap;
  }

  /** The newest of the newest. */
  lemma SuffixOfLonger<T>(s: seq<T>, capacity: nat, limit: nat)
    ensures var kept := Suffix(s, capacity);
            kept[|kept| - Least(limit, |kept|)..] == Suffix(s, Least(limit, capacity))
  {
  }

  /** Remembering the newest entries of a log is remembering those of its remembered part. */
  lemma SuffixOfSuffix<T>(s: seq<T>, x: T, capacity: nat)
    ensures Suffix(Suffix(s, capacity) + [x], capacity) == Suffix(s + [x], capacity)
  {
  }

  lemma SuffixAt<T>(s: seq<T>, capacity: nat, limit: nat, i: nat)
    requires i < Least(limit, |Suffix(s, capacity)|)
    ensures var kept := Suffix(s, capacity);
            && |Suffix(s, Least(limit, capacity))| == Least(limit, |kept|)
            && Suffix(s, Least(limit, capacity))[i] == kept[|kept| - Least(limit, |kept|) + i]
  {
    var from := |s| - Least(Least(limit, capacity), |s|);
    assert s[from..][i] == s[from + i];
  }

  /** Entry i of the newest `limit` ones of a log that the ring holds the newest part of. */
  lemma NewestAt<T>(slots: seq<T>, head: nat, size: nat, log: seq<T>, limit: nat, i: nat)
    requires RingShape(|slots|, head, size) && Unroll(slots, head, size) == Suffix(log, |slots|)
    requires i < Least(limit, size)
    ensures |Suffix(log, Least(limit, |slots|))| == Least(limit, size)
    ensures slots[Wrap(Wrap(head + |slots| - Least(limit, size), |slots|) + i, |slots|)] == Suffix(log, Least(limit, |slots|))[i]
  {
    hide Suffix, Unroll, Wrap;
    SuffixAt(log, |slots|, limit, i);
    UnrollAt(slots, head, size, Least(limit, size), i);
  }
}
