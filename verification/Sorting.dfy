/** Stable insertion sort, standing in for the library's sorts. */
module Sorting {

  /** `x` goes behind the last element it is not before. */
  function Insert<T(!new)>(before: (T, T) -> bool, v: seq<T>, x: T): seq<T> {
    if v == [] then [x]
    else if before(x, v[|v| - 1]) then Insert(before, v[..|v| - 1], x) + [v[|v| - 1]]
    else v + [x]
  }

  function Sort<T(!new)>(before: (T, T) -> bool, v: seq<T>): seq<T> {
    if v == [] then [] else Insert(before, Sort(before, v[..|v| - 1]), v[|v| - 1])
  }

  lemma {:induction false} InsertAdds<T(!new)>(before: (T, T) -> bool, v: seq<T>, x: T)
    ensures multiset(Insert(before, v, x)) == multiset(v) + multiset{x}
  {
    if v != [] {
      var n := |v| - 1;
      assert v == v[..n] + [v[n]];
      InsertAdds(before, v[..n], x);
    }
  }

  lemma {:induction false} SortPermutes<T(!new)>(before: (T, T) -> bool, v: seq<T>)
    ensures multiset(Sort(before, v)) == multiset(v) && |Sort(before, v)| == |v|
    ensures forall x :: x in Sort(before, v) <==> x in v
  {
    if v != [] {
      var n := |v| - 1;
      assert v == v[..n] + [v[n]];
      SortPermutes(before, v[..n]);
      InsertAdds(before, Sort(before, v[..n]), v[n]);
    }
    assert |multiset(Sort(before, v))| == |multiset(v)|;
    forall x ensures x in Sort(before, v) <==> x in v {
      assert x in Sort(before, v) <==> x in multiset(Sort(before, v));
    }
  }

  ghost predicate Ordered<T(!new)>(order: (T, T) -> bool, v: seq<T>) {
    forall i, j | 0 <= i < j < |v| :: order(v[i], v[j])
  }

  /** Transitive on the elements of `pool`. */
  ghost predicate Transitive<T(!new)>(order: (T, T) -> bool, pool: seq<T>) {
    forall a, b, c | a in pool && b in pool && c in pool && order(a, b) && order(b, c) :: order(a, c)
  }

  ghost predicate Within<T(!new)>(v: seq<T>, pool: seq<T>) {
    forall y | y in v :: y in pool
  }

  /** `order` refines `before` for an element that comes after those of `v` in the input. */
  ghost predicate Decides<T(!new)>(before: (T, T) -> bool, order: (T, T) -> bool, v: seq<T>, x: T) {
    forall y | y in v :: if before(x, y) then order(x, y) else order(y, x)
  }

  lemma AppendOrders<T(!new)>(order: (T, T) -> bool, v: seq<T>, x: T)
    requires Ordered(order, v) && forall y | y in v :: order(y, x)
    ensures Ordered(order, v + [x])
  {
    var w := v + [x];
    forall i, j | 0 <= i < j < |w| ensures order(w[i], w[j]) {
      assert w[i] == v[i] && v[i] in v;
      assert j < |v| ==> w[j] == v[j];
    }
  }

  lemma PrefixOrders<T(!new)>(order: (T, T) -> bool, front: seq<T>, last: T)
    requires Ordered(order, front + [last])
    ensures Ordered(order, front)
    ensures forall y | y in front :: order(y, last)
  {
    var v := front + [last];
    forall i, j | 0 <= i < j < |front| ensures order(front[i], front[j]) {
      assert order(v[i], v[j]);
    }
    forall y | y in front ensures order(y, last) {
      var k :| 0 <= k < |front| && front[k] == y;
      assert order(v[k], v[|front|]);
    }
  }

  lemma DecidesForFewer<T(!new)>(before: (T, T) -> bool, order: (T, T) -> bool, v: seq<T>, w: seq<T>, x: T)
    requires Decides(before, order, v, x) && Within(w, v)
    ensures Decides(before, order, w, x)
  {
  }

  lemma InsertSnoc<T(!new)>(before: (T, T) -> bool, front: seq<T>, last: T, x: T)
    ensures Insert(before, front + [last], x) ==
            if before(x, last) then Insert(before, front, x) + [last] else front + [last] + [x]
  {
    assert (front + [last])[..|front|] == front;
  }

  lemma InsertMembers<T(!new)>(before: (T, T) -> bool, v: seq<T>, x: T, y: T)
    ensures y in Insert(before, v, x) <==> y in v || y == x
  {
    hide Insert;
    InsertAdds(before, v, x);
    assert y in Insert(before, v, x) <==> y in multiset(Insert(before, v, x));
    assert y in v <==> y in multiset(v);
  }

  /** An element before the last one goes in front of it. */
  lemma InsertBeforeLast<T(!new)>(before: (T, T) -> bool, order: (T, T) -> bool, front: seq<T>, last: T, x: T)
    requires Ordered(order, Insert(before, front, x)) && order(x, last) && forall y | y in front :: order(y, last)
    ensures Ordered(order, Insert(before, front, x) + [last])
  {
    hide Ordered, Insert;
    var rest := Insert(before, front, x);
    forall y | y in rest ensures order(y, last) { InsertMembers(before, front, x, y); }
    AppendOrders(order, rest, last);
  }

  /** An element that is not goes behind it, and behind all others. */
  lemma InsertAtEnd<T(!new)>(order: (T, T) -> bool, v: seq<T>, last: T, x: T, pool: seq<T>)
    requires Ordered(order, v) && Transitive(order, pool) && Within(v, pool) && last in v && x in pool
    requires order(last, x) && forall y | y in v && y != last :: order(y, last)
    ensures Ordered(order, v + [x])
  {
    forall y | y in v ensures order(y, x) {
      if y != last { assert order(y, last) && order(last, x); }
    }
    hide Ordered, Transitive;
    AppendOrders(order, v, x);
  }

  lemma {:induction false} InsertOrders<T(!new)>(before: (T, T) -> bool, order: (T, T) -> bool, v: seq<T>, x: T, pool: seq<T>)
    requires Ordered(order, v) && Decides(before, order, v, x)
    requires Transitive(order, pool) && Within(v, pool) && x in pool
    ensures Ordered(order, Insert(before, v, x))
    decreases |v|
  {
    hide Decides, Transitive, Within;
    if v == [] {
    } else {
      var n := |v| - 1;
      var front, last := v[..n], v[n];
      assert v == front + [last] && forall y | y in v && y != last :: y in front;
      InsertStep(before, order, front, last, x, pool);
      if before(x, last) {
        InsertOrders(before, order, front, x, pool);
        InsertSnoc(before, front, last, x);
        InsertBeforeLast(before, order, front, last, x);
      } else {
        InsertSnoc(before, front, last, x);
        InsertAtEnd(order, v, last, x, pool);
      }
    }
  }

  /** What is known of the last element and of those in front of it. */
  lemma InsertStep<T(!new)>(before: (T, T) -> bool, order: (T, T) -> bool, front: seq<T>, last: T, x: T, pool: seq<T>)
    requires Ordered(order, front + [last]) && Decides(before, order, front + [last], x) && Within(front + [last], pool)
    ensures Ordered(order, front) && Decides(before, order, front, x) && Within(front, pool)
    ensures last in pool && forall y | y in front :: order(y, last)
    ensures if before(x, last) then order(x, last) else order(last, x)
  {
    PrefixOrders(order, front, last);
    assert last in front + [last] && forall y | y in front :: y in front + [last];
  }

  /** The result is ordered by any transitive relation that decides every pair as `before` does,
      ties in favour of the earlier element. */
  lemma {:induction false} SortOrders<T(!new)>(before: (T, T) -> bool, order: (T, T) -> bool, v: seq<T>, pool: seq<T>)
    requires Transitive(order, pool) && Within(v, pool)
    requires forall k | 0 <= k < |v| :: Decides(before, order, v[..k], v[k])
    ensures Ordered(order, Sort(before, v))
    decreases |v|
  {
    hide Ordered, Insert, Decides, Transitive;
    if v == [] {
      NothingIsOrdered(order);
    } else {
      var n := |v| - 1;
      var front := v[..n];
      assert v[n] in v && Within(front, v) && Within(front, pool);
      forall k | 0 <= k < n ensures Decides(before, order, front[..k], front[k]) {
        assert front[..k] == v[..k];
      }
      SortOrders(before, order, front, pool);
      SortWithin(before, front, pool);
      DecidesForFewer(before, order, front, Sort(before, front), v[n]);
      InsertOrders(before, order, Sort(before, front), v[n], pool);
    }
  }

  lemma SortWithin<T(!new)>(before: (T, T) -> bool, v: seq<T>, pool: seq<T>)
    requires Within(v, pool)
    ensures Within(Sort(before, v), v) && Within(Sort(before, v), pool)
  {
    SortPermutes(before, v);
  }

  lemma NothingIsOrdered<T(!new)>(order: (T, T) -> bool)
    ensures Ordered(order, [])
  {
  }
}
