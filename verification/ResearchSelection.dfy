/** Selection of a trial from the leaderboard. */
module ResearchSelection {
  import opened Wrappers
  import opened Sorting
  import opened Reals

  /** What the ranking looks at; scores are finite. `id` is the position of the trial. */
  datatype TrialResult = TrialResult(
    id: nat, eligible: bool, validationScore: real, deflatedSharpe: real, stability: real, overfitGap: real)

  /** The comparison of the runner's sort. */
  predicate Better(a: TrialResult, b: TrialResult) {
    if a.eligible != b.eligible then a.eligible
    else if a.validationScore != b.validationScore then a.validationScore > b.validationScore
    else if a.deflatedSharpe != b.deflatedSharpe then a.deflatedSharpe > b.deflatedSharpe
    else if a.stability != b.stability then a.stability > b.stability
    else Abs(a.overfitGap) < Abs(b.overfitGap)
  }

  /** What the comparison looks at, the most important first; more is better. */
  function Merits(t: TrialResult): seq<real> {
    [if t.eligible then 1.0 else 0.0, t.validationScore, t.deflatedSharpe, t.stability, -Abs(t.overfitGap)]
  }

  /** At the first place where they differ, a has more. */
  ghost predicate Exceeds(a: seq<real>, b: seq<real>)
    requires |a| == |b|
  {
    exists i :: 0 <= i < |a| && a[i] > b[i] && a[..i] == b[..i]
  }

  /** The comparison is the lexicographic one of the merits. */
  lemma BetterIsLexicographic(a: TrialResult, b: TrialResult)
    ensures Better(a, b) <==> Exceeds(Merits(a), Merits(b))
  {
    hide Abs;
    var x, y := Merits(a), Merits(b);
    FirstDifference(x, y);
    if a.eligible == b.eligible && a.validationScore == b.validationScore && a.deflatedSharpe == b.deflatedSharpe
       && a.stability == b.stability {
      assert x[..4] == y[..4];
    }
  }

  lemma FirstDifference(x: seq<real>, y: seq<real>)
    requires |x| == |y| == 5
    ensures Exceeds(x, y) <==>
            || x[0] > y[0]
            || (x[0] == y[0] && x[1] > y[1])
            || (x[0] == y[0] && x[1] == y[1] && x[2] > y[2])
            || (x[0] == y[0] && x[1] == y[1] && x[2] == y[2] && x[3] > y[3])
            || (x[0] == y[0] && x[1] == y[1] && x[2] == y[2] && x[3] == y[3] && x[4] > y[4])
  {
    if Exceeds(x, y) {
      var i :| 0 <= i < |x| && x[i] > y[i] && x[..i] == y[..i];
      forall j | 0 <= j < i ensures x[j] == y[j] { assert x[..i][j] == y[..i][j]; }
    }
    assert x[..0] == y[..0];
    assert x[0] == y[0] ==> x[..1] == y[..1];
    assert x[0] == y[0] && x[1] == y[1] ==> x[..2] == y[..2];
    assert x[0] == y[0] && x[1] == y[1] && x[2] == y[2] ==> x[..3] == y[..3];
    assert x[0] == y[0] && x[1] == y[1] && x[2] == y[2] && x[3] == y[3] ==> x[..4] == y[..4];
  }

  /** Better, or equally good and earlier. */
  predicate Precedes(a: TrialResult, b: TrialResult) {
    Better(a, b) || (!Better(b, a) && a.id < b.id)
  }

  ghost predicate Numbered(results: seq<TrialResult>) {
    forall i | 0 <= i < |results| :: results[i].id == i + 1
  }

  method Leaderboard(results: seq<TrialResult>, size: nat) returns (board: seq<TrialResult>)
    requires Numbered(results)
    ensures |board| == if size < |results| then size else |results|
    ensures board <= Sort(Better, results)
    ensures Ordered(Precedes, board)
  {
    board := Sort(Better, results);
    RankingIsOrdered(results);
    SortPermutes(Better, results);
    if |board| > size { board := board[..size]; }
  }

  lemma RankingIsOrdered(results: seq<TrialResult>)
    requires Numbered(results)
    ensures Ordered(Precedes, Sort(Better, results))
  {
    assert Transitive(Precedes, results) by {
      forall a, b, c | a in results && b in results && c in results && Precedes(a, b) && Precedes(b, c)
        ensures Precedes(a, c)
      {
        PrecedesIsTransitive(a, b, c);
      }
    }
    forall k | 0 <= k < |results| ensures Decides(Better, Precedes, results[..k], results[k]) {
      forall y | y in results[..k]
        ensures if Better(results[k], y) then Precedes(results[k], y) else Precedes(y, results[k])
      {
        var i :| 0 <= i < k && results[i] == y;
      }
    }
    SortOrders(Better, Precedes, results, results);
  }

  lemma PrecedesIsTransitive(a: TrialResult, b: TrialResult, c: TrialResult)
    requires Precedes(a, b) && Precedes(b, c)
    ensures Precedes(a, c)
  {
  }

  /** The first eligible trial of the leaderboard, if there is one; the holdout is evaluated
      for it and only for it. */
  method Select(results: seq<TrialResult>, size: nat) returns (selected: Option<TrialResult>)
    requires Numbered(results) && size >= 1
    ensures selected.Some? <==> exists t :: t in results && t.eligible
    ensures selected.Some? ==> Best(results, selected.value)
  {
    var board := Leaderboard(results, size);
    SortPermutes(Better, results);
    for i := 0 to |board|
      invariant forall k | 0 <= k < i :: !board[k].eligible
    {
      if board[i].eligible {
        FirstEligibleIsFirst(results, board, i);
        return Some(board[i]);
      }
    }
    if board != [] {
      RankingIsOrdered(results);
      NoneEligible(results, board[0]);
    }
    return None;
  }

  /** The lexicographically best of the eligible trials, the earliest of them if several tie. */
  ghost predicate Best(results: seq<TrialResult>, t: TrialResult) {
    t in results && t.eligible && forall o | o in results && o != t :: Precedes(t, o)
  }

  lemma FirstEligibleIsFirst(results: seq<TrialResult>, board: seq<TrialResult>, i: nat)
    requires Numbered(results) && board <= Sort(Better, results) && Ordered(Precedes, board)
    requires i < |board| && board[i].eligible
    ensures board[0].eligible && Best(results, board[0])
  {
    RankingIsOrdered(results);
    SortPermutes(Better, results);
    var ranked := Sort(Better, results);
    assert board[0] == ranked[0];
    if i > 0 { assert Precedes(board[0], board[i]); }
    assert ranked[0] in ranked;
    forall o | o in results && o != ranked[0] ensures Precedes(ranked[0], o) {
      assert o in ranked;
      var k :| 0 <= k < |ranked| && ranked[k] == o;
    }
  }

  lemma NoneEligible(results: seq<TrialResult>, first: TrialResult)
    requires Sort(Better, results) != [] && first == Sort(Better, results)[0] && !first.eligible
    requires Ordered(Precedes, Sort(Better, results))
    ensures forall t | t in results :: !t.eligible
  {
    SortPermutes(Better, results);
    var ranked := Sort(Better, results);
    forall t | t in results ensures !t.eligible {
      assert t in ranked;
      var k :| 0 <= k < |ranked| && ranked[k] == t;
      assert k == 0 || Precedes(ranked[0], ranked[k]);
    }
  }

  /** There is at most one such trial, so the size of the leaderboard cannot matter. */
  lemma BestIsUnique(results: seq<TrialResult>, t: TrialResult, u: TrialResult)
    requires Best(results, t) && Best(results, u)
    ensures t == u
  {
    assert !(Precedes(t, u) && Precedes(u, t));
  }
}
