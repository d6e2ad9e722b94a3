/**
 The leaderboard rankings: `nlargest(10, col)`, `nsmallest(10, col)` followed by
 `sort_values(col, ascending=False)`, and the 1-based `Rank` column.
 */
module Ranking {
  import opened Seqs

  /** Metric values never increase along the sequence. */
  predicate NonIncreasing<T>(s: seq<T>, m: T -> int) {
    forall i, j :: 0 <= i < j < |s| ==> m(s[i]) >= m(s[j])
  }

  /** Every row of `s` left out of `r` has a metric no larger than any row of `r`. */
  predicate DominatesRest<T(==)>(r: seq<T>, s: seq<T>, m: T -> int) {
    forall i, j :: 0 <= i < |s| && 0 <= j < |r| && multiset(r)[s[i]] < multiset(s)[s[i]] ==> m(s[i]) <= m(r[j])
  }

  /** Every row of `s` left out of `r` has a metric no smaller than any row of `r`. */
  predicate DominatedByRest<T(==)>(r: seq<T>, s: seq<T>, m: T -> int) {
    forall i, j :: 0 <= i < |s| && 0 <= j < |r| && multiset(r)[s[i]] < multiset(s)[s[i]] ==> m(r[j]) <= m(s[i])
  }

  /** The first position holding a largest metric. */
  function ArgMax<T>(s: seq<T>, m: T -> int): (k: nat)
    requires |s| > 0
    ensures k < |s|
    ensures forall j :: 0 <= j < |s| ==> m(s[j]) <= m(s[k])
    ensures forall j :: 0 <= j < k ==> m(s[j]) < m(s[k])
    decreases |s|
  {
    if |s| == 1 then 0
    else
      var k := ArgMax(s[1..], m);
      if m(s[0]) >= m(s[1 + k]) then 0 else 1 + k
  }

  function RemoveAt<T>(s: seq<T>, k: nat): (r: seq<T>)
    requires k < |s|
    ensures |r| == |s| - 1
    ensures multiset(r) + multiset{s[k]} == multiset(s)
  {
    assert s == s[..k] + [s[k]] + s[k + 1..];
    s[..k] + s[k + 1..]
  }

  /**
   `nlargest(n, metric)` with `keep='first'`: repeatedly take the earliest row
   with the largest metric among those not yet taken.
   */
  function Largest<T(==)>(s: seq<T>, n: nat, m: T -> int): (r: seq<T>)
    ensures |r| == Min(n, |s|)
    ensures multiset(r) <= multiset(s)
    ensures NonIncreasing(r, m)
    ensures DominatesRest(r, s, m)
    decreases n
  {
    if n == 0 || s == [] then []
    else
      var k := ArgMax(s, m);
      var rest := RemoveAt(s, k);
      var tail := Largest(rest, n - 1, m);
      LargestStep(s, k, rest, tail, m);
      [s[k]] + tail
  }

  lemma LargestStep<T>(s: seq<T>, k: nat, rest: seq<T>, tail: seq<T>, m: T -> int)
    requires k < |s|
    requires forall j :: 0 <= j < |s| ==> m(s[j]) <= m(s[k])
    requires multiset(rest) + multiset{s[k]} == multiset(s)
    requires multiset(tail) <= multiset(rest)
    requires NonIncreasing(tail, m)
    requires DominatesRest(tail, rest, m)
    ensures multiset([s[k]] + tail) <= multiset(s)
    ensures NonIncreasing([s[k]] + tail, m)
    ensures DominatesRest([s[k]] + tail, s, m)
  {
    var r := [s[k]] + tail;
    assert multiset(r) == multiset(tail) + multiset{s[k]};
    forall j | 0 <= j < |tail|
      ensures m(tail[j]) <= m(s[k])
    {
      assert tail[j] in multiset(tail);
      assert tail[j] in multiset(s);
    }
    forall i, j | 0 <= i < |s| && 0 <= j < |r| && multiset(r)[s[i]] < multiset(s)[s[i]]
      ensures m(s[i]) <= m(r[j])
    {
      if j > 0 {
        var x := s[i];
        assert multiset(tail)[x] < multiset(rest)[x];
        assert x in multiset(rest);
        var i' :| 0 <= i' < |rest| && rest[i'] == x;
        assert r[j] == tail[j - 1];
      }
    }
  }

  /** `nsmallest(n, metric)` with `keep='first'`: the largest by the negated metric. */
  function Smallest<T(==)>(s: seq<T>, n: nat, m: T -> int): (r: seq<T>)
    ensures |r| == Min(n, |s|)
    ensures multiset(r) <= multiset(s)
    ensures DominatedByRest(r, s, m)
  {
    var neg := (x: T) => -m(x);
    var r := Largest(s, n, neg);
    assert DominatesRest(r, s, neg);
    r
  }

  /** Insert into a non-increasing sequence, before the first row with a smaller metric. */
  function Insert<T(==)>(x: T, s: seq<T>, m: T -> int): (r: seq<T>)
    requires NonIncreasing(s, m)
    ensures multiset(r) == multiset(s) + multiset{x}
    ensures NonIncreasing(r, m)
    decreases |s|
  {
    if s == [] || m(x) >= m(s[0]) then [x] + s
    else
      var tail := Insert(x, s[1..], m);
      InsertStep(x, s, tail, m);
      [s[0]] + tail
  }

  lemma InsertStep<T>(x: T, s: seq<T>, tail: seq<T>, m: T -> int)
    requires s != [] && m(x) < m(s[0])
    requires NonIncreasing(s, m)
    requires multiset(tail) == multiset(s[1..]) + multiset{x}
    requires NonIncreasing(tail, m)
    ensures multiset([s[0]] + tail) == multiset(s) + multiset{x}
    ensures NonIncreasing([s[0]] + tail, m)
  {
    assert s == [s[0]] + s[1..];
    forall j | 0 <= j < |tail|
      ensures m(tail[j]) <= m(s[0])
    {
      assert tail[j] in multiset(tail);
      if tail[j] != x {
        assert tail[j] in multiset(s[1..]);
        var k :| 0 <= k < |s[1..]| && s[1..][k] == tail[j];
        assert s[k + 1] == tail[j];
      }
    }
  }

  /** `sort_values(metric, ascending=False)`: a non-increasing rearrangement. */
  function SortDescending<T(==)>(s: seq<T>, m: T -> int): (r: seq<T>)
    ensures multiset(r) == multiset(s)
    ensures NonIncreasing(r, m)
    decreases |s|
  {
    if s == [] then []
    else
      assert s == [s[0]] + s[1..];
      Insert(s[0], SortDescending(s[1..], m), m)
  }

  /** A row of a ranked table: `Rank` is the row position plus one. */
  datatype Ranked<T> = Ranked(rank: nat, row: T)

  function RowsOf<T>(r: seq<Ranked<T>>): (rows: seq<T>)
    ensures |rows| == |r|
    ensures forall i :: 0 <= i < |r| ==> rows[i] == r[i].row
  {
    seq(|r|, i requires 0 <= i < |r| => r[i].row)
  }

  /** `reset_index()` then `Rank = index + 1`. */
  function Rank<T>(s: seq<T>): (r: seq<Ranked<T>>)
    ensures RowsOf(r) == s
    ensures forall i :: 0 <= i < |r| ==> r[i].rank == i + 1
  {
    seq(|s|, i requires 0 <= i < |s| => Ranked(i + 1, s[i]))
  }

  /** How many rows a leaderboard table shows. */
  const BoardSize: nat := 10

  /**
   A top-ten table: at most ten rows, ranked 1..k, metric non-increasing, and no
   row left out has a larger metric than a row shown.
   */
  function TopTen<T(==)>(s: seq<T>, m: T -> int): (r: seq<Ranked<T>>)
    ensures |r| == Min(BoardSize, |s|)
    ensures forall i :: 0 <= i < |r| ==> r[i].rank == i + 1
    ensures multiset(RowsOf(r)) <= multiset(s)
    ensures NonIncreasing(RowsOf(r), m)
    ensures DominatesRest(RowsOf(r), s, m)
  {
    Rank(Largest(s, BoardSize, m))
  }

  /**
   A bottom-ten table: the ten smallest rows, shown in non-increasing order and
   ranked 1..k; no row left out has a smaller metric than a row shown.
   */
  function BottomTen<T(==)>(s: seq<T>, m: T -> int): (r: seq<Ranked<T>>)
    ensures |r| == Min(BoardSize, |s|)
    ensures forall i :: 0 <= i < |r| ==> r[i].rank == i + 1
    ensures multiset(RowsOf(r)) <= multiset(s)
    ensures NonIncreasing(RowsOf(r), m)
    ensures DominatedByRest(RowsOf(r), s, m)
  {
    var picked := Smallest(s, BoardSize, m);
    var shown := SortDescending(picked, m);
    assert |shown| == |picked| by {
      assert |multiset(shown)| == |multiset(picked)|;
    }
    assert DominatedByRest(shown, s, m) by {
      forall j | 0 <= j < |shown|
        ensures shown[j] in multiset(picked)
      {
        assert shown[j] in multiset(shown);
      }
      forall i, j | 0 <= i < |s| && 0 <= j < |shown| && multiset(shown)[s[i]] < multiset(s)[s[i]]
        ensures m(shown[j]) <= m(s[i])
      {
        var k :| 0 <= k < |picked| && picked[k] == shown[j];
      }
    }
    Rank(shown)
  }
}
