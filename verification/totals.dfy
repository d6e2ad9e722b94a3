/**
 The dashboard's headline figures: `drop_duplicates(subset=['Virtual Block'])`
 over the joined rows, then the number of distinct blocks and the reward sum.
 */
module Totals {
  import opened Seqs
  import opened Tables

  function BlockOf(j: Joined): int {
    j.win.block
  }

  /** The distinct `Virtual Block` values of some joined rows. */
  function Blocks(rows: seq<Joined>): set<int> {
    set j | j in rows :: BlockOf(j)
  }

  lemma BlocksConcat(a: seq<Joined>, b: seq<Joined>)
    ensures Blocks(a + b) == Blocks(a) + Blocks(b)
  {
    forall v | v in Blocks(a + b)
      ensures v in Blocks(a) + Blocks(b)
    {
      var j :| j in a + b && BlockOf(j) == v;
      assert j in a || j in b;
    }
  }

  /** Sum of `Reward (BASE)` over joined rows. */
  function RewardSum(rows: seq<Joined>): int
    decreases |rows|
  {
    if rows == [] then 0 else rows[0].win.reward + RewardSum(rows[1..])
  }

  /** Keep-first de-duplication, given the blocks already seen. */
  function DedupFrom(rows: seq<Joined>, seen: set<int>): (r: seq<Joined>)
    ensures IsSubsequence(r, rows)
    ensures DistinctBy(r, BlockOf)
    ensures forall i :: 0 <= i < |r| ==> BlockOf(r[i]) !in seen
    ensures Blocks(r) == Blocks(rows) - seen
    decreases |rows|
  {
    if rows == [] then []
    else if BlockOf(rows[0]) in seen then DedupFrom(rows[1..], seen)
    else
      var rest := DedupFrom(rows[1..], seen + {BlockOf(rows[0])});
      BlocksConcat([rows[0]], rest);
      BlocksConcat([rows[0]], rows[1..]);
      assert rows == [rows[0]] + rows[1..];
      [rows[0]] + rest
  }

  /** `drop_duplicates(subset=['Virtual Block'])`: the first row of each block, in order. */
  function DropDuplicateBlocks(rows: seq<Joined>): (r: seq<Joined>)
    ensures IsSubsequence(r, rows)
    ensures DistinctBy(r, BlockOf)
    ensures Blocks(r) == Blocks(rows)
  {
    DedupFrom(rows, {})
  }

  /** `Total Wins`: the number of distinct blocks among the de-duplicated rows. */
  function TotalWins(rows: seq<Joined>): (n: nat)
    ensures n == |Blocks(rows)|
    ensures n <= |rows|
  {
    var unique := DropDuplicateBlocks(rows);
    DistinctBlocksCount(unique);
    IsSubsequenceLength(unique, rows);
    |Blocks(unique)|
  }

  /** Total rewards: the rewards of the first row of each block. Without repeated blocks, the plain sum. */
  function TotalRewards(rows: seq<Joined>): (r: int)
    ensures DistinctBy(rows, BlockOf) ==> r == RewardSum(rows)
  {
    if DistinctBy(rows, BlockOf) then
      DistinctDedupFrom(rows, {});
      RewardSum(DropDuplicateBlocks(rows))
    else
      RewardSum(DropDuplicateBlocks(rows))
  }

  lemma {:induction false} IsSubsequenceLength<T>(a: seq<T>, b: seq<T>)
    requires IsSubsequence(a, b)
    ensures |a| <= |b|
    decreases |b|
  {
    if a != [] {
      if IsSubsequence(a, b[1..]) {
        IsSubsequenceLength(a, b[1..]);
      } else {
        IsSubsequenceLength(a[1..], b[1..]);
      }
    }
  }

  /** Rows with pairwise distinct blocks have as many blocks as rows. */
  lemma {:induction false} DistinctBlocksCount(rows: seq<Joined>)
    requires DistinctBy(rows, BlockOf)
    ensures |Blocks(rows)| == |rows|
    decreases |rows|
  {
    if rows != [] {
      DistinctBlocksCount(rows[1..]);
      assert Blocks(rows) == {BlockOf(rows[0])} + Blocks(rows[1..]);
      assert BlockOf(rows[0]) !in Blocks(rows[1..]) by {
        forall j | j in rows[1..]
          ensures BlockOf(j) != BlockOf(rows[0])
        {
          var k :| 0 <= k < |rows[1..]| && rows[1..][k] == j;
          assert rows[k + 1] == j;
        }
      }
    }
  }

  lemma RewardSumConcat(a: seq<Joined>, b: seq<Joined>)
    ensures RewardSum(a + b) == RewardSum(a) + RewardSum(b)
    decreases |a|
  {
    if a == [] {
      assert a + b == b;
    } else {
      assert (a + b)[1..] == a[1..] + b;
      RewardSumConcat(a[1..], b);
    }
  }

  lemma {:induction false} DedupFromSnoc(rows: seq<Joined>, seen: set<int>, x: Joined)
    ensures DedupFrom(rows + [x], seen) ==
      if BlockOf(x) in seen + Blocks(rows) then DedupFrom(rows, seen) else DedupFrom(rows, seen) + [x]
    decreases |rows|
  {
    if rows == [] {
      assert DedupFrom([x], seen) == if BlockOf(x) in seen then [] else [x];
    } else {
      var r0 := rows[0];
      assert (rows + [x])[0] == r0;
      assert (rows + [x])[1..] == rows[1..] + [x];
      assert Blocks(rows) == {BlockOf(r0)} + Blocks(rows[1..]);
      if BlockOf(r0) in seen {
        DedupFromSnoc(rows[1..], seen, x);
      } else {
        DedupFromSnoc(rows[1..], seen + {BlockOf(r0)}, x);
      }
    }
  }

  /** Appending a winner row adds one win exactly when its block is new. */
  lemma AppendRowWins(rows: seq<Joined>, x: Joined)
    ensures BlockOf(x) in Blocks(rows) ==> TotalWins(rows + [x]) == TotalWins(rows)
    ensures BlockOf(x) !in Blocks(rows) ==> TotalWins(rows + [x]) == TotalWins(rows) + 1
  {
    var before := Blocks(rows);
    BlocksConcat(rows, [x]);
    assert Blocks([x]) == {BlockOf(x)};
    assert Blocks(rows + [x]) == before + {BlockOf(x)};
    assert TotalWins(rows) == |before|;
    if BlockOf(x) in before {
      assert before + {BlockOf(x)} == before;
    } else {
      assert |before + {BlockOf(x)}| == |before| + 1;
    }
  }

  /**
   Appending a winner row whose block was already counted leaves the reward
   total unchanged; a row with a new block adds exactly its own reward.
   */
  lemma AppendRowRewards(rows: seq<Joined>, x: Joined)
    ensures BlockOf(x) in Blocks(rows) ==> TotalRewards(rows + [x]) == TotalRewards(rows)
    ensures BlockOf(x) !in Blocks(rows) ==> TotalRewards(rows + [x]) == TotalRewards(rows) + x.win.reward
  {
    DedupFromSnoc(rows, {}, x);
    var unique := DropDuplicateBlocks(rows);
    if BlockOf(x) !in Blocks(rows) {
      assert DropDuplicateBlocks(rows + [x]) == unique + [x];
      RewardSumConcat(unique, [x]);
      assert RewardSum([x]) == x.win.reward;
    }
  }

  /** When no block repeats, de-duplication keeps every row and the reward total is the plain sum. */
  lemma {:induction false} DistinctRowsTotals(rows: seq<Joined>)
    requires DistinctBy(rows, BlockOf)
    ensures DropDuplicateBlocks(rows) == rows
    ensures TotalWins(rows) == |rows|
    ensures TotalRewards(rows) == RewardSum(rows)
  {
    DistinctDedupFrom(rows, {});
    DistinctBlocksCount(rows);
  }

  lemma {:induction false} DistinctDedupFrom(rows: seq<Joined>, seen: set<int>)
    requires DistinctBy(rows, BlockOf)
    requires forall i :: 0 <= i < |rows| ==> BlockOf(rows[i]) !in seen
    ensures DedupFrom(rows, seen) == rows
    decreases |rows|
  {
    if rows != [] {
      DistinctDedupFrom(rows[1..], seen + {BlockOf(rows[0])});
    }
  }
}
