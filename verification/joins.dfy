/**
 The join between winner rows and NFT rows on the string-normalised row id,
 and the check that reports winner rows no NFT row answers to.
 */
module Joins {
  import opened Seqs
  import opened Tables
  import opened Enrichment

  /** The `unique_id` strings of an NFT table. */
  function Keys(nfts: seq<Nft>): set<string> {
    set n | n in nfts :: IdKey(n)
  }

  /** `winner_list['Winner (Row)'].isin(nft_details['unique_id'])` for one row. */
  predicate Matched(nfts: seq<Nft>, w: Winner) {
    RowKey(w) in Keys(nfts)
  }

  /** The selection mask of matched winner rows. */
  function MatchedIn(nfts: seq<Nft>): Winner -> bool {
    w => Matched(nfts, w)
  }

  /**
   The rows the load step warns about: winner rows whose row string names no
   NFT, in their original order. The winner table itself is left as it was.
   */
  function UnmatchedWinners(winners: seq<Winner>, nfts: seq<Nft>): (r: seq<Winner>)
    ensures IsSubsequence(r, winners)
    ensures forall i, n :: 0 <= i < |r| && n in nfts ==> IdKey(n) != RowKey(r[i])
    ensures forall i :: 0 <= i < |winners| && (forall n :: n in nfts ==> IdKey(n) != RowKey(winners[i])) ==>
      winners[i] in r
    ensures forall i :: 0 <= i < |winners| ==>
      multiset(r)[winners[i]] == if Matched(nfts, winners[i]) then 0 else multiset(winners)[winners[i]]
  {
    var unmatched := (w: Winner) => !Matched(nfts, w);
    FilterCounts(winners, unmatched);
    Filter(winners, unmatched)
  }

  /** Against an enriched table, a winner row is reported exactly when its row number lies outside 1..N. */
  lemma UnmatchedAgainstEnriched(winners: seq<Winner>, rows: seq<RawNft>, w: Winner)
    ensures w in UnmatchedWinners(winners, Enrich(rows)) <==> w in winners && !(1 <= w.row <= |rows|)
  {
    var nfts := Enrich(rows);
    EnrichKeyMatch(rows, w.row);
    if w in winners && !(1 <= w.row <= |rows|) {
      assert !Matched(nfts, w);
    }
  }

  /** The NFT rows answering to one winner row, joined to it, in NFT order. */
  function JoinOne(w: Winner, nfts: seq<Nft>): (r: seq<Joined>)
    ensures forall j :: j in r ==> j.win == w && j.nft in nfts && IdKey(j.nft) == RowKey(w)
    ensures forall n :: n in nfts && IdKey(n) == RowKey(w) ==> Joined(w, n) in r
    decreases |nfts|
  {
    if nfts == [] then []
    else (if IdKey(nfts[0]) == RowKey(w) then [Joined(w, nfts[0])] else []) + JoinOne(w, nfts[1..])
  }

  /** `winner_list.merge(nfts, left_on='Winner (Row)', right_on='unique_id', how='inner')`,
      taken to keep the order of the winner rows. */
  function InnerJoin(winners: seq<Winner>, nfts: seq<Nft>): (r: seq<Joined>)
    ensures forall j :: j in r <==> j.win in winners && j.nft in nfts && IdKey(j.nft) == RowKey(j.win)
    decreases |winners|
  {
    if winners == [] then [] else JoinOne(winners[0], nfts) + InnerJoin(winners[1..], nfts)
  }

  /** The winner column of joined rows. */
  function WinnersOf(js: seq<Joined>): (r: seq<Winner>)
    ensures |r| == |js|
    ensures forall i :: 0 <= i < |js| ==> r[i] == js[i].win
  {
    seq(|js|, i requires 0 <= i < |js| => js[i].win)
  }

  lemma WinnersOfConcat(a: seq<Joined>, b: seq<Joined>)
    ensures WinnersOf(a + b) == WinnersOf(a) + WinnersOf(b)
  {
  }

  lemma JoinOneEmpty(w: Winner, nfts: seq<Nft>)
    requires !Matched(nfts, w)
    ensures JoinOne(w, nfts) == []
  {
  }

  lemma {:induction false} JoinOneSingle(w: Winner, nfts: seq<Nft>)
    requires DistinctBy(nfts, IdKey)
    requires Matched(nfts, w)
    ensures |JoinOne(w, nfts)| == 1
    decreases |nfts|
  {
    if IdKey(nfts[0]) == RowKey(w) {
      assert !Matched(nfts[1..], w) by {
        forall n | n in nfts[1..]
          ensures IdKey(n) != RowKey(w)
        {
          var k :| 0 <= k < |nfts[1..]| && nfts[1..][k] == n;
          assert IdKey(nfts[0]) != IdKey(nfts[k + 1]);
        }
      }
      JoinOneEmpty(w, nfts[1..]);
    } else {
      assert Matched(nfts[1..], w) by {
        var n :| n in nfts && IdKey(n) == RowKey(w);
        assert n != nfts[0];
        assert n in nfts[1..];
      }
      JoinOneSingle(w, nfts[1..]);
    }
  }

  /**
   With distinct NFT ids (as enrichment guarantees), the inner join holds one
   row per matched winner row, in winner order: the unmatched rows are exactly
   the ones that drop out.
   */
  lemma {:induction false} JoinKeepsMatchedWinners(winners: seq<Winner>, nfts: seq<Nft>)
    requires DistinctBy(nfts, IdKey)
    ensures WinnersOf(InnerJoin(winners, nfts)) == Filter(winners, MatchedIn(nfts))
    decreases |winners|
  {
    if winners != [] {
      var w := winners[0];
      JoinKeepsMatchedWinners(winners[1..], nfts);
      var head := JoinOne(w, nfts);
      var tail := InnerJoin(winners[1..], nfts);
      WinnersOfConcat(head, tail);
      if Matched(nfts, w) {
        JoinOneSingle(w, nfts);
        assert head[0] in head;
        assert WinnersOf(head) == [w];
        assert Filter(winners, MatchedIn(nfts)) == [w] + Filter(winners[1..], MatchedIn(nfts));
      } else {
        JoinOneEmpty(w, nfts);
        assert Filter(winners, MatchedIn(nfts)) == Filter(winners[1..], MatchedIn(nfts));
      }
    }
  }

  /** Removing the reported rows before joining changes nothing: they never join. */
  lemma {:induction false} JoinIgnoresUnmatched(winners: seq<Winner>, nfts: seq<Nft>)
    ensures InnerJoin(Filter(winners, MatchedIn(nfts)), nfts) == InnerJoin(winners, nfts)
    decreases |winners|
  {
    if winners != [] {
      JoinIgnoresUnmatched(winners[1..], nfts);
      if !Matched(nfts, winners[0]) {
        JoinOneEmpty(winners[0], nfts);
      }
    }
  }

  /** A row predicate on NFTs, read on the NFT half of joined rows. */
  function OnNft(p: Nft -> bool): Joined -> bool {
    (j: Joined) => p(j.nft)
  }

  lemma {:induction false} JoinOneFilter(w: Winner, nfts: seq<Nft>, p: Nft -> bool)
    ensures JoinOne(w, Filter(nfts, p)) == Filter(JoinOne(w, nfts), OnNft(p))
    decreases |nfts|
  {
    if nfts != [] {
      JoinOneFilter(w, nfts[1..], p);
      var head := if IdKey(nfts[0]) == RowKey(w) then [Joined(w, nfts[0])] else [];
      FilterConcat(head, JoinOne(w, nfts[1..]), OnNft(p));
    }
  }

  /** Joining against a selection of NFT rows is selecting from the full join:
      filtering the NFT table and joining commute. */
  lemma {:induction false} JoinFilterCommute(winners: seq<Winner>, nfts: seq<Nft>, p: Nft -> bool)
    ensures InnerJoin(winners, Filter(nfts, p)) == Filter(InnerJoin(winners, nfts), OnNft(p))
    decreases |winners|
  {
    if winners != [] {
      JoinFilterCommute(winners[1..], nfts, p);
      JoinOneFilter(winners[0], nfts, p);
      FilterConcat(JoinOne(winners[0], nfts), InnerJoin(winners[1..], nfts), OnNft(p));
    }
  }
}
