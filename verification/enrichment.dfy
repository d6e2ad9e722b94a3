/** Derived columns of the NFT table: `unique_id`, `short_owner`, `life_left`. */
module Enrichment {
  import opened Seqs
  import opened Decimal
  import opened Wrappers
  import opened Tables

  /** Length of the validity window, in days. */
  const LifeSpanDays: int := 365

  const Expired: string := "Expired"

  /**
   `shorten_address`: a string address becomes its first six characters, "...",
   and its last five (Python slices clamp, so short strings are kept whole on
   both sides); any other value passes through unchanged.
   */
  function ShortenAddress(o: Owner): (r: Owner)
    ensures o.NotAString? ==> r == o
    ensures o.Address? ==> r.Address?
    ensures o.Address? ==> |r.text| == Min(6, |o.text|) + 3 + Min(5, |o.text|)
    ensures o.Address? ==> r.text[..Min(6, |o.text|)] == o.text[..Min(6, |o.text|)]
    ensures o.Address? ==> r.text[Min(6, |o.text|)..Min(6, |o.text|) + 3] == "..."
    ensures o.Address? ==> r.text[|r.text| - Min(5, |o.text|)..] == o.text[|o.text| - Min(5, |o.text|)..]
  {
    match o
    case NotAString => o
    case Address(s) =>
      var head := Min(6, |s|);
      var tail := Min(5, |s|);
      Address(s[..head] + "..." + s[|s| - tail..])
  }

  /**
   `life_left`: the days remaining in the window, `365 - days`, rendered as a
   decimal string and capped at 365, or "Expired" when it is negative.
   */
  function LifeLeft(daysSinceMint: int): (r: string)
    ensures r == Expired <==> LifeSpanDays - daysSinceMint < 0
    ensures 0 <= LifeSpanDays - daysSinceMint ==>
      ParseInt(r) == Some(Min(LifeSpanDays - daysSinceMint, LifeSpanDays))
    ensures 0 <= LifeSpanDays - daysSinceMint ==> AllDigits(r) && (1 < |r| ==> r[0] != '0')
    ensures ParseInt(r).Some? ==> 0 <= ParseInt(r).value <= LifeSpanDays
  {
    var left := LifeSpanDays - daysSinceMint;
    if left >= 0 then
      var shown := Min(left, LifeSpanDays);
      ParseIntToString(shown);
      IntToString(shown)
    else
      assert ParseInt(Expired) == None by {
        assert !IsDigit(Expired[0]);
      }
      Expired
  }

  /** The enrichment step: row position plus one, shortened owner, life left. */
  function Enrich(rows: seq<RawNft>): (r: seq<Nft>)
    ensures |r| == |rows|
    ensures forall i :: 0 <= i < |r| ==> r[i].raw == rows[i] && r[i].uniqueId == i + 1
    ensures forall i :: 0 <= i < |r| ==>
      r[i].shortOwner == ShortenAddress(rows[i].owner) && r[i].lifeLeft == LifeLeft(rows[i].daysSinceMint)
  {
    seq(|rows|, i requires 0 <= i < |rows| =>
      Nft(rows[i], i + 1, ShortenAddress(rows[i].owner), LifeLeft(rows[i].daysSinceMint)))
  }

  function Ids(nfts: seq<Nft>): set<int> {
    set n | n in nfts :: n.uniqueId as int
  }

  /** The ids of an enriched table are exactly 1..N, one per row. */
  lemma EnrichIdsOneToN(rows: seq<RawNft>)
    ensures forall k :: k in Ids(Enrich(rows)) <==> 1 <= k <= |rows|
    ensures DistinctBy(Enrich(rows), (n: Nft) => n.uniqueId)
  {
    var r := Enrich(rows);
    forall k | 1 <= k <= |rows|
      ensures k in Ids(r)
    {
      assert r[k - 1] in r;
    }
  }

  /** The string join keys of an enriched table are pairwise distinct. */
  lemma EnrichKeysDistinct(rows: seq<RawNft>)
    ensures DistinctBy(Enrich(rows), IdKey)
  {
    var r := Enrich(rows);
    forall i, j | 0 <= i < j < |r|
      ensures IdKey(r[i]) != IdKey(r[j])
    {
      IntToStringInjective(r[i].uniqueId, r[j].uniqueId);
    }
  }

  /** A key string belongs to the enriched table exactly when it renders a position 1..N. */
  lemma EnrichKeyMatch(rows: seq<RawNft>, row: int)
    ensures (exists n :: n in Enrich(rows) && IdKey(n) == IntToString(row)) <==> 1 <= row <= |rows|
  {
    var r := Enrich(rows);
    if 1 <= row <= |rows| {
      assert r[row - 1] in r && IdKey(r[row - 1]) == IntToString(row);
    }
    forall n | n in r && IdKey(n) == IntToString(row)
      ensures 1 <= row <= |rows|
    {
      IntToStringInjective(n.uniqueId, row);
    }
  }
}
