/**
 The "Dashboard" page: load-time enrichment and the unmatched-row check, the
 two filters, the filtered join with its headline totals, and the two pie
 tables (rewards by equipment or boost, NFT count by shortened owner).
 */
module Dashboard {
  import opened Seqs
  import opened Tables
  import opened Enrichment
  import opened Joins
  import opened Filters
  import opened Totals
  import opened Grouping

  /** The tables after loading: the enriched NFT rows, and the winner rows the
      warning lists. The winner table itself is used unchanged downstream. */
  datatype Loaded = Loaded(nfts: seq<Nft>, winners: seq<Winner>, unmatched: seq<Winner>)

  function Load(raw: seq<RawNft>, winners: seq<Winner>): (l: Loaded)
    ensures l.nfts == Enrich(raw)
    ensures |l.nfts| == |raw|
    ensures l.winners == winners
    ensures DistinctBy(l.nfts, IdKey)
    ensures l.unmatched == UnmatchedWinners(winners, l.nfts)
    ensures forall w :: w in l.unmatched <==> w in winners && !(1 <= w.row <= |raw|)
  {
    var nfts := Enrich(raw);
    EnrichKeysDistinct(raw);
    forall w
      ensures w in UnmatchedWinners(winners, nfts) <==> w in winners && !(1 <= w.row <= |raw|)
    {
      UnmatchedAgainstEnriched(winners, raw, w);
    }
    Loaded(nfts, winners, UnmatchedWinners(winners, nfts))
  }

  function EquipmentOf(j: Joined): string {
    j.nft.raw.equipment
  }

  function BoostOf(j: Joined): string {
    j.nft.raw.boost
  }

  /** The reward column of joined rows, keyed by a category column. */
  function KeyedRewards<K>(joined: seq<Joined>, category: Joined -> K): (kv: seq<(K, int)>)
    ensures |kv| == |joined|
    ensures forall i :: 0 <= i < |kv| ==> kv[i] == (category(joined[i]), joined[i].win.reward)
  {
    seq(|joined|, i requires 0 <= i < |joined| => (category(joined[i]), joined[i].win.reward))
  }

  /** One count per NFT under its shortened owner; rows whose owner is not a
      string are dropped, as `groupby` drops missing keys. */
  function OwnerOnes(nfts: seq<Nft>): seq<(string, int)>
    decreases |nfts|
  {
    if nfts == [] then []
    else (match nfts[0].shortOwner
          case Address(a) => [(a, 1)]
          case NotAString => []) + OwnerOnes(nfts[1..])
  }

  function HasAddressIn(nfts: seq<Nft>): seq<Nft> {
    Filter(nfts, (n: Nft) => n.shortOwner.Address?)
  }

  function OwnedBy(nfts: seq<Nft>, shortOwner: string): seq<Nft> {
    Filter(nfts, (n: Nft) => n.shortOwner == Address(shortOwner))
  }

  /** What the page computes from the loaded tables and the two selections. */
  datatype DashboardView = DashboardView(
    nfts: seq<Nft>,
    joined: seq<Joined>,
    totalWins: nat,
    totalRewards: int,
    rewardPie: seq<Slice<string>>,
    ownershipPie: seq<Slice<string>>)

  /**
   The reward pie: rewards by equipment, or by boost once one equipment is
   selected. It has a slice for each category present and no other, and it
   distributes the joined rows' rewards before block de-duplication.
   */
  function RewardPie(joined: seq<Joined>, equipment: string): (r: seq<Slice<string>>)
    ensures SliceKeys(r) == Categories(joined, PieCategory(equipment))
    ensures SliceTotal(r) == RewardSum(joined)
  {
    var category := PieCategory(equipment);
    var threshold := if equipment == All then EquipmentLabelThreshold else BoostLabelThreshold;
    var g := GroupSum(KeyedRewards(joined, category));
    DistributionKeys(g, threshold);
    KeyedRewardsKeys(joined, category);
    DistributionKeepsTotal(g, threshold);
    KeyedRewardsTotal(joined, category);
    Distribution(g, threshold)
  }

  /**
   The ownership pie: NFT counts by shortened owner. It has a slice for each
   string short owner present and no other, and its slices count every NFT
   whose owner is a string.
   */
  function OwnershipPie(nfts: seq<Nft>): (r: seq<Slice<string>>)
    ensures SliceKeys(r) == ShortOwners(nfts)
    ensures SliceTotal(r) == |HasAddressIn(nfts)|
  {
    var g := GroupSum(OwnerOnes(nfts));
    DistributionKeys(g, OwnershipLabelThreshold);
    OwnerOnesKeys(nfts);
    DistributionKeepsTotal(g, OwnershipLabelThreshold);
    OwnerOnesCount(nfts, "");
    Distribution(g, OwnershipLabelThreshold)
  }

  function ShowDashboard(nfts: seq<Nft>, winners: seq<Winner>, equipment: string, wallet: string): (v: DashboardView)
    ensures v.nfts == FilterNfts(nfts, equipment, wallet)
    ensures v.joined == InnerJoin(winners, v.nfts)
    ensures IsSubsequence(v.nfts, nfts)
    ensures forall j :: j in v.joined <==> j.win in winners && j.nft in v.nfts && IdKey(j.nft) == RowKey(j.win)
    ensures v.totalWins == |Blocks(v.joined)|
    ensures v.totalWins <= |v.joined|
    ensures v.totalRewards == RewardSum(DropDuplicateBlocks(v.joined))
    ensures v.rewardPie == RewardPie(v.joined, equipment)
    ensures v.ownershipPie == OwnershipPie(v.nfts)
    ensures forall i :: 0 <= i < |v.rewardPie| ==>
      (v.rewardPie[i].showLabel <==>
        Exceeds(v.rewardPie[i].percent, if equipment == All then EquipmentLabelThreshold else BoostLabelThreshold))
    ensures forall i :: 0 <= i < |v.ownershipPie| ==>
      (v.ownershipPie[i].showLabel <==> Exceeds(v.ownershipPie[i].percent, OwnershipLabelThreshold))
  {
    var filtered := FilterNfts(nfts, equipment, wallet);
    var joined := InnerJoin(winners, filtered);
    DashboardView(
      filtered,
      joined,
      TotalWins(joined),
      TotalRewards(joined),
      RewardPie(joined, equipment),
      OwnershipPie(filtered))
  }

  /**
   Filtering propagates to every reward figure: the joined rows are exactly the
   winner rows paired with an NFT that passes both selections.
   */
  lemma JoinedRowsPassFilters(nfts: seq<Nft>, winners: seq<Winner>, equipment: string, wallet: string, j: Joined)
    ensures j in ShowDashboard(nfts, winners, equipment, wallet).joined <==>
      j.win in winners && j.nft in nfts && IdKey(j.nft) == RowKey(j.win) && Passes(equipment, wallet, j.nft)
  {
    var filtered := FilterNfts(nfts, equipment, wallet);
    FilterEqualsSelection(nfts, equipment, wallet);
    assert filtered == Filter(nfts, Selection(equipment, wallet));
  }

  /** The categories present among joined rows. */
  function Categories<K>(joined: seq<Joined>, category: Joined -> K): set<K> {
    set j | j in joined :: category(j)
  }

  lemma KeyedRewardsKeys<K>(joined: seq<Joined>, category: Joined -> K)
    ensures KeysOf(KeyedRewards(joined, category)) == Categories(joined, category)
  {
    var kv := KeyedRewards(joined, category);
    forall k | k in Categories(joined, category)
      ensures k in KeysOf(kv)
    {
      var j :| j in joined && category(j) == k;
      var i :| 0 <= i < |joined| && joined[i] == j;
      assert kv[i] in kv;
    }
    forall k | k in KeysOf(kv)
      ensures k in Categories(joined, category)
    {
      var q :| q in kv && q.0 == k;
      var i :| 0 <= i < |kv| && kv[i] == q;
      assert joined[i] in joined;
    }
  }

  lemma {:induction false} KeyedRewardsTotal<K>(joined: seq<Joined>, category: Joined -> K)
    ensures ValueTotal(KeyedRewards(joined, category)) == RewardSum(joined)
    decreases |joined|
  {
    if joined != [] {
      KeyedRewardsTotal(joined[1..], category);
      assert KeyedRewards(joined, category)[1..] == KeyedRewards(joined[1..], category);
    }
  }

  /** The joined rows whose category is `k`. */
  function InCategory<K(==)>(category: Joined -> K, k: K): Joined -> bool {
    j => category(j) == k
  }

  lemma {:induction false} KeyedRewardsSum<K>(joined: seq<Joined>, category: Joined -> K, k: K)
    ensures SumOf(KeyedRewards(joined, category), k) == RewardSum(Filter(joined, InCategory(category, k)))
    decreases |joined|
  {
    if joined != [] {
      KeyedRewardsSum(joined[1..], category, k);
      assert KeyedRewards(joined, category)[1..] == KeyedRewards(joined[1..], category);
    }
  }

  /** The category a reward slice is keyed by: equipment, or boost once one equipment is selected. */
  function PieCategory(equipment: string): Joined -> string {
    if equipment == All then EquipmentOf else BoostOf
  }

  lemma CategorySlices(joined: seq<Joined>, category: Joined -> string, threshold: real)
    ensures var d := Distribution(GroupSum(KeyedRewards(joined, category)), threshold);
      && SliceKeys(d) == Categories(joined, category)
      && (forall i, j :: 0 <= i < j < |d| ==> d[i].key != d[j].key)
      && (forall i :: 0 <= i < |d| ==> d[i].value == RewardSum(Filter(joined, InCategory(category, d[i].key))))
  {
    var g := GroupSum(KeyedRewards(joined, category));
    var d := Distribution(g, threshold);
    DistributionKeys(g, threshold);
    KeyedRewardsKeys(joined, category);
    assert forall i, j :: 0 <= i < j < |g| ==> KeyOf(g[i]) != KeyOf(g[j]);
    forall i | 0 <= i < |d|
      ensures d[i].value == RewardSum(Filter(joined, InCategory(category, d[i].key)))
    {
      KeyedRewardsSum(joined, category, g[i].0);
    }
  }

  /**
   The reward pie has one slice per category present among the joined rows and
   no other, no category appears twice, and a slice's value is the sum of the
   rewards of the joined rows in that category.
   */
  lemma RewardPieSlices(joined: seq<Joined>, equipment: string)
    ensures var pie := RewardPie(joined, equipment);
      && SliceKeys(pie) == Categories(joined, PieCategory(equipment))
      && (forall i, j :: 0 <= i < j < |pie| ==> pie[i].key != pie[j].key)
      && (forall i :: 0 <= i < |pie| ==>
            pie[i].value == RewardSum(Filter(joined, InCategory(PieCategory(equipment), pie[i].key))))
  {
    var category := PieCategory(equipment);
    var threshold := if equipment == All then EquipmentLabelThreshold else BoostLabelThreshold;
    var pie := RewardPie(joined, equipment);
    assert pie == Distribution(GroupSum(KeyedRewards(joined, category)), threshold);
    CategorySlices(joined, category, threshold);
    assert forall i :: 0 <= i < |pie| ==>
      pie[i].value == RewardSum(Filter(joined, InCategory(category, pie[i].key)));
  }

  lemma {:induction false} OwnerOnesCount(nfts: seq<Nft>, k: string)
    ensures SumOf(OwnerOnes(nfts), k) == |OwnedBy(nfts, k)|
    ensures ValueTotal(OwnerOnes(nfts)) == |HasAddressIn(nfts)|
    decreases |nfts|
  {
    if nfts != [] {
      OwnerOnesCount(nfts[1..], k);
      var head := match nfts[0].shortOwner case Address(a) => [(a, 1)] case NotAString => [];
      assert OwnerOnes(nfts) == head + OwnerOnes(nfts[1..]);
      SumOfConcat(head, OwnerOnes(nfts[1..]), k);
      ValueTotalConcat(head, OwnerOnes(nfts[1..]));
    }
  }

  /** The shortened string owners among some NFTs. */
  function ShortOwners(nfts: seq<Nft>): set<string> {
    set n | n in nfts && n.shortOwner.Address? :: n.shortOwner.text
  }

  lemma {:induction false} OwnerOnesKeys(nfts: seq<Nft>)
    ensures KeysOf(OwnerOnes(nfts)) == ShortOwners(nfts)
    decreases |nfts|
  {
    if nfts != [] {
      OwnerOnesKeys(nfts[1..]);
      var head := match nfts[0].shortOwner case Address(a) => [(a, 1)] case NotAString => [];
      assert OwnerOnes(nfts) == head + OwnerOnes(nfts[1..]);
      KeysOfConcat(head, OwnerOnes(nfts[1..]));
      assert KeysOf(head) == ShortOwners([nfts[0]]);
      assert nfts == [nfts[0]] + nfts[1..];
      assert ShortOwners(nfts) == ShortOwners([nfts[0]]) + ShortOwners(nfts[1..]) by {
        forall o | o in ShortOwners(nfts)
          ensures o in ShortOwners([nfts[0]]) + ShortOwners(nfts[1..])
        {
          var n :| n in nfts && n.shortOwner.Address? && n.shortOwner.text == o;
          assert n == nfts[0] || n in nfts[1..];
        }
      }
    }
  }

  /**
   The ownership pie: one slice per shortened owner among the filtered NFTs and
   no other, each owner once, holding the number of those NFTs; the slices add
   up to the filtered NFTs whose owner is a string.
   */
  lemma OwnershipPieCounts(nfts: seq<Nft>)
    ensures var pie := OwnershipPie(nfts);
      && SliceKeys(pie) == ShortOwners(nfts)
      && (forall i, j :: 0 <= i < j < |pie| ==> pie[i].key != pie[j].key)
      && (forall i :: 0 <= i < |pie| ==> pie[i].value == |OwnedBy(nfts, pie[i].key)|)
      && SliceTotal(pie) == |HasAddressIn(nfts)|
  {
    var pie := OwnershipPie(nfts);
    var g := GroupSum(OwnerOnes(nfts));
    DistributionKeepsTotal(g, OwnershipLabelThreshold);
    DistributionKeys(g, OwnershipLabelThreshold);
    OwnerOnesKeys(nfts);
    assert forall i, j :: 0 <= i < j < |g| ==> KeyOf(g[i]) != KeyOf(g[j]);
    OwnerOnesCount(nfts, "");
    forall i | 0 <= i < |pie|
      ensures pie[i].value == |OwnedBy(nfts, pie[i].key)|
    {
      OwnerOnesCount(nfts, g[i].0);
    }
  }
}
