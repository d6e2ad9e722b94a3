/**
 The "Leaderboard" page: the winner table joined to the whole NFT table,
 per-owner reward sums and distinct-block counts, NFT counts per owner,
 reward sums per equipment/boost pair, and the top/bottom-ten tables.
 */
module Leaderboard {
  import opened Seqs
  import opened Tables
  import opened Enrichment
  import opened Joins
  import opened Filters
  import opened Totals
  import opened Grouping
  import opened Ranking
  import opened Dashboard

  /** A row of `rewards_by_owner`. */
  datatype OwnerStats = OwnerStats(owner: string, shortOwner: Owner, totalRewards: int, totalWins: nat)

  /** A row of `nfts_owned`. */
  datatype OwnerCount = OwnerCount(owner: string, shortOwner: Owner, nftsOwned: int)

  /** A row of `rewards_by_boost`. */
  datatype ComboRewards = ComboRewards(equipment: string, boost: string, totalRewards: int)

  function OwnerOf(s: OwnerStats): string {
    s.owner
  }

  function HeldBy(owner: string): Nft -> bool {
    (n: Nft) => n.raw.owner == Address(owner)
  }

  /** The joined rows of NFTs held by `owner`. */
  function RowsOfOwner(joined: seq<Joined>, owner: string): seq<Joined> {
    Filter(joined, OnNft(HeldBy(owner)))
  }

  /** The distinct blocks won by `owner`'s NFTs: `nunique` of `Virtual Block` in the owner's group. */
  function OwnerBlocks(joined: seq<Joined>, owner: string): set<int> {
    set j | j in joined && j.nft.raw.owner == Address(owner) :: j.win.block
  }

  /** The string owners among joined rows. */
  function OwnersIn(joined: seq<Joined>): set<string> {
    set j | j in joined && j.nft.raw.owner.Address? :: j.nft.raw.owner.text
  }

  /** Rewards keyed by full owner address; rows whose owner is not a string are dropped. */
  function OwnerRewards(joined: seq<Joined>): seq<(string, int)>
    decreases |joined|
  {
    if joined == [] then []
    else (match joined[0].nft.raw.owner
          case Address(a) => [(a, joined[0].win.reward)]
          case NotAString => []) + OwnerRewards(joined[1..])
  }

  lemma {:induction false} OwnerRewardsSum(joined: seq<Joined>, owner: string)
    ensures SumOf(OwnerRewards(joined), owner) == RewardSum(RowsOfOwner(joined, owner))
    decreases |joined|
  {
    if joined != [] {
      OwnerRewardsSum(joined[1..], owner);
      var head := match joined[0].nft.raw.owner
        case Address(a) => [(a, joined[0].win.reward)]
        case NotAString => [];
      SumOfConcat(head, OwnerRewards(joined[1..]), owner);
    }
  }

  lemma {:induction false} OwnerRewardsKeys(joined: seq<Joined>)
    ensures KeysOf(OwnerRewards(joined)) == OwnersIn(joined)
    decreases |joined|
  {
    if joined != [] {
      OwnerRewardsKeys(joined[1..]);
      var head := match joined[0].nft.raw.owner
        case Address(a) => [(a, joined[0].win.reward)]
        case NotAString => [];
      KeysOfConcat(head, OwnerRewards(joined[1..]));
      assert joined == [joined[0]] + joined[1..];
      assert OwnersIn(joined) == OwnersIn([joined[0]]) + OwnersIn(joined[1..]) by {
        forall o | o in OwnersIn(joined)
          ensures o in OwnersIn([joined[0]]) + OwnersIn(joined[1..])
        {
          var j :| j in joined && j.nft.raw.owner.Address? && j.nft.raw.owner.text == o;
          assert j == joined[0] || j in joined[1..];
        }
      }
      assert KeysOf(head) == OwnersIn([joined[0]]);
    }
  }

  function StatsRow(joined: seq<Joined>, g: (string, int)): OwnerStats {
    OwnerStats(g.0, ShortenAddress(Address(g.0)), g.1, |OwnerBlocks(joined, g.0)|)
  }

  /**
   `rewards_by_owner`: one row per string owner among the joined rows, with the
   sum of the owner's rewards (every joined row, no block de-duplication) and
   the number of distinct blocks the owner's NFTs won.
   */
  function OwnerStatsTable(joined: seq<Joined>): (r: seq<OwnerStats>)
    ensures |r| == |OwnersIn(joined)|
    ensures DistinctBy(r, OwnerOf)
    ensures forall i :: 0 <= i < |r| ==> r[i].owner in OwnersIn(joined)
    ensures forall o :: o in OwnersIn(joined) ==> exists i :: 0 <= i < |r| && r[i].owner == o
    ensures forall i :: 0 <= i < |r| ==>
      && r[i].shortOwner == ShortenAddress(Address(r[i].owner))
      && r[i].totalRewards == RewardSum(RowsOfOwner(joined, r[i].owner))
      && r[i].totalWins == |OwnerBlocks(joined, r[i].owner)|
  {
    var groups := GroupSum(OwnerRewards(joined));
    var r := seq(|groups|, i requires 0 <= i < |groups| => StatsRow(joined, groups[i]));
    StatsTableFacts(joined, groups, r);
    r
  }

  lemma StatsTableFacts(joined: seq<Joined>, groups: seq<(string, int)>, r: seq<OwnerStats>)
    requires groups == GroupSum(OwnerRewards(joined))
    requires |r| == |groups|
    requires forall i :: 0 <= i < |r| ==> r[i] == StatsRow(joined, groups[i])
    ensures |r| == |OwnersIn(joined)|
    ensures DistinctBy(r, OwnerOf)
    ensures forall i :: 0 <= i < |r| ==> r[i].owner in OwnersIn(joined)
    ensures forall o :: o in OwnersIn(joined) ==> exists i :: 0 <= i < |r| && r[i].owner == o
    ensures forall i :: 0 <= i < |r| ==>
      && r[i].shortOwner == ShortenAddress(Address(r[i].owner))
      && r[i].totalRewards == RewardSum(RowsOfOwner(joined, r[i].owner))
      && r[i].totalWins == |OwnerBlocks(joined, r[i].owner)|
  {
    OwnerRewardsKeys(joined);
    StatsDistinct(groups, r);
    StatsCover(joined, groups, r);
    StatsRowsSums(joined, groups, r);
  }

  lemma StatsDistinct(groups: seq<(string, int)>, r: seq<OwnerStats>)
    requires DistinctBy(groups, KeyOf)
    requires |r| == |groups|
    requires forall i :: 0 <= i < |r| ==> r[i].owner == groups[i].0
    ensures DistinctBy(r, OwnerOf)
  {
    assert forall i :: 0 <= i < |r| ==> OwnerOf(r[i]) == KeyOf(groups[i]);
  }

  lemma StatsCover(joined: seq<Joined>, groups: seq<(string, int)>, r: seq<OwnerStats>)
    requires KeysOf(groups) == OwnersIn(joined)
    requires |r| == |groups|
    requires forall i :: 0 <= i < |r| ==> r[i].owner == groups[i].0
    ensures forall o :: o in OwnersIn(joined) ==> exists i :: 0 <= i < |r| && r[i].owner == o
  {
    forall o | o in OwnersIn(joined)
      ensures exists i :: 0 <= i < |r| && r[i].owner == o
    {
      assert o in KeysOf(groups);
      var q :| q in groups && q.0 == o;
      var i :| 0 <= i < |groups| && groups[i] == q;
      assert r[i].owner == o;
    }
  }

  lemma StatsRowsSums(joined: seq<Joined>, groups: seq<(string, int)>, r: seq<OwnerStats>)
    requires KeysOf(groups) == OwnersIn(joined)
    requires forall i :: 0 <= i < |groups| ==> groups[i].1 == SumOf(OwnerRewards(joined), groups[i].0)
    requires |r| == |groups|
    requires forall i :: 0 <= i < |r| ==> r[i] == StatsRow(joined, groups[i])
    ensures forall i :: 0 <= i < |r| ==>
      r[i].owner in OwnersIn(joined) && r[i].totalRewards == RewardSum(RowsOfOwner(joined, r[i].owner))
  {
    forall i | 0 <= i < |r|
      ensures r[i].owner in OwnersIn(joined)
      ensures r[i].totalRewards == RewardSum(RowsOfOwner(joined, r[i].owner))
    {
      assert groups[i] in groups;
      OwnerRewardsSum(joined, groups[i].0);
    }
  }

  /** One count per NFT under its full owner address; non-string owners are dropped. */
  function FullOwnerOnes(nfts: seq<Nft>): seq<(string, int)>
    decreases |nfts|
  {
    if nfts == [] then []
    else (match nfts[0].raw.owner
          case Address(a) => [(a, 1)]
          case NotAString => []) + FullOwnerOnes(nfts[1..])
  }

  lemma {:induction false} FullOwnerOnesCount(nfts: seq<Nft>, owner: string)
    ensures SumOf(FullOwnerOnes(nfts), owner) == |Filter(nfts, (n: Nft) => n.raw.owner == Address(owner))|
    decreases |nfts|
  {
    if nfts != [] {
      FullOwnerOnesCount(nfts[1..], owner);
      var head := match nfts[0].raw.owner case Address(a) => [(a, 1)] case NotAString => [];
      SumOfConcat(head, FullOwnerOnes(nfts[1..]), owner);
    }
  }

  /** The string owners among some NFTs. */
  function NftOwners(nfts: seq<Nft>): set<string> {
    set n | n in nfts && n.raw.owner.Address? :: n.raw.owner.text
  }

  lemma {:induction false} FullOwnerOnesKeys(nfts: seq<Nft>)
    ensures KeysOf(FullOwnerOnes(nfts)) == NftOwners(nfts)
    decreases |nfts|
  {
    if nfts != [] {
      FullOwnerOnesKeys(nfts[1..]);
      var head := match nfts[0].raw.owner case Address(a) => [(a, 1)] case NotAString => [];
      KeysOfConcat(head, FullOwnerOnes(nfts[1..]));
      assert KeysOf(head) == NftOwners([nfts[0]]);
      assert nfts == [nfts[0]] + nfts[1..];
      assert NftOwners(nfts) == NftOwners([nfts[0]]) + NftOwners(nfts[1..]) by {
        forall o | o in NftOwners(nfts)
          ensures o in NftOwners([nfts[0]]) + NftOwners(nfts[1..])
        {
          var n :| n in nfts && n.raw.owner.Address? && n.raw.owner.text == o;
          assert n == nfts[0] || n in nfts[1..];
        }
      }
    }
  }

  function CountRow(g: (string, int)): OwnerCount {
    OwnerCount(g.0, ShortenAddress(Address(g.0)), g.1)
  }

  function CountOwner(c: OwnerCount): string {
    c.owner
  }

  /** `nfts_owned`: one row per string owner among the NFTs, with the number of NFTs it holds. */
  function OwnerCountTable(nfts: seq<Nft>): (r: seq<OwnerCount>)
    ensures |r| == |NftOwners(nfts)|
    ensures forall i :: 0 <= i < |r| ==> r[i].owner in NftOwners(nfts)
    ensures forall o :: o in NftOwners(nfts) ==> exists i :: 0 <= i < |r| && CountOwner(r[i]) == o
    ensures DistinctBy(r, CountOwner)
    ensures forall i :: 0 <= i < |r| ==>
      && r[i].shortOwner == ShortenAddress(Address(r[i].owner))
      && r[i].nftsOwned == |Filter(nfts, (n: Nft) => n.raw.owner == Address(r[i].owner))|
  {
    var groups := GroupSum(FullOwnerOnes(nfts));
    var r := seq(|groups|, i requires 0 <= i < |groups| => CountRow(groups[i]));
    CountTableOwners(nfts, groups, r);
    CountTableCounts(nfts, groups, r);
    r
  }

  lemma CountTableOwners(nfts: seq<Nft>, groups: seq<(string, int)>, r: seq<OwnerCount>)
    requires groups == GroupSum(FullOwnerOnes(nfts))
    requires |r| == |groups|
    requires forall i :: 0 <= i < |r| ==> r[i] == CountRow(groups[i])
    ensures |r| == |NftOwners(nfts)|
    ensures forall i :: 0 <= i < |r| ==> r[i].owner in NftOwners(nfts)
    ensures forall o :: o in NftOwners(nfts) ==> exists i :: 0 <= i < |r| && CountOwner(r[i]) == o
    ensures DistinctBy(r, CountOwner)
  {
    FullOwnerOnesKeys(nfts);
    RowsCoverKeys(groups, r, CountOwner);
    assert forall i :: 0 <= i < |r| ==> CountOwner(r[i]) == KeyOf(groups[i]);
  }

  lemma CountTableCounts(nfts: seq<Nft>, groups: seq<(string, int)>, r: seq<OwnerCount>)
    requires groups == GroupSum(FullOwnerOnes(nfts))
    requires |r| == |groups|
    requires forall i :: 0 <= i < |r| ==> r[i] == CountRow(groups[i])
    ensures forall i :: 0 <= i < |r| ==>
      && r[i].shortOwner == ShortenAddress(Address(r[i].owner))
      && r[i].nftsOwned == |Filter(nfts, (n: Nft) => n.raw.owner == Address(r[i].owner))|
  {
    forall i | 0 <= i < |r|
      ensures r[i].nftsOwned == |Filter(nfts, (n: Nft) => n.raw.owner == Address(r[i].owner))|
    {
      FullOwnerOnesCount(nfts, groups[i].0);
    }
  }

  function ComboOf(j: Joined): (string, string) {
    (j.nft.raw.equipment, j.nft.raw.boost)
  }

  function ComboRow(g: ((string, string), int)): ComboRewards {
    ComboRewards(g.0.0, g.0.1, g.1)
  }

  function ComboKey(c: ComboRewards): (string, string) {
    (c.equipment, c.boost)
  }

  /** `rewards_by_boost`: one row per (equipment, boost) pair present among the joined rows, with its reward sum. */
  function ComboTable(joined: seq<Joined>): (r: seq<ComboRewards>)
    ensures |r| == |Categories(joined, ComboOf)|
    ensures forall i :: 0 <= i < |r| ==> ComboKey(r[i]) in Categories(joined, ComboOf)
    ensures forall c :: c in Categories(joined, ComboOf) ==> exists i :: 0 <= i < |r| && ComboKey(r[i]) == c
    ensures DistinctBy(r, ComboKey)
    ensures forall i :: 0 <= i < |r| ==> r[i].totalRewards == SumOf(KeyedRewards(joined, ComboOf), ComboKey(r[i]))
    ensures SumOfCombos(r) == RewardSum(joined)
  {
    var groups := GroupSum(KeyedRewards(joined, ComboOf));
    var r := seq(|groups|, i requires 0 <= i < |groups| => ComboRow(groups[i]));
    ComboTableKeys(joined, groups, r);
    ComboTableSums(joined, groups, r);
    r
  }

  lemma ComboTableKeys(joined: seq<Joined>, groups: seq<((string, string), int)>, r: seq<ComboRewards>)
    requires groups == GroupSum(KeyedRewards(joined, ComboOf))
    requires |r| == |groups|
    requires forall i :: 0 <= i < |r| ==> r[i] == ComboRow(groups[i])
    ensures |r| == |Categories(joined, ComboOf)|
    ensures forall i :: 0 <= i < |r| ==> ComboKey(r[i]) in Categories(joined, ComboOf)
    ensures forall c :: c in Categories(joined, ComboOf) ==> exists i :: 0 <= i < |r| && ComboKey(r[i]) == c
    ensures DistinctBy(r, ComboKey)
  {
    KeyedRewardsKeys(joined, ComboOf);
    RowsCoverKeys(groups, r, ComboKey);
    assert forall i :: 0 <= i < |r| ==> ComboKey(r[i]) == KeyOf(groups[i]);
  }

  lemma ComboTableSums(joined: seq<Joined>, groups: seq<((string, string), int)>, r: seq<ComboRewards>)
    requires groups == GroupSum(KeyedRewards(joined, ComboOf))
    requires |r| == |groups|
    requires forall i :: 0 <= i < |r| ==> r[i] == ComboRow(groups[i])
    ensures forall i :: 0 <= i < |r| ==> r[i].totalRewards == SumOf(KeyedRewards(joined, ComboOf), ComboKey(r[i]))
    ensures SumOfCombos(r) == RewardSum(joined)
  {
    KeyedRewardsTotal(joined, ComboOf);
    CombosTotal(groups, r);
  }

  function SumOfCombos(r: seq<ComboRewards>): int
    decreases |r|
  {
    if r == [] then 0 else r[0].totalRewards + SumOfCombos(r[1..])
  }

  lemma {:induction false} CombosTotal(groups: seq<((string, string), int)>, r: seq<ComboRewards>)
    requires |r| == |groups|
    requires forall i :: 0 <= i < |r| ==> r[i] == ComboRow(groups[i])
    ensures SumOfCombos(r) == ValueTotal(groups)
    decreases |groups|
  {
    if groups != [] {
      CombosTotal(groups[1..], r[1..]);
    }
  }

  function RewardsMetric(s: OwnerStats): int {
    s.totalRewards
  }

  function WinsMetric(s: OwnerStats): int {
    s.totalWins
  }

  function OwnedMetric(c: OwnerCount): int {
    c.nftsOwned
  }

  function ComboMetric(c: ComboRewards): int {
    c.totalRewards
  }

  /** The six tables of the page. */
  datatype LeaderboardView = LeaderboardView(
    stats: seq<OwnerStats>,
    topRewards: seq<Ranked<OwnerStats>>,
    topWins: seq<Ranked<OwnerStats>>,
    topNftsOwned: seq<Ranked<OwnerCount>>,
    topCombos: seq<Ranked<ComboRewards>>,
    bottomRewards: seq<Ranked<OwnerStats>>,
    bottomWins: seq<Ranked<OwnerStats>>)

  function ShowLeaderboard(nfts: seq<Nft>, winners: seq<Winner>): (v: LeaderboardView)
    ensures v.stats == OwnerStatsTable(InnerJoin(winners, nfts))
    ensures |v.topRewards| == |v.topWins| == |v.bottomRewards| == |v.bottomWins|
      == Min(BoardSize, |OwnersIn(InnerJoin(winners, nfts))|)
    ensures v.topRewards == TopTen(v.stats, RewardsMetric) && v.topWins == TopTen(v.stats, WinsMetric)
    ensures v.bottomRewards == BottomTen(v.stats, RewardsMetric) && v.bottomWins == BottomTen(v.stats, WinsMetric)
    ensures v.topNftsOwned == TopTen(OwnerCountTable(nfts), OwnedMetric)
    ensures v.topCombos == TopTen(ComboTable(InnerJoin(winners, nfts)), ComboMetric)
  {
    var joined := InnerJoin(winners, nfts);
    var stats := OwnerStatsTable(joined);
    LeaderboardView(
      stats,
      TopTen(stats, RewardsMetric),
      TopTen(stats, WinsMetric),
      TopTen(OwnerCountTable(nfts), OwnedMetric),
      TopTen(ComboTable(joined), ComboMetric),
      BottomTen(stats, RewardsMetric),
      BottomTen(stats, WinsMetric))
  }

  lemma ShortAddressNotAll(owner: string)
    ensures ShortenAddress(Address(owner)).text != All
  {
    var wallet := ShortenAddress(Address(owner)).text;
    assert wallet[Min(6, |owner|)] == '.';
  }

  lemma OwnerRowsBlocks(joined: seq<Joined>, owner: string)
    ensures Blocks(RowsOfOwner(joined, owner)) == OwnerBlocks(joined, owner)
  {
    var rows := RowsOfOwner(joined, owner);
    forall b | b in OwnerBlocks(joined, owner)
      ensures b in Blocks(rows)
    {
      var j :| j in joined && j.nft.raw.owner == Address(owner) && j.win.block == b;
      var k :| 0 <= k < |joined| && joined[k] == j;
      assert j in rows;
    }
  }

  /** Filtering the dashboard to an owner's unshared wallet joins exactly that owner's rows. */
  lemma WalletJoinIsOwnerRows(nfts: seq<Nft>, winners: seq<Winner>, owner: string)
    requires forall i :: 0 <= i < |nfts| ==> nfts[i].shortOwner == ShortenAddress(nfts[i].raw.owner)
    requires forall i :: 0 <= i < |nfts| && nfts[i].shortOwner == ShortenAddress(Address(owner)) ==>
      nfts[i].raw.owner == Address(owner)
    ensures InnerJoin(winners, FilterNfts(nfts, All, ShortenAddress(Address(owner)).text))
      == RowsOfOwner(InnerJoin(winners, nfts), owner)
  {
    var joined := InnerJoin(winners, nfts);
    var short := ShortenAddress(Address(owner));
    var wallet := short.text;
    ShortAddressNotAll(owner);
    var sel := Selection(All, wallet);
    FilterEqualsSelection(nfts, All, wallet);
    JoinFilterCommute(winners, nfts, sel);
    forall i | 0 <= i < |joined|
      ensures OnNft(sel)(joined[i]) == OnNft(HeldBy(owner))(joined[i])
    {
      var n := joined[i].nft;
      assert joined[i] in joined;
      var k :| 0 <= k < |nfts| && nfts[k] == n;
      assert Passes(All, wallet, n) <==> n.shortOwner == short;
    }
    FilterAgree(joined, OnNft(sel), OnNft(HeldBy(owner)));
  }

  /**
   The two pages agree on an owner whose shortened address no other owner in
   the table shares: the dashboard filtered to that wallet joins exactly the
   owner's leaderboard rows, so it shows the same number of wins, and the same
   rewards when none of those rows repeats a block.
   */
  lemma WalletViewMatchesOwner(nfts: seq<Nft>, winners: seq<Winner>, owner: string)
    requires forall i :: 0 <= i < |nfts| ==> nfts[i].shortOwner == ShortenAddress(nfts[i].raw.owner)
    requires forall i :: 0 <= i < |nfts| && nfts[i].shortOwner == ShortenAddress(Address(owner)) ==>
      nfts[i].raw.owner == Address(owner)
    ensures var joined := InnerJoin(winners, nfts);
      var walletJoin := InnerJoin(winners, FilterNfts(nfts, All, ShortenAddress(Address(owner)).text));
      && TotalWins(walletJoin) == |OwnerBlocks(joined, owner)|
      && (DistinctBy(RowsOfOwner(joined, owner), BlockOf) ==> TotalRewards(walletJoin) == RewardSum(RowsOfOwner(joined, owner)))
  {
    var joined := InnerJoin(winners, nfts);
    var rows := RowsOfOwner(joined, owner);
    WalletJoinIsOwnerRows(nfts, winners, owner);
    OwnerRowsBlocks(joined, owner);
    if DistinctBy(rows, BlockOf) {
      DistinctRowsTotals(rows);
    }
  }
}
