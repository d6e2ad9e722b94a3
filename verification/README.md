# LBUN NFT mining dashboard: a Dafny model of its data pipeline

The dashboard is a single Streamlit page over two tables: NFT rows
(`token_id, market, equipment, boost, owner, minted`) and winner rows
(`Winner (Row), Virtual Block, Reward (BASE)`). Under the UI calls it runs a small
extract-transform pipeline. This project models that pipeline as pure Dafny
functions over sequences of records and proves what the page relies on.

The pipeline runs in five stages:

- **Enrichment** (`enrichment.dfy`). Each NFT row gets `unique_id` = position + 1.
  `short_owner` keeps the first 6 and last 5 characters of the owner around "...".
  `life_left` is `min(365 - days, 365)` as a string, or "Expired" when negative.
- **Join and validation** (`joins.dfy`). Row ids are compared as decimal strings
  (`decimal.dfy`). Winner rows whose `Winner (Row)` names no NFT are reported.
  They stay in the winner table and drop out of every inner join.
- **Filtering** (`filters.dfy`). There are two equality filters, equipment and
  shortened owner, and "All" switches a filter off.
- **Dashboard figures** (`totals.dfy`, `grouping.dfy`, `dashboard.dfy`). The winner
  rows are inner-joined to the filtered NFTs. De-duplicating on `Virtual Block`
  (keeping the first row) gives total wins and total rewards. The pie tables hold
  rewards by equipment (or by boost once one equipment is selected) and NFT counts
  by shortened owner, each with a percentage and a `show_label` flag.
- **Leaderboard** (`leaderboard.dfy`, `ranking.dfy`). The winner rows are joined to
  the whole NFT table. The page computes per-owner reward sums and distinct-block
  counts, NFT counts per owner and reward sums per equipment/boost pair. It shows
  top-ten tables (`nlargest`) and bottom-ten tables (`nsmallest`, then re-sorted
  descending), ranked 1..k.

Modelling choices:

- Rewards are integers in a fixed-point unit.
- Percentages are exact `real`s. A zero total gives NaN or an infinity, as pandas'
  float division does, instead of failing.
- An owner cell is either a string address or "not a string" (a missing cell).
  `groupby` drops the second kind.
- `days_since_mint` is an input: the whole number of days from `minted` to the
  fixed reference date 2025-01-02.

Four behaviours of the code are easy to miss:

- The reward pies group the joined rows *before* block de-duplication. So a
  repeated block is counted once in the totals but again in the pies.
- The leaderboard joins against the unfiltered NFT table. Its per-owner
  `total_rewards` sums every joined row without block de-duplication.
  `Leaderboard.WalletViewMatchesOwner` states when the two pages agree.
- With a zero total the percentages come out of a float division by zero: NaN
  for a zero slice. `Grouping.ZeroTotalShowsNoLabel` shows that no label is drawn then.
- `sort_values` is not stable, and `groupby` sorts its keys. The model states
  rankings up to the order of equal metrics, and it emits groups in
  first-appearance order.

## Model

| member | source | states |
|---|---|---|
| Decimal.ParseIntToString | nft_mining_dashboard_v01.py:47-49 | the decimal string `astype(str)` gives an integer parses back to that integer, so string join keys lose nothing |
| Decimal.IntToStringInjective | nft_mining_dashboard_v01.py:47-49 | two integers have the same decimal string exactly when they are equal |
| Enrichment.ShortenAddress | nft_mining_dashboard_v01.py:20-21 | a string owner becomes its first min(6,n) characters, "...", and its last min(5,n), so its length is min(6,n)+3+min(5,n); a non-string owner is returned unchanged |
| Enrichment.LifeLeft | nft_mining_dashboard_v01.py:39-45 | the result is "Expired" exactly when 365 - days < 0; otherwise it is the canonical decimal string (digits only, no leading zero) that parses to min(365 - days, 365), so any numeric value lies in 0..365 |
| Enrichment.Enrich | nft_mining_dashboard_v01.py:29-45 | one enriched row per input row, same order; row i keeps its columns and gets id i+1, its shortened owner and its life-left string |
| Enrichment.EnrichIdsOneToN | nft_mining_dashboard_v01.py:29-31 | the ids of an enriched table are exactly 1..N, with no gaps or repeats |
| Enrichment.EnrichKeysDistinct | nft_mining_dashboard_v01.py:29-48 | after string conversion, no two NFT rows share a join key |
| Enrichment.EnrichKeyMatch | nft_mining_dashboard_v01.py:47-52 | a row number's string matches some `unique_id` string exactly when it lies in 1..N |
| Joins.UnmatchedWinners | nft_mining_dashboard_v01.py:51-55 | the reported rows keep their order; each has a row string equal to no `unique_id` string, and every such winner row is reported as many times as it occurs in the winner table |
| Joins.UnmatchedAgainstEnriched | nft_mining_dashboard_v01.py:29-52 | against an enriched table, a winner row is reported exactly when its row number lies outside 1..N |
| Joins.JoinOne | nft_mining_dashboard_v01.py:97-102 | one winner row joins exactly the NFT rows whose key equals its row string |
| Joins.InnerJoin | nft_mining_dashboard_v01.py:97-102 | a joined row exists exactly for a winner row and an NFT row with equal key strings |
| Joins.JoinKeepsMatchedWinners | nft_mining_dashboard_v01.py:97-102 | with distinct NFT keys, the join holds one row per matched winner row, in winner order |
| Joins.JoinIgnoresUnmatched | nft_mining_dashboard_v01.py:51-58 | dropping the reported rows before joining gives the same join, so leaving them in `winner_list` is harmless |
| Joins.JoinFilterCommute | nft_mining_dashboard_v01.py:97-102 | joining against a filtered NFT table equals filtering the full join on the NFT side |
| Seqs.Filter | nft_mining_dashboard_v01.py:76-80 | boolean-mask selection returns an order-preserving subsequence whose rows all satisfy the mask, and every satisfying row is among them |
| Seqs.FilterCounts | nft_mining_dashboard_v01.py:76-80 | a repeated row that satisfies the mask is kept as many times as it occurs, and a row that does not is kept zero times |
| Seqs.FilterKeepsAll | nft_mining_dashboard_v01.py:76-80 | a mask every row satisfies leaves the table unchanged |
| Seqs.FilterFilter | nft_mining_dashboard_v01.py:76-80 | two masks in succession select the same rows as their conjunction |
| Seqs.FilterDistinctBy | nft_mining_dashboard_v01.py:76-80 | filtering keeps join keys distinct |
| Filters.FilterNfts | nft_mining_dashboard_v01.py:76-80 | the filtered table is an order-preserving subsequence; every kept row has the selected equipment and short owner, unless "All"; every passing row is kept; "All" for both returns the table unchanged |
| Filters.FilterEqualsSelection | nft_mining_dashboard_v01.py:76-80 | the equipment-then-wallet filters equal a single selection with both predicates |
| Totals.DropDuplicateBlocks | nft_mining_dashboard_v01.py:105 | the de-duplicated rows are a subsequence with pairwise distinct blocks and the same set of blocks |
| Totals.TotalWins | nft_mining_dashboard_v01.py:105-106 | total wins is the number of distinct blocks among the joined rows, and at most the number of rows |
| Totals.TotalRewards | nft_mining_dashboard_v01.py:105-107 | when no block repeats, total rewards is the plain sum of the joined rows; `Totals.AppendRowRewards` pins it in general to the first row of each block |
| Totals.AppendRowWins | nft_mining_dashboard_v01.py:105-106 | appending a row with an already-counted block leaves total wins unchanged; a new block adds one |
| Totals.AppendRowRewards | nft_mining_dashboard_v01.py:105-107 | appending a row with an already-counted block leaves total rewards unchanged; a new block adds exactly its own reward |
| Totals.DistinctRowsTotals | nft_mining_dashboard_v01.py:105-107 | when no block repeats, de-duplication keeps every row and the totals are the row count and the plain reward sum |
| Grouping.GroupSum | nft_mining_dashboard_v01.py:116-118 | one group per distinct key; each group's value is the sum of that key's values; the groups' total equals the input total |
| Grouping.PercentOf | nft_mining_dashboard_v01.py:121-122 | the percentage is a number exactly when the total is nonzero, and then times the total it gives 100 times the value; it lies in 0..100 for a share of a positive total; a zero total gives +inf, -inf or NaN by the sign of the value |
| Grouping.Distribution | nft_mining_dashboard_v01.py:120-125 | one slice per group, keeping key and value; each slice's percentage is its value's share of the groups' total; `show_label` holds exactly when the percentage exceeds the threshold |
| Grouping.DistributionKeys | nft_mining_dashboard_v01.py:116-125 | a distribution has a slice for every group key and for no other key |
| Grouping.PercentagesSumTo100 | nft_mining_dashboard_v01.py:121-122 | with a nonzero total, every percentage is a number and they add up to exactly 100 |
| Grouping.ZeroTotalShowsNoLabel | nft_mining_dashboard_v01.py:121-125 | a zero total of non-negative values shows no label |
| Grouping.DistributionKeepsTotal | nft_mining_dashboard_v01.py:116-125 | the slice values of a distribution add up to the grouped total |
| Dashboard.Load | nft_mining_dashboard_v01.py:27-58 | the loaded NFT rows are the enrichment of the raw rows, so one row per NFT with distinct join keys; it reports the unmatched winner rows, every copy and in winner order, which are exactly the rows numbered outside 1..N; it leaves the winner table unchanged |
| Dashboard.ShowDashboard | nft_mining_dashboard_v01.py:76-186 | the page's NFT rows are the filtered table; its join is the inner join of the winner rows with that table (so order and repeats follow the winner table) and holds exactly the winner rows paired with a filtered NFT; wins count distinct blocks; rewards sum the de-duplicated rows; the pies are the reward and ownership distributions of the page's rows, labelled at 5% for equipment and 3% for boost and ownership |
| Dashboard.JoinedRowsPassFilters | nft_mining_dashboard_v01.py:76-102 | a joined row exists exactly when its winner row matches an NFT that passes both filters |
| Dashboard.RewardPie | nft_mining_dashboard_v01.py:113-156 | the reward pie (by equipment, or by boost once one equipment is selected) has a slice for each category present among the joined rows and no other, and its slices add up to the plain reward sum of the joined rows, before block de-duplication; `Dashboard.RewardPieSlices` gives each slice's sum |
| Dashboard.CategorySlices | nft_mining_dashboard_v01.py:116-118 | grouped reward slices carry exactly the categories present among the joined rows, each once, each holding the rewards of its joined rows |
| Dashboard.RewardPieSlices | nft_mining_dashboard_v01.py:113-156 | the reward pie has one slice for each equipment (or boost) present among the joined rows and no other, each once, holding the reward sum of the joined rows in it |
| Dashboard.OwnershipPie | nft_mining_dashboard_v01.py:179-186 | the ownership pie has a slice for each string short owner present among the NFTs and no other, and its slices add up to the number of NFTs with a string owner; `Dashboard.OwnershipPieCounts` gives each slice's count |
| Dashboard.OwnershipPieCounts | nft_mining_dashboard_v01.py:179-186 | the ownership pie has one slice for each short owner present among the NFTs and no other, each once, counting that owner's NFTs; the slices add up to the NFTs with a string owner |
| Leaderboard.OwnerStatsTable | nft_mining_dashboard_v01.py:214-228 | one row per string owner among the joined rows, holding the sum of all its joined rewards and the number of distinct blocks it won |
| Leaderboard.OwnerCountTable | nft_mining_dashboard_v01.py:231-232 | exactly one row for each string owner among the NFTs and no other, holding the number of NFTs that owner holds and its shortened address |
| Leaderboard.ComboTable | nft_mining_dashboard_v01.py:258-266 | exactly one row for each (equipment, boost) pair present among the joined rows and no other, holding its reward sum; the rows add up to all joined rewards |
| Leaderboard.ShowLeaderboard | nft_mining_dashboard_v01.py:214-286 | the page's stats are the per-owner table of the full join; its four owner boards have min(10, #owners) rows each and are the top and bottom ten of that table by rewards and by wins (ordering as `Ranking.TopTen`/`Ranking.BottomTen` state); the NFT-count and equipment/boost boards rank the whole NFT table and the join's combinations |
| Leaderboard.WalletJoinIsOwnerRows | nft_mining_dashboard_v01.py:214-219 | filtering the dashboard to an owner's unshared short address joins exactly that owner's leaderboard rows |
| Leaderboard.WalletViewMatchesOwner | nft_mining_dashboard_v01.py:222-225 | for such an owner the dashboard's wins equal the leaderboard's `total_wins`, and its rewards equal `total_rewards` when the owner's rows never repeat a block |
| Ranking.Largest | nft_mining_dashboard_v01.py:236 | `nlargest(n)` returns min(n, N) rows drawn from the input, non-increasing, each at least every row left out |
| Ranking.Smallest | nft_mining_dashboard_v01.py:275 | `nsmallest(n)` returns min(n, N) rows drawn from the input, each at most every row left out |
| Ranking.SortDescending | nft_mining_dashboard_v01.py:275 | the descending sort is a non-increasing permutation |
| Ranking.Rank | nft_mining_dashboard_v01.py:238-239 | the ranked table keeps the rows in order, and their ranks are 1..k |
| Ranking.TopTen | nft_mining_dashboard_v01.py:236-239 | a top-ten table has min(10, N) rows ranked 1..k; the metric is non-increasing and every shown row is at least every row left out |
| Ranking.BottomTen | nft_mining_dashboard_v01.py:275-278 | a bottom-ten table has min(10, N) rows ranked 1..k, displayed non-increasing; every shown row is at most every row left out |

## Left out

- Page setup, sidebar widgets and option lists, `st.write`/`st.dataframe`/`st.warning` display, and Plotly pie construction (lines 7-12, 60-74, 82-94, 109-111, 127-144, 158-176, 188-206, 240-286 display calls): presentation with no logic.
- CSV loading and `@st.cache_data` (lines 14-18): file I/O and framework caching. The tables are parameters.
- Date parsing of `minted` (line 37): a library call. The model takes the day count to the fixed date 2025-01-02 as an input; `minted` is kept as text.
- `format_rewards` (lines 23-24) and floating-point rewards: rewards are fixed-point integers and percentages exact reals, so rounding is not modelled.
- `Winner (Row)` is modelled as an integer column. A float column (one containing a missing value) renders as "12.0" under `astype(str)` and is not modelled. `equipment` and `boost` are strings; missing cells there are not modelled.
- A missing owner cell on the Dashboard page: `sorted` over the short owners (line 72) compares a float NaN with strings and raises before any figure is computed. `Dashboard.ShowDashboard` still accepts `NotAString` owners, so for such a table it describes figures the program never shows; only the Leaderboard page reaches that case.
- Missing cells in `minted`, `Virtual Block` and `Reward (BASE)`: day counts, blocks and rewards are whole numbers here. In the program a missing `minted` date makes the day column float. That row shows "Expired", and every uncapped `life_left` then renders with a trailing ".0". A missing block survives `drop_duplicates` as one row but is not counted by `nunique`, and `sum` skips a missing reward. None of this is modelled.
- Inner-merge row order: the model's join lists the winner rows in their own order, each followed by its matching NFT rows. pandas documents this order and enforces it from version 2.2; earlier versions group inner-merge rows by key. The keep-first block de-duplication that gives `Total Rewards Earned` (line 105) depends on this order, and the program does not pin a pandas version.
- `groupby` key sorting: groups appear in first-appearance order, which only changes the order of pie slices and of leaderboard input rows.
- Ranking.SortDescending: pandas' default sort is not stable. The model puts an inserted row before equal ones, and its contract states the result only up to the order of equal metrics.
- Leaderboard.ShowLeaderboard: states which table and metric each board ranks, and the owner boards' sizes; the ordering of every board is stated once, by `Ranking.TopTen` and `Ranking.BottomTen`, rather than repeated here.
