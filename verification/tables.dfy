/**
 The two tables the dashboard reads: NFT rows (`nft_details.csv`) and winner
 rows (`winner_list.csv`), and the rows their inner join produces.
 */
module Tables {
  import opened Decimal

  /** An `owner` cell: a string address, or a value that is not a string (a missing cell). */
  datatype Owner = Address(text: string) | NotAString

  /** An NFT row as loaded. `daysSinceMint` is the whole number of days from the
      `minted` date to the dashboard's fixed reference date (2025-01-02). */
  datatype RawNft = RawNft(
    tokenId: int,
    market: string,
    equipment: string,
    boost: string,
    owner: Owner,
    minted: string,
    daysSinceMint: int)

  /** An NFT row after enrichment. */
  datatype Nft = Nft(raw: RawNft, uniqueId: nat, shortOwner: Owner, lifeLeft: string)

  /** A winner row: `Winner (Row)`, `Virtual Block`, `Reward (BASE)`.
      Rewards are fixed-point integers in the smallest unit. */
  datatype Winner = Winner(row: int, block: int, reward: int)

  /** A row of `winner_list.merge(nft_details, how='inner')`. */
  datatype Joined = Joined(win: Winner, nft: Nft)

  /** `unique_id` after `astype(str)`: the join key on the NFT side. */
  function IdKey(n: Nft): string {
    IntToString(n.uniqueId)
  }

  /** `Winner (Row)` after `astype(str)`: the join key on the winner side. */
  function RowKey(w: Winner): string {
    IntToString(w.row)
  }
}
