/** The dashboard's two sidebar filters over the enriched NFT table. */
module Filters {
  import opened Seqs
  import opened Tables

  /** The selection value that switches a filter off. */
  const All: string := "All"

  /** The row passes both filters: equipment equal to the selected equipment,
      and shortened owner equal to the selected wallet, each unless "All". */
  predicate Passes(equipment: string, wallet: string, n: Nft) {
    (equipment == All || n.raw.equipment == equipment) &&
    (wallet == All || n.shortOwner == Address(wallet))
  }

  function Selection(equipment: string, wallet: string): Nft -> bool {
    n => Passes(equipment, wallet, n)
  }

  /** `filtered_nft_details`: the equipment filter, then the wallet filter. */
  function FilterNfts(nfts: seq<Nft>, equipment: string, wallet: string): (r: seq<Nft>)
    ensures IsSubsequence(r, nfts)
    ensures forall i :: 0 <= i < |r| ==> r[i] in nfts
    ensures equipment != All ==> forall i :: 0 <= i < |r| ==> r[i].raw.equipment == equipment
    ensures wallet != All ==> forall i :: 0 <= i < |r| ==> r[i].shortOwner == Address(wallet)
    ensures forall i :: 0 <= i < |nfts| && Passes(equipment, wallet, nfts[i]) ==> nfts[i] in r
    ensures equipment == All && wallet == All ==> r == nfts
  {
    var byEquipment := if equipment != All then Filter(nfts, (n: Nft) => n.raw.equipment == equipment) else nfts;
    var byWallet := if wallet != All then Filter(byEquipment, (n: Nft) => n.shortOwner == Address(wallet)) else byEquipment;
    FilterEqualsSelection(nfts, equipment, wallet);
    byWallet
  }

  /** Applying the filters one after the other is one selection with both predicates. */
  lemma FilterEqualsSelection(nfts: seq<Nft>, equipment: string, wallet: string)
    ensures (var byEquipment := if equipment != All then Filter(nfts, (n: Nft) => n.raw.equipment == equipment) else nfts;
             var byWallet := if wallet != All then Filter(byEquipment, (n: Nft) => n.shortOwner == Address(wallet)) else byEquipment;
             byWallet == Filter(nfts, Selection(equipment, wallet)))
  {
    var eq := (n: Nft) => n.raw.equipment == equipment;
    var wa := (n: Nft) => n.shortOwner == Address(wallet);
    var sel := Selection(equipment, wallet);
    if equipment != All && wallet != All {
      FilterFilter(nfts, eq, wa);
      FilterAgree(nfts, (n: Nft) => eq(n) && wa(n), sel);
    } else if equipment != All {
      FilterAgree(nfts, eq, sel);
    } else if wallet != All {
      FilterAgree(nfts, wa, sel);
    } else {
      FilterKeepsAll(nfts, sel);
    }
  }
}
