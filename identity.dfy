/**
 * The slice of the DID pallet that the nft pallet uses: the metadata stored
 * for a decentralised identifier (its pot account and, once minted, its NFT
 * class) and the signed origin that resolves to a DID and an account.
 */
module Identity {
  import opened Primitives

  /** `MetaOf`: the pot that collects backing, and the NFT class once minted. */
  datatype Meta = Meta(pot: Account, nft: Option<nat>)

  /** What `EnsureDid::ensure_origin` yields for a signed origin with a DID. */
  datatype Caller = Caller(did: Did, who: Account)

  class Registry {
    var metaOf: map<Did, Meta>

    constructor (metaOf: map<Did, Meta>)
      ensures this.metaOf == metaOf
    {
      this.metaOf := metaOf;
    }

    /** `Did::set_meta`. */
    method SetMeta(did: Did, meta: Meta)
      modifies this
      ensures metaOf == old(metaOf)[did := meta]
    {
      metaOf := metaOf[did := meta];
    }
  }
}
