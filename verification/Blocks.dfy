/** Content-addressed blocks. A CID wraps the block it names, which makes CIDs an
    injective function of the serialized value. */
module Blocks {
  import opened Wrappers
  import opened Words
  import opened Pairs

  datatype Cid = Cid(block: Block)

  datatype MapOperation =
    | Add(key: Key, value: Value)
    | Remove(key: Key)

  /** Header names up to letter case, which every header operation ignores. */
  datatype HeaderName = Author | Signature | Proof | LamportOrder | Other(lowercase: string)

  /** One serialized pointer of a HAMT node. */
  datatype Slot =
    | Bucket(pairs: seq<KeyValue>)
    | Child(cid: Cid)

  datatype Block =
    | NodeBlock(bits: seq<Byte>, slots: seq<Slot>)
    | ChangelogBlock(did: Option<string>, changes: seq<MapOperation>)
    | MapBlock(hamt: Cid, changelog: Cid)
    | AddressBookBlock(identities: Cid)
    | AuthorityBlock(delegations: Cid, revocations: Cid)
    | SphereBlock(identity: string, content: Cid, addressBook: Cid, authority: Cid, private: Option<Cid>)
    | MemoBlock(parent: Option<Cid>, headers: seq<(HeaderName, string)>, body: Cid)
    | ChunkBlock(bytes: seq<Byte>, next: Option<Cid>)

  /** A block store; clones of a store share the blocks, as object references do. */
  class BlockStore {
    var held: set<Cid>

    constructor ()
      ensures held == {}
    {
      held := {};
    }

    method Save(block: Block) returns (cid: Cid)
      modifies this
      ensures cid == Cid(block)
      ensures held == old(held) + {cid}
    {
      cid := Cid(block);
      held := held + {cid};
    }

    method Load(cid: Cid) returns (r: Result<Block>)
      ensures r == if cid in held then Ok(cid.block) else Err(BlockNotFound)
    {
      if cid in held {
        return Ok(cid.block);
      }
      return Err(BlockNotFound);
    }
  }
}
