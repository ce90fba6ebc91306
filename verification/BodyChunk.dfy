/** Bodies stored as linked chunks of bytes. */
module BodyChunks {
  import opened Wrappers
  import opened Words
  import opened Blocks

  function Joined(pieces: seq<seq<Byte>>): seq<Byte>
  {
    if pieces == [] then [] else pieces[0] + Joined(pieces[1..])
  }

  /** What the content-defined chunker may answer: contiguous, non-empty pieces. */
  predicate Partition(bytes: seq<Byte>, pieces: seq<seq<Byte>>)
  {
    Joined(pieces) == bytes && forall p | p in pieces :: p != []
  }

  /** A chain of chunk blocks. */
  predicate IsChunk(cid: Cid)
  {
    cid.block.ChunkBlock? && (cid.block.next.Some? ==> IsChunk(cid.block.next.value))
  }

  function Pieces(cid: Cid): seq<seq<Byte>>
    requires IsChunk(cid)
  {
    [cid.block.bytes] + if cid.block.next.Some? then Pieces(cid.block.next.value) else []
  }

  predicate ChainHeld(held: set<Cid>, cid: Cid)
    requires IsChunk(cid)
  {
    cid in held && (cid.block.next.Some? ==> ChainHeld(held, cid.block.next.value))
  }

  lemma {:induction false} ChainHeldMonotone(held: set<Cid>, more: set<Cid>, cid: Cid)
    requires IsChunk(cid) && held <= more && ChainHeld(held, cid)
    ensures ChainHeld(more, cid)
  {
    if cid.block.next.Some? {
      ChainHeldMonotone(held, more, cid.block.next.value);
    }
  }

  /** The CID of a body names its pieces: equal pieces, equal CID, and the other way. */
  lemma {:induction false} CidNamesPieces(a: Cid, b: Cid)
    requires IsChunk(a) && IsChunk(b)
    ensures a == b <==> Pieces(a) == Pieces(b)
  {
    if Pieces(a) == Pieces(b) {
      assert a.block.bytes == Pieces(a)[0] == Pieces(b)[0] == b.block.bytes;
      assert Pieces(a)[1..] == Pieces(b)[1..];
      if a.block.next.Some? && b.block.next.Some? {
        assert Pieces(a)[1..] == Pieces(a.block.next.value) && Pieces(b)[1..] == Pieces(b.block.next.value);
        CidNamesPieces(a.block.next.value, b.block.next.value);
      }
    }
  }

  /** `BodyChunkIpld::store_bytes`: the chunks are saved from the last to the first. Storing
      fails exactly when there are no bytes. */
  method StoreBytes(bytes: seq<Byte>, pieces: seq<seq<Byte>>, store: BlockStore) returns (r: Result<Cid>)
    requires Partition(bytes, pieces)
    modifies store
    ensures old(store.held) <= store.held
    ensures r.Ok? <==> bytes != []
    ensures r.Err? ==> r.error == NothingToStore && store.held == old(store.held)
    ensures r.Ok? ==> IsChunk(r.value) && Pieces(r.value) == pieces && ChainHeld(store.held, r.value)
  {
    var next: Option<Cid> := None;
    for i := |pieces| downto 0
      invariant old(store.held) <= store.held
      invariant next.None? <==> i == |pieces|
      invariant next.None? ==> store.held == old(store.held)
      invariant next.Some? ==> IsChunk(next.value) && Pieces(next.value) == pieces[i..]
      invariant next.Some? ==> ChainHeld(store.held, next.value)
    {
      ghost var held := store.held;
      var cid := store.Save(ChunkBlock(pieces[i], next));
      if next.Some? {
        ChainHeldMonotone(held, store.held, next.value);
      }
      assert pieces[i..] == [pieces[i]] + pieces[i + 1..];
      next := Some(cid);
    }
    assert pieces == [] <==> bytes == [] by {
      if pieces != [] {
        assert pieces[0] in pieces;
      }
    }
    return if next.Some? then Ok(next.value) else Err(NothingToStore);
  }

  /** The chunk at position `i` of a chain. */
  function ChunkAt(cid: Cid, i: nat): Cid
    requires IsChunk(cid) && i < |Pieces(cid)|
    decreases i
  {
    if i == 0 then cid else ChunkAt(cid.block.next.value, i - 1)
  }

  /** The first `n` chunks are held. */
  predicate HeldUpTo(held: set<Cid>, cid: Cid, n: nat)
    requires IsChunk(cid) && n <= |Pieces(cid)|
  {
    forall i | 0 <= i < n :: ChunkAt(cid, i) in held
  }

  lemma {:induction false} NextChunk(head: Cid, cid: Cid, i: nat)
    requires IsChunk(head) && i < |Pieces(head)| && ChunkAt(head, i) == cid
    ensures IsChunk(cid) && Pieces(head)[i] == cid.block.bytes
    ensures cid.block.next.Some? <==> i + 1 < |Pieces(head)|
    ensures cid.block.next.Some? ==> ChunkAt(head, i + 1) == cid.block.next.value
    decreases i
  {
    if i > 0 {
      NextChunk(head.block.next.value, cid, i - 1);
    }
  }

  lemma {:induction false} ChainHeldIff(held: set<Cid>, cid: Cid)
    requires IsChunk(cid)
    ensures ChainHeld(held, cid) <==> HeldUpTo(held, cid, |Pieces(cid)|)
  {
    assert ChunkAt(cid, 0) == cid;
    if cid.block.next.Some? {
      var next := cid.block.next.value;
      ChainHeldIff(held, next);
      assert forall i | 0 <= i < |Pieces(next)| :: ChunkAt(cid, i + 1) == ChunkAt(next, i);
      assert forall i | 0 < i < |Pieces(cid)| :: ChunkAt(cid, i) == ChunkAt(next, i - 1);
    }
  }

  /** `BodyChunkDecoder::stream`: the pieces in order, up to the first missing chunk. */
  method Stream(head: Cid, store: BlockStore) returns (pieces: seq<seq<Byte>>, r: Result<()>)
    requires IsChunk(head)
    ensures r.Ok? <==> ChainHeld(store.held, head)
    ensures r.Ok? ==> pieces == Pieces(head)
    ensures |pieces| <= |Pieces(head)| && pieces == Pieces(head)[..|pieces|] && HeldUpTo(store.held, head, |pieces|)
    ensures r.Err? ==> r.error == BlockNotFound
    ensures r.Err? ==> |pieces| < |Pieces(head)| && ChunkAt(head, |pieces|) !in store.held
  {
    var next := Some(head);
    pieces := [];
    ChainHeldIff(store.held, head);
    while next.Some?
      invariant |pieces| <= |Pieces(head)| && pieces == Pieces(head)[..|pieces|] && HeldUpTo(store.held, head, |pieces|)
      invariant next.Some? <==> |pieces| < |Pieces(head)|
      invariant next.Some? ==> IsChunk(next.value) && ChunkAt(head, |pieces|) == next.value
      decreases next
    {
      NextChunk(head, next.value, |pieces|);
      var chunk := store.Load(next.value);
      if chunk.Err? {
        return pieces, Err(chunk.error);
      }
      pieces := pieces + [chunk.value.bytes];
      next := chunk.value.next;
    }
    return pieces, Ok(());
  }

  /** `BodyChunkIpld::load_all_bytes` of the chunk named by `head`, which is at hand. It
      gives back the bytes that were partitioned, whatever the partition was. */
  method LoadAllBytes(head: Cid, store: BlockStore) returns (r: Result<seq<Byte>>)
    requires IsChunk(head)
    ensures r.Ok? <==> (head.block.next.Some? ==> ChainHeld(store.held, head.block.next.value))
    ensures r.Ok? ==> r.value == Joined(Pieces(head))
    ensures r.Ok? ==> forall bytes :: Partition(bytes, Pieces(head)) ==> r.value == bytes
    ensures r.Err? ==> r.error == BlockNotFound
  {
    var all := head.block.bytes;
    var next := head.block.next;
    while next.Some?
      invariant next.Some? ==> IsChunk(next.value)
      invariant Joined(Pieces(head)) == all + if next.Some? then Joined(Pieces(next.value)) else []
      invariant (head.block.next.Some? ==> ChainHeld(store.held, head.block.next.value)) <==>
                (next.Some? ==> ChainHeld(store.held, next.value))
      decreases next
    {
      var chunk := store.Load(next.value);
      if chunk.Err? {
        return Err(chunk.error);
      }
      all := all + chunk.value.bytes;
      next := chunk.value.next;
    }
    return Ok(all);
  }
}
