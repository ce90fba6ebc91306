/** Flushing a HAMT node to the block store. */
module NodeFlush {
  import opened Wrappers
  import opened Bitfields
  import opened Pairs
  import opened Blocks
  import opened Trie
  import opened Canonical
  import opened Nodes

  // ----- Keeping what is denoted -----

  /** `p'` denotes whatever `p` denotes. */
  ghost predicate PointerRefreshes(cfg: Config, p: Pointer, p': Pointer)
  {
    forall m, d: nat | d <= Levels(cfg) && PointerDenotes(cfg, p, m, d) :: PointerDenotes(cfg, p', m, d)
  }

  /** `n'` denotes whatever `n` denotes. */
  ghost predicate NodeRefreshes(cfg: Config, n: Node, n': Node)
  {
    forall m, d: nat | d <= Levels(cfg) && NodeDenotes(cfg, n, m, d) :: NodeDenotes(cfg, n', m, d)
  }

  /** `n'` is `n` with every pointer refreshed. */
  ghost predicate EachRefreshed(cfg: Config, n: Node, n': Node)
  {
    && n'.bitfield == n.bitfield && |n'.pointers| == |n.pointers|
    && forall j | 0 <= j < |n.pointers| :: PointerRefreshes(cfg, n.pointers[j], n'.pointers[j])
  }

  lemma RefreshAll(cfg: Config, n: Node, n': Node, m: Entries, d: nat)
    requires d <= Levels(cfg) && NodeDenotes(cfg, n, m, d) && EachRefreshed(cfg, n, n')
    ensures NodeDenotes(cfg, n', m, d)
  {
    if d < Levels(cfg) {
      forall i: nat | i < 256
        ensures SlotDenotes(cfg, n', m, d, i)
      {
        OpenSlot(cfg, n, m, d, i);
        if Has(n.bitfield, i) {
          RankMonotone(n.bitfield, i, 256);
          assert PointerRefreshes(cfg, ChildAt(n, i), ChildAt(n', i));
        }
      }
    }
  }

  lemma RefreshedNode(cfg: Config, n: Node, n': Node)
    requires EachRefreshed(cfg, n, n')
    ensures NodeRefreshes(cfg, n, n')
  {
    forall m, d: nat | d <= Levels(cfg) && NodeDenotes(cfg, n, m, d)
      ensures NodeDenotes(cfg, n', m, d)
    {
      RefreshAll(cfg, n, n', m, d);
    }
  }

  /** Forgetting caches keeps what is denoted. */
  lemma ForgottenCaches(cfg: Config, n: Node)
    requires Clean(n)
    ensures NodeBlockOk(Serialized(n)) && NodeRefreshes(cfg, n, Deserialized(Serialized(n)))
  {
    SerializeDeserialize(n);
    var l := Deserialized(Serialized(n));
    forall j | 0 <= j < |n.pointers|
      ensures PointerRefreshes(cfg, n.pointers[j], l.pointers[j])
    {}
    RefreshedNode(cfg, n, l);
  }

  lemma SavedPresent(held: set<Cid>, n: Node)
    requires Clean(n) && NodePresent(held, n) && Cid(Serialized(n)) in held
    ensures CidPresent(held, Cid(Serialized(n)))
  {
    var b := Serialized(n);
    forall j | 0 <= j < |b.slots| && b.slots[j].Child?
      ensures CidPresent(held, b.slots[j].cid)
    {
      assert b.slots[j] == SlotOf(n.pointers[j]);
      assert PointerPresent(held, n.pointers[j]);
    }
  }

  /** The link that replaces a flushed dirty child denotes the same entries. */
  lemma FlushedDenotes(cfg: Config, n: Node, c: Node)
    requires NodeRefreshes(cfg, n, c) && Clean(c)
    ensures PointerRefreshes(cfg, Dirty(n), Link(Cid(Serialized(c)), Some(c)))
  {
    ForgottenCaches(cfg, c);
    forall m, d: nat | d <= Levels(cfg) && PointerDenotes(cfg, Dirty(n), m, d)
      ensures PointerDenotes(cfg, Link(Cid(Serialized(c)), Some(c)), m, d)
    {
      assert NodeDenotes(cfg, c, m, d);
    }
  }

  // ----- Flush -----

  /** The CIDs of the dirty nodes below `n`, as they are after flushing. */
  ghost function DirtyCids(n: Node): set<Cid>
  {
    set j, c | 0 <= j < |n.pointers| && c in DirtyCidsBelow(n.pointers[j]) :: c
  }

  ghost function DirtyCidsBelow(p: Pointer): set<Cid>
  {
    if p.Dirty? then DirtyCids(p.node) + {Cid(Frozen(p.node))} else {}
  }

  ghost function DirtyCidsUpTo(n: Node, k: nat): set<Cid>
    requires k <= |n.pointers|
    ensures k == |n.pointers| ==> DirtyCidsUpTo(n, k) == DirtyCids(n)
  {
    set j, c | 0 <= j < k && c in DirtyCidsBelow(n.pointers[j]) :: c
  }

  lemma DirtyCidsStep(n: Node, k: nat)
    requires k < |n.pointers|
    ensures DirtyCidsUpTo(n, k + 1) == DirtyCidsUpTo(n, k) + DirtyCidsBelow(n.pointers[k])
  {}

  lemma {:induction false} DirtyAreNodes(n: Node, c: Cid)
    requires c in DirtyCids(n)
    ensures c.block.NodeBlock?
  {
    var j :| 0 <= j < |n.pointers| && c in DirtyCidsBelow(n.pointers[j]);
    if c in DirtyCids(n.pointers[j].node) {
      DirtyAreNodes(n.pointers[j].node, c);
    }
  }

  lemma NoDirtyCids(n: Node)
    ensures DirtyCidsUpTo(n, 0) == {}
  {}

  /** The first `j` pointers of `n` have been flushed, giving `n'`. */
  ghost predicate FlushedShape(cfg: Config, n: Node, n': Node, j: nat)
    requires j <= |n.pointers|
  {
    && n'.bitfield == n.bitfield && |n'.pointers| == |n.pointers|
    && (forall t | 0 <= t < j :: FlushedAs(cfg, n.pointers[t], n'.pointers[t]))
    && (forall t | j <= t < |n.pointers| :: n'.pointers[t] == n.pointers[t])
  }

  /** A flushed pointer can be serialized, to what it freezes to, and denotes the same. */
  ghost predicate FlushedAs(cfg: Config, p: Pointer, p': Pointer)
  {
    !p'.Dirty? && SlotOf(p') == FrozenSlot(p) && PointerRefreshes(cfg, p, p')
  }

  /** What those pointers added to the store. */
  ghost predicate FlushedBlocks(n: Node, n': Node, j: nat, before: set<Cid>, held: set<Cid>)
    requires j <= |n.pointers|
  {
    && held == before + DirtyCidsUpTo(n, j)
    && (NodePresent(before, n) ==> NodePresent(held, n'))
  }

  lemma ShapeStep(cfg: Config, n: Node, n': Node, j: nat, p: Pointer)
    requires j < |n.pointers| && FlushedShape(cfg, n, n', j) && FlushedAs(cfg, n.pointers[j], p)
    ensures FlushedShape(cfg, n, n'.(pointers := n'.pointers[j := p]), j + 1)
  {}

  lemma BlocksStep(n: Node, n': Node, j: nat, p: Pointer, before: set<Cid>, held: set<Cid>, held': set<Cid>)
    requires j < |n.pointers| == |n'.pointers| && n'.pointers[j] == n.pointers[j]
    requires FlushedBlocks(n, n', j, before, held)
    requires held' == held + DirtyCidsBelow(n.pointers[j])
    requires PointerPresent(held, n.pointers[j]) ==> PointerPresent(held', p)
    ensures FlushedBlocks(n, n'.(pointers := n'.pointers[j := p]), j + 1, before, held')
  {
    DirtyCidsStep(n, j);
    if NodePresent(before, n) {
      NodePresentMonotone(held, held', n');
    }
  }

  lemma FlushDone(cfg: Config, n: Node, n': Node)
    requires FlushedShape(cfg, n, n', |n.pointers|)
    ensures Clean(n') && Serialized(n') == Frozen(n) && NodeRefreshes(cfg, n, n')
  {
    assert forall t | 0 <= t < |n.pointers| :: FlushedAs(cfg, n.pointers[t], n'.pointers[t]);
    assert Serialized(n').slots == Frozen(n).slots;
    RefreshedNode(cfg, n, n');
  }

  /** `Node::flush`, on any node: every dirty descendant is saved and becomes a link with a
      filled cache. Exactly the blocks of dirty descendants are written, the flushed node can
      always be serialized, to what the node freezes to, and denotes whatever it denoted. */
  method Flush(cfg: Config, n: Node, store: BlockStore) returns (n': Node, r: Result<()>)
    modifies store
    ensures r.Ok?
    ensures Clean(n') && Serialized(n') == Frozen(n) && NodeRefreshes(cfg, n, n')
    ensures store.held == old(store.held) + DirtyCids(n)
    ensures NodePresent(old(store.held), n) ==> NodePresent(store.held, n')
    decreases n
  {
    n' := n;
    r := Ok(());
    NoDirtyCids(n);
    for j := 0 to |n.pointers|
      invariant r.Ok? && FlushedShape(cfg, n, n', j) && FlushedBlocks(n, n', j, old(store.held), store.held)
    {
      ghost var held := store.held;
      var p;
      p, r := FlushSlot(cfg, n.pointers[j], store);
      ShapeStep(cfg, n, n', j, p);
      BlocksStep(n, n', j, p, old(store.held), held, store.held);
      n' := n'.(pointers := n'.pointers[j := p]);
    }
    FlushDone(cfg, n, n');
  }

  /** Any pointer after flushing: only dirty ones are written. */
  method FlushSlot(cfg: Config, p: Pointer, store: BlockStore) returns (p': Pointer, r: Result<()>)
    modifies store
    ensures r.Ok? && FlushedAs(cfg, p, p')
    ensures store.held == old(store.held) + DirtyCidsBelow(p)
    ensures PointerPresent(old(store.held), p) ==> PointerPresent(store.held, p')
    decreases p, 1
  {
    if p.Dirty? {
      p', r := FlushPointer(cfg, p, store);
    } else {
      p', r := p, Ok(());
    }
  }

  method FlushPointer(cfg: Config, p: Pointer, store: BlockStore) returns (p': Pointer, r: Result<()>)
    requires p.Dirty?
    modifies store
    ensures r.Ok? && FlushedAs(cfg, p, p')
    ensures p'.Link? && p'.cache.Some? && Serialize(p'.cache.value) == Ok(p'.cid.block)
    ensures store.held == old(store.held) + DirtyCidsBelow(p)
    ensures PointerPresent(old(store.held), p) ==> PointerPresent(store.held, p')
    decreases p, 0
  {
    var c;
    c, r := Flush(cfg, p.node, store);
    var block := Serialize(c);
    assert block.Ok?;
    ghost var flushed := store.held;
    var cid := store.Save(block.value);
    p' := Link(cid, Some(c));
    FlushedDenotes(cfg, p.node, c);
    if NodePresent(old(store.held), p.node) {
      NodePresentMonotone(flushed, store.held, c);
      SavedPresent(store.held, c);
    }
  }
}
