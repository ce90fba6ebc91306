/** Deletion from a HAMT node and the collapse that restores the canonical form. */
module NodeRemoval {
  import opened Wrappers
  import opened Bitfields
  import opened HashBitReader
  import opened Pairs
  import opened Blocks
  import opened Trie
  import opened Canonical
  import opened Listings
  import opened Nodes

  // ----- Counting the entries of a node -----

  predicate AllBuckets(ps: seq<Pointer>)
  {
    forall j | 0 <= j < |ps| :: ps[j].Values?
  }

  function PairLists(ps: seq<Pointer>): seq<seq<KeyValue>>
    requires AllBuckets(ps)
  {
    seq(|ps|, j requires 0 <= j < |ps| => ps[j].pairs)
  }

  lemma NoPointersIffEmpty(cfg: Config, n: Node, m: Entries, d: nat)
    requires d <= Levels(cfg) && NodeDenotes(cfg, n, m, d)
    ensures n.pointers == [] <==> m == map[]
  {
    if d < Levels(cfg) {
      if m != map[] {
        var k :| k in m;
        var i := Digit(cfg, k, d);
        assert k in Sub(cfg, m, d, i);
        OpenSlot(cfg, n, m, d, i);
        RankMonotone(n.bitfield, i, 256);
      }
      if n.pointers != [] {
        var i := Select(n.bitfield, 0, 256);
        OpenSlot(cfg, n, m, d, i);
        var k :| k in Sub(cfg, m, d, i);
      }
    }
  }

  lemma SlotAt(cfg: Config, n: Node, m: Entries, d: nat, j: nat) returns (i: nat)
    requires d < Levels(cfg) && NodeDenotes(cfg, n, m, d) && j < |n.pointers|
    ensures i < 256 && Has(n.bitfield, i) && Rank(n.bitfield, i) == j && ChildAt(n, i) == n.pointers[j]
    ensures PointerDenotes(cfg, n.pointers[j], Sub(cfg, m, d, i), d + 1)
  {
    i := Select(n.bitfield, j, 256);
    OpenSlot(cfg, n, m, d, i);
  }

  lemma SubSize(cfg: Config, m: Entries, d: nat, i: nat)
    requires d < Levels(cfg)
    ensures |Sub(cfg, m, d, i)| <= |m|
  {
    SubsetSize(Sub(cfg, m, d, i).Keys, m.Keys);
  }

  /** A node with a child node holds more than a bucket's worth of entries. */
  lemma ChildNodeIsLarge(cfg: Config, n: Node, m: Entries, d: nat, j: nat)
    requires d < Levels(cfg) && NodeDenotes(cfg, n, m, d) && j < |n.pointers| && !n.pointers[j].Values?
    ensures |m| > MAX_ARRAY_WIDTH
  {
    var i := SlotAt(cfg, n, m, d, j);
    SubSize(cfg, m, d, i);
  }

  /** The buckets of a node without children list its map. */
  lemma BucketsEnumerate(cfg: Config, n: Node, m: Entries, d: nat)
    requires d < Levels(cfg) && NodeDenotes(cfg, n, m, d) && AllBuckets(n.pointers)
    ensures Enumerates(Concat(PairLists(n.pointers)), m)
    ensures |m| == |Concat(PairLists(n.pointers))| >= |n.pointers|
  {
    var lists := PairLists(n.pointers);
    forall i: nat | i < 256
      ensures ListsChild(cfg, n.bitfield, lists, m, d, i)
    {
      OpenSlot(cfg, n, m, d, i);
      if Has(n.bitfield, i) {
        RankMonotone(n.bitfield, i, 256);
        assert lists[Rank(n.bitfield, i)] == ChildAt(n, i).pairs;
      }
    }
    AllEnumerated(cfg, n.bitfield, lists, m, d);
    EnumerationSize(Concat(lists), m);
    forall j | 0 <= j < |lists|
      ensures lists[j] != []
    {
      var i := SlotAt(cfg, n, m, d, j);
      EnumerationSize(lists[j], Sub(cfg, m, d, i));
    }
    ConcatNonEmpty(lists);
  }

  lemma SingleBucket(cfg: Config, n: Node, m: Entries, d: nat)
    requires d < Levels(cfg) && NodeDenotes(cfg, n, m, d) && |n.pointers| == 1 && n.pointers[0].Values?
    ensures PointerDenotes(cfg, n.pointers[0], m, d)
  {
    BucketsEnumerate(cfg, n, m, d);
    var pairs := n.pointers[0].pairs;
    assert PairLists(n.pointers) == [pairs];
    assert Concat([pairs]) == Concat([]) + pairs == pairs;
    var i := SlotAt(cfg, n, m, d, 0);
    EnumerationSize(pairs, Sub(cfg, m, d, i));
  }

  lemma {:induction false} ConcatPrefix(ps: seq<Pointer>, j: nat)
    requires AllBuckets(ps) && j < |ps|
    ensures Concat(PairLists(ps)[..j + 1]) == Concat(PairLists(ps)[..j]) + ps[j].pairs
  {
    ConcatStep(PairLists(ps), j);
  }

  // ----- Collapse -----

  /** Adds up the bucket sizes, giving up at the first child node. */
  method CountValues(ps: seq<Pointer>) returns (r: Option<nat>)
    ensures r.Some? <==> AllBuckets(ps)
    ensures r.Some? ==> r.value == |Concat(PairLists(ps))|
  {
    var childrenLen := 0;
    ghost var lists: seq<seq<KeyValue>> := [];
    for j := 0 to |ps|
      invariant AllBuckets(ps[..j])
      invariant lists == PairLists(ps[..j]) && childrenLen == |Concat(lists)|
    {
      if !ps[j].Values? {
        return None;
      }
      childrenLen := childrenLen + |ps[j].pairs|;
      lists := lists + [ps[j].pairs];
      assert lists[..|lists| - 1] == PairLists(ps[..j]);
      assert lists == PairLists(ps[..j + 1]);
    }
    assert ps[..|ps|] == ps;
    return Some(childrenLen);
  }

  method TakeValues(ps: seq<Pointer>) returns (vals: seq<KeyValue>)
    requires AllBuckets(ps)
    ensures vals == Concat(PairLists(ps))
  {
    vals := [];
    for j := 0 to |ps|
      invariant vals == Concat(PairLists(ps)[..j])
    {
      vals := vals + ps[j].pairs;
      ConcatPrefix(ps, j);
    }
    assert PairLists(ps)[..|ps|] == PairLists(ps);
  }

  /** `Pointer::clean` on a dirty pointer: the canonical pointer for the child's map.
      It fails exactly when the child is empty. */
  method Collapse(cfg: Config, n: Node, ghost m: Entries, ghost d: nat, ghost held: set<Cid>)
    returns (p: Pointer, r: Result<()>)
    requires d <= Levels(cfg) && NodeDenotes(cfg, n, m, d)
    ensures r == if m == map[] then Err(NoPointers) else Ok(())
    ensures r.Ok? ==> PointerDenotes(cfg, p, m, d)
    ensures |m| > MAX_ARRAY_WIDTH ==> p == Dirty(n)
    ensures NodePresent(held, n) ==> PointerPresent(held, p)
  {
    NoPointersIffEmpty(cfg, n, m, d);
    p, r := Dirty(n), Ok(());
    var len := |n.pointers|;
    if len == 0 {
      r := Err(NoPointers);
    } else if len == 1 {
      if n.pointers[0].Values? {
        p := Values(n.pointers[0].pairs);
        SingleBucket(cfg, n, m, d);
      } else {
        ChildNodeIsLarge(cfg, n, m, d, 0);
      }
    } else if len <= MAX_ARRAY_WIDTH {
      var childrenLen := CountValues(n.pointers);
      if childrenLen.None? {
        var j :| 0 <= j < |n.pointers| && !n.pointers[j].Values?;
        ChildNodeIsLarge(cfg, n, m, d, j);
        return;
      }
      BucketsEnumerate(cfg, n, m, d);
      if childrenLen.value > MAX_ARRAY_WIDTH {
        return;
      }
      var childVals := TakeValues(n.pointers);
      childVals := SortByKey(childVals, m);
      p := Values(childVals);
    } else {
      LargeNode(cfg, n, m, d);
    }
  }

  lemma LargeNode(cfg: Config, n: Node, m: Entries, d: nat)
    requires d < Levels(cfg) && NodeDenotes(cfg, n, m, d) && |n.pointers| > MAX_ARRAY_WIDTH
    ensures |m| > MAX_ARRAY_WIDTH
  {
    if AllBuckets(n.pointers) {
      BucketsEnumerate(cfg, n, m, d);
    } else {
      var j :| 0 <= j < |n.pointers| && !n.pointers[j].Values?;
      ChildNodeIsLarge(cfg, n, m, d, j);
    }
  }

  // ----- Deletion -----

  /** The effect of a deletion on a node at depth `d`. */
  ghost predicate NodeRemoved(cfg: Config, n: Node, n': Node, m: Entries, d: nat, key: Key, held: set<Cid>,
                              r: Result<Option<KeyValue>>)
    requires d <= Levels(cfg)
  {
    && (Clean(n) && (r.Err? || r.value.None?) ==> Clean(n'))
    && match r
       case Ok(removed) =>
         && NodeDenotes(cfg, n', m - {key}, d)
         && removed == (if key in m then Some(KeyValue(key, m[key])) else None)
         && (NodePresent(held, n) ==> NodePresent(held, n'))
       case Err(error) =>
         error == BlockNotFound && NodeDenotes(cfg, n', m, d) && !NodePresent(held, n)
  }

  method RmChild(n: Node, i: nat, idx: nat) returns (n': Node)
    requires WellIndexed(n) && idx < 256 && Has(n.bitfield, idx) && i == Rank(n.bitfield, idx)
    ensures n' == WithoutChild(n, idx)
  {
    RankMonotone(n.bitfield, idx, 256);
    n' := Node(ClearBit(n.bitfield, idx), n.pointers[..i] + n.pointers[i + 1..]);
  }

  lemma SubsAfterRemoval(cfg: Config, m: Entries, d: nat, key: Key)
    requires d < Levels(cfg)
    ensures forall j: nat | j < 256 ::
      Sub(cfg, m - {key}, d, j) ==
      if j == Digit(cfg, key, d) then Sub(cfg, m, d, j) - {key} else Sub(cfg, m, d, j)
    ensures key in m <==> key in Sub(cfg, m, d, Digit(cfg, key, d))
  {
    forall j: nat | j < 256
      ensures Sub(cfg, m - {key}, d, j) ==
        if j == Digit(cfg, key, d) then Sub(cfg, m, d, j) - {key} else Sub(cfg, m, d, j)
    {
      SubOfRemoval(cfg, m, d, key, j);
    }
  }

  /** Replacing the child by one for the remaining entries completes the deletion. */
  lemma RemovalLifts(cfg: Config, n: Node, m: Entries, d: nat, p': Pointer, key: Key, held: set<Cid>,
                     r: Result<Option<KeyValue>>)
    requires d < Levels(cfg) && NodeDenotes(cfg, n, m, d)
    requires Has(n.bitfield, Digit(cfg, key, d))
    requires PointerRemoved(cfg, ChildAt(n, Digit(cfg, key, d)), p', Sub(cfg, m, d, Digit(cfg, key, d)), d + 1, key,
                            held, r)
    ensures NodeRemoved(cfg, n, WithChild(n, Digit(cfg, key, d), p'), m, d, key, held, r)
  {
    var i := Digit(cfg, key, d);
    RankMonotone(n.bitfield, i, 256);
    SubsAfterRemoval(cfg, m, d, key);
    ReplaceChild(cfg, n, m, d, i, p', if r.Ok? then m - {key} else m, held);
  }

  /** The effect on a pointer that still has entries afterwards. */
  ghost predicate PointerRemoved(cfg: Config, p: Pointer, p': Pointer, m: Entries, d: nat, key: Key, held: set<Cid>,
                                 r: Result<Option<KeyValue>>)
    requires d <= Levels(cfg)
  {
    && (!p.Dirty? && (r.Err? || r.value.None?) ==> !p'.Dirty?)
    && match r
       case Ok(removed) =>
         && m - {key} != map[] && PointerDenotes(cfg, p', m - {key}, d)
         && removed == (if key in m then Some(KeyValue(key, m[key])) else None)
         && (PointerPresent(held, p) ==> PointerPresent(held, p'))
       case Err(error) =>
         error == BlockNotFound && m != map[] && PointerDenotes(cfg, p', m, d) && !PointerPresent(held, p)
  }

  lemma RemovalSize(m: Entries, key: Key)
    ensures |m - {key}| == if key in m then |m| - 1 else |m|
    ensures key !in m ==> m - {key} == m
  {
    if key in m {
      assert m.Keys == (m - {key}).Keys + {key};
    } else {
      assert m - {key} == m;
    }
  }

  lemma NothingToRemove(cfg: Config, n: Node, m: Entries, d: nat, key: Key)
    requires d < Levels(cfg) && NodeDenotes(cfg, n, m, d) && !Has(n.bitfield, Digit(cfg, key, d))
    ensures key !in m && m - {key} == m
  {
    SubsAfterRemoval(cfg, m, d, key);
    OpenSlot(cfg, n, m, d, Digit(cfg, key, d));
    assert key !in Sub(cfg, m, d, Digit(cfg, key, d));
    RemovalSize(m, key);
  }

  method RmValue(cfg: Config, n: Node, hb: HashBits, key: Key, store: BlockStore, ghost m: Entries, ghost d: nat)
    returns (n': Node, r: Result<Option<KeyValue>>)
    requires d < Levels(cfg) && NodeDenotes(cfg, n, m, d)
    requires ReadsAt(cfg, hb, key, d)
    ensures NodeRemoved(cfg, n, n', m, d, key, store.held, r)
    decreases Levels(cfg) - d, 0
  {
    var hb', next := NextDigit(cfg, hb, key, d);
    var idx := next.value;
    if !TestBit(n.bitfield, idx) {
      NothingToRemove(cfg, n, m, d, key);
      return n, Ok(None);
    }
    var cindex := IndexForBitPos(n.bitfield, idx);
    RankMonotone(n.bitfield, idx, 256);
    var child := n.pointers[cindex];
    assert child == ChildAt(n, idx);
    OpenSlot(cfg, n, m, d, idx);
    if child.Values? {
      n', r := RmFromBucket(cfg, n, cindex, idx, key, m, d, store.held);
    } else {
      var p';
      p', r := RmBelow(cfg, child, hb', key, store, Sub(cfg, m, d, idx), d + 1);
      n' := n.(pointers := n.pointers[cindex := p']);
      RemovalLifts(cfg, n, m, d, p', key, store.held, r);
    }
  }

  /** Deletion from the bucket at slot `cindex`; an emptied bucket leaves the node. */
  method RmFromBucket(cfg: Config, n: Node, cindex: nat, idx: nat, key: Key, ghost m: Entries, ghost d: nat,
                      ghost held: set<Cid>)
    returns (n': Node, r: Result<Option<KeyValue>>)
    requires d < Levels(cfg) && NodeDenotes(cfg, n, m, d) && idx == Digit(cfg, key, d)
    requires Has(n.bitfield, idx) && cindex == Rank(n.bitfield, idx) && ChildAt(n, idx).Values?
    ensures NodeRemoved(cfg, n, n', m, d, key, held, r)
  {
    RankMonotone(n.bitfield, idx, 256);
    OpenSlot(cfg, n, m, d, idx);
    ghost var mi := Sub(cfg, m, d, idx);
    var vals := n.pointers[cindex].pairs;
    EnumerationSize(vals, mi);
    var at := Position(vals, key, mi);
    BucketRemoval(cfg, m, d, key);
    if at.None? {
      return n, Ok(None);
    }
    var i := at.value;
    r := Ok(Some(vals[i]));
    if |vals| == 1 {
      n' := RmChild(n, cindex, idx);
      LastPairRemoved(cfg, n, m, d, key, held);
    } else {
      var p' := Values(vals[..i] + vals[i + 1..]);
      n' := n.(pointers := n.pointers[cindex := p']);
      OnePairRemoved(cfg, n, m, d, key, i, held);
    }
  }

  /** Removing the only pair of a bucket removes the bucket. */
  lemma LastPairRemoved(cfg: Config, n: Node, m: Entries, d: nat, key: Key, held: set<Cid>)
    requires d < Levels(cfg) && NodeDenotes(cfg, n, m, d) && Has(n.bitfield, Digit(cfg, key, d))
    requires key in m && |Sub(cfg, m, d, Digit(cfg, key, d))| == 1
    ensures NodeRemoved(cfg, n, WithoutChild(n, Digit(cfg, key, d)), m, d, key, held, Ok(Some(KeyValue(key, m[key]))))
  {
    BucketRemoval(cfg, m, d, key);
    SubsAfterRemoval(cfg, m, d, key);
    DenotesWithoutChild(cfg, n, m, d, Digit(cfg, key, d), m - {key});
    RankMonotone(n.bitfield, Digit(cfg, key, d), 256);
  }

  /** Removing one of several pairs keeps the bucket. */
  lemma OnePairRemoved(cfg: Config, n: Node, m: Entries, d: nat, key: Key, i: nat, held: set<Cid>)
    requires d < Levels(cfg) && NodeDenotes(cfg, n, m, d) && Has(n.bitfield, Digit(cfg, key, d))
    requires ChildAt(n, Digit(cfg, key, d)).Values?
    requires var vals := ChildAt(n, Digit(cfg, key, d)).pairs;
      && i < |vals| && vals[i].key == key && |vals| == |Sub(cfg, m, d, Digit(cfg, key, d))| > 1
    ensures var vals := ChildAt(n, Digit(cfg, key, d)).pairs;
      && key in m
      && NodeRemoved(cfg, n, WithChild(n, Digit(cfg, key, d), Values(vals[..i] + vals[i + 1..])), m, d, key, held,
                     Ok(Some(KeyValue(key, m[key]))))
  {
    var idx := Digit(cfg, key, d);
    var vals, mi := ChildAt(n, idx).pairs, Sub(cfg, m, d, idx);
    OpenSlot(cfg, n, m, d, idx);
    BucketRemoval(cfg, m, d, key);
    RemoveAt(vals, i, mi);
    RemovalLifts(cfg, n, m, d, Values(vals[..i] + vals[i + 1..]), key, held, Ok(Some(KeyValue(key, m[key]))));
  }

  lemma BucketRemoval(cfg: Config, m: Entries, d: nat, key: Key)
    requires d < Levels(cfg)
    ensures var mi := Sub(cfg, m, d, Digit(cfg, key, d));
      && (key in m <==> key in mi) && (key in m ==> m[key] == mi[key])
      && (key !in m ==> m - {key} == m)
      && |mi - {key}| == (if key in m then |mi| - 1 else |mi|)
      && (|mi - {key}| == 0 ==> mi - {key} == map[])
  {
    RemovalSize(m, key);
    RemovalSize(Sub(cfg, m, d, Digit(cfg, key, d)), key);
  }

  /** The deletion continues below a child node and the child is collapsed. */
  method RmBelow(cfg: Config, p: Pointer, hb: HashBits, key: Key, store: BlockStore, ghost m: Entries, ghost d: nat)
    returns (p': Pointer, r: Result<Option<KeyValue>>)
    requires d <= Levels(cfg) && PointerDenotes(cfg, p, m, d) && !p.Values?
    requires ReadsAt(cfg, hb, key, d)
    ensures PointerRemoved(cfg, p, p', m, d, key, store.held, r)
    decreases Levels(cfg) - d, 2
  {
    match p {
      case Link(cid, cache) =>
        p', r := RmLinked(cfg, cid, cache, hb, key, store, m, d);
      case Dirty(n) =>
        RemovalSize(m, key);
        var c;
        c, r := RmValue(cfg, n, hb, key, store, m, d);
        if r.Err? {
          return Dirty(c), r;
        }
        var cleaned;
        p', cleaned := Collapse(cfg, c, m - {key}, d, store.held);
    }
  }

  method RmLinked(cfg: Config, cid: Cid, cache: Option<Node>, hb: HashBits, key: Key, store: BlockStore,
                  ghost m: Entries, ghost d: nat)
    returns (p': Pointer, r: Result<Option<KeyValue>>)
    requires d <= Levels(cfg) && PointerDenotes(cfg, Link(cid, cache), m, d)
    requires ReadsAt(cfg, hb, key, d)
    ensures PointerRemoved(cfg, Link(cid, cache), p', m, d, key, store.held, r)
    decreases Levels(cfg) - d, 1
  {
    RemovalSize(m, key);
    var loaded := LoadChild(cfg, cid, cache, store, m, d);
    if loaded.Err? {
      return Link(cid, cache), Err(loaded.error);
    }
    if CidPresent(store.held, cid) {
      LoadedPresent(store.held, cid, loaded.value);
    }
    var c;
    c, r := RmValue(cfg, loaded.value, hb, key, store, m, d);
    if r.Ok? && r.value.Some? {
      var cleaned;
      p', cleaned := Collapse(cfg, c, m - {key}, d, store.held);
    } else {
      p' := Link(cid, Some(c));
      SameFrozen(cfg, loaded.value, c, m, d);
    }
  }
}
