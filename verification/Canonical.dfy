/** The canonical form: the trie of a map is unique, it determines the map, and it
    exists only when no four keys share a whole hash. */
module Canonical {
  import opened Bitfields
  import opened Pairs
  import opened Blocks
  import opened Trie

  // ----- Submaps -----

  lemma SubOfUpdate(cfg: Config, m: Entries, d: nat, k: Key, v: Value, i: nat)
    requires d < Levels(cfg)
    ensures Sub(cfg, m[k := v], d, i) == if Digit(cfg, k, d) == i then Sub(cfg, m, d, i)[k := v] else Sub(cfg, m, d, i)
  {}

  lemma SubOfRemoval(cfg: Config, m: Entries, d: nat, k: Key, i: nat)
    requires d < Levels(cfg)
    ensures Sub(cfg, m - {k}, d, i) == if Digit(cfg, k, d) == i then Sub(cfg, m, d, i) - {k} else Sub(cfg, m, d, i)
  {}

  lemma SameSubsSameMap(cfg: Config, m: Entries, n: Entries, d: nat)
    requires d < Levels(cfg)
    requires forall i: nat | i < 256 :: Sub(cfg, m, d, i) == Sub(cfg, n, d, i)
    ensures m == n
  {
    forall k
      ensures k in m <==> k in n
      ensures k in m && k in n ==> m[k] == n[k]
    {
      var i := Digit(cfg, k, d);
      assert Sub(cfg, m, d, i) == Sub(cfg, n, d, i);
      assert k in m <==> k in Sub(cfg, m, d, i);
      assert k in n <==> k in Sub(cfg, n, d, i);
    }
  }

  // ----- Updating one child -----

  lemma DenotesWithChild(cfg: Config, n: Node, m: Entries, d: nat, i: nat, p: Pointer, m': Entries)
    requires d < Levels(cfg) && i < 256
    requires NodeDenotes(cfg, n, m, d) && Has(n.bitfield, i)
    requires forall j: nat | j < 256 && j != i :: Sub(cfg, m', d, j) == Sub(cfg, m, d, j)
    requires Sub(cfg, m', d, i) != map[] && PointerDenotes(cfg, p, Sub(cfg, m', d, i), d + 1)
    ensures NodeDenotes(cfg, WithChild(n, i, p), m', d)
  {
    ReplacedIndex(n, i, p);
    forall j: nat | j < 256
      ensures SlotDenotes(cfg, WithChild(n, i, p), m', d, j)
    {
      OpenSlot(cfg, n, m, d, j);
      if j != i && Has(n.bitfield, j) {
        ReplacedElsewhere(n, i, p, j);
      }
    }
  }

  lemma DenotesWithNewChild(cfg: Config, n: Node, m: Entries, d: nat, i: nat, p: Pointer, m': Entries)
    requires d < Levels(cfg) && i < 256
    requires NodeDenotes(cfg, n, m, d) && !Has(n.bitfield, i)
    requires forall j: nat | j < 256 && j != i :: Sub(cfg, m', d, j) == Sub(cfg, m, d, j)
    requires Sub(cfg, m', d, i) != map[] && PointerDenotes(cfg, p, Sub(cfg, m', d, i), d + 1)
    ensures NodeDenotes(cfg, WithNewChild(n, i, p), m', d)
  {
    AddedIndex(n, i, p);
    forall j: nat | j < 256
      ensures SlotDenotes(cfg, WithNewChild(n, i, p), m', d, j)
    {
      OpenSlot(cfg, n, m, d, j);
      if Has(n.bitfield, j) {
        AddedElsewhere(n, i, p, j);
      }
    }
  }

  lemma DenotesWithoutChild(cfg: Config, n: Node, m: Entries, d: nat, i: nat, m': Entries)
    requires d < Levels(cfg) && i < 256
    requires NodeDenotes(cfg, n, m, d) && Has(n.bitfield, i)
    requires forall j: nat | j < 256 && j != i :: Sub(cfg, m', d, j) == Sub(cfg, m, d, j)
    requires Sub(cfg, m', d, i) == map[]
    ensures NodeDenotes(cfg, WithoutChild(n, i), m', d)
  {
    RemovedIndex(n, i);
    forall j: nat | j < 256
      ensures SlotDenotes(cfg, WithoutChild(n, i), m', d, j)
    {
      OpenSlot(cfg, n, m, d, j);
      if j != i && Has(n.bitfield, j) {
        RemovedElsewhere(n, i, j);
      }
    }
  }

  lemma EmptyDenotes(cfg: Config, d: nat)
    requires d <= Levels(cfg)
    ensures NodeDenotes(cfg, EMPTY_NODE, map[], d)
  {
    ZeroBits();
    RankOfZero(256);
    if d < Levels(cfg) {
      forall i: nat | i < 256
        ensures Sub(cfg, map[], d, i) == map[]
      {}
    }
  }

  lemma {:induction false} RankOfZero(n: nat)
    requires n <= 256
    ensures Rank(Zero(), n) == 0
  {
    if n > 0 {
      ZeroBits();
      RankOfZero(n - 1);
    }
  }

  // ----- Serialization -----

  /** Deserializing a serialized node only forgets the link caches. */
  lemma SerializeDeserialize(n: Node)
    requires Clean(n)
    ensures Decodable(Serialized(n)) && NodeBlockOk(Serialized(n))
    ensures Deserialized(Serialized(n)).bitfield == n.bitfield
    ensures |Deserialized(Serialized(n)).pointers| == |n.pointers|
    ensures forall j | 0 <= j < |n.pointers| ::
              Deserialized(Serialized(n)).pointers[j] == PointerOf(SlotOf(n.pointers[j]))
  {
    EncodeDecode(n.bitfield);
    var b := Serialized(n);
    var l := Deserialized(b);
    assert Clean(l);
    assert Serialized(l).slots == b.slots;
  }

  /** A node without dirty pointers freezes to its own serialized form. */
  lemma CleanFrozen(n: Node)
    requires Clean(n)
    ensures Frozen(n) == Serialized(n)
  {
    assert Frozen(n).slots == Serialized(n).slots;
  }

  // ----- Uniqueness -----

  /** The child node behind a link or dirty pointer, freezing to the pointer's CID. */
  ghost function Target(p: Pointer): Node
    requires p.Dirty? || (p.Link? && Decodable(p.cid.block))
  {
    match p
    case Dirty(n) => n
    case Link(cid, _) => Deserialized(cid.block)
  }

  lemma TargetFreezes(cfg: Config, p: Pointer, m: Entries, d: nat)
    requires d <= Levels(cfg) && !p.Values? && PointerDenotes(cfg, p, m, d)
    ensures FrozenSlot(p) == Child(Cid(Frozen(Target(p))))
    ensures NodeDenotes(cfg, Target(p), m, d)
  {
    if p.Link? {
      CleanFrozen(Deserialized(p.cid.block));
      assert p.cid == Cid(p.cid.block);
    }
  }

  /** One map, one trie: two nodes for the same map freeze to the same block. */
  lemma {:induction false} TrieUnique(cfg: Config, a: Node, b: Node, m: Entries, d: nat)
    requires d <= Levels(cfg)
    requires NodeDenotes(cfg, a, m, d) && NodeDenotes(cfg, b, m, d)
    ensures Frozen(a) == Frozen(b)
    decreases Levels(cfg) - d, 0
  {
    if d < Levels(cfg) {
      forall i: nat | i < 256
        ensures Has(a.bitfield, i) <==> Has(b.bitfield, i)
      {
        OpenSlot(cfg, a, m, d, i);
        OpenSlot(cfg, b, m, d, i);
      }
      Extensional(a.bitfield, b.bitfield);
      forall j | 0 <= j < |a.pointers|
        ensures FrozenSlot(a.pointers[j]) == FrozenSlot(b.pointers[j])
      {
        var i := Select(a.bitfield, j, 256);
        assert a.pointers[j] == ChildAt(a, i) && b.pointers[j] == ChildAt(b, i);
        OpenSlot(cfg, a, m, d, i);
        OpenSlot(cfg, b, m, d, i);
        SlotUnique(cfg, ChildAt(a, i), ChildAt(b, i), Sub(cfg, m, d, i), d + 1);
      }
      assert Frozen(a).slots == Frozen(b).slots;
    }
  }

  lemma {:induction false} SlotUnique(cfg: Config, p: Pointer, q: Pointer, m: Entries, d: nat)
    requires d <= Levels(cfg)
    requires PointerDenotes(cfg, p, m, d) && PointerDenotes(cfg, q, m, d)
    ensures FrozenSlot(p) == FrozenSlot(q)
    decreases Levels(cfg) - d, 1
  {
    if p.Values? {
      SortedListingUnique(p.pairs, q.pairs, m);
    } else {
      TargetFreezes(cfg, p, m, d);
      TargetFreezes(cfg, q, m, d);
      TrieUnique(cfg, Target(p), Target(q), m, d);
    }
  }

  lemma FrozenBits(a: Node, b: Node)
    requires Frozen(a) == Frozen(b)
    ensures a.bitfield == b.bitfield
  {
    EncodeDecode(a.bitfield);
    EncodeDecode(b.bitfield);
  }

  lemma FrozenSlots(a: Node, b: Node, i: nat)
    requires Frozen(a) == Frozen(b) && a.bitfield == b.bitfield && WellIndexed(a) && WellIndexed(b)
    requires i < 256 && Has(a.bitfield, i)
    ensures FrozenSlot(ChildAt(a, i)) == FrozenSlot(ChildAt(b, i))
  {
    RankMonotone(a.bitfield, i, 256);
    assert Frozen(a).slots[Rank(a.bitfield, i)] == Frozen(b).slots[Rank(a.bitfield, i)];
  }

  /** One trie, one map: the frozen block determines every entry. */
  lemma {:induction false} TrieInjective(cfg: Config, a: Node, b: Node, m: Entries, n: Entries, d: nat)
    requires d <= Levels(cfg)
    requires NodeDenotes(cfg, a, m, d) && NodeDenotes(cfg, b, n, d)
    requires Frozen(a) == Frozen(b)
    ensures m == n
    decreases Levels(cfg) - d, 0
  {
    if d < Levels(cfg) {
      FrozenBits(a, b);
      forall i: nat | i < 256
        ensures Sub(cfg, m, d, i) == Sub(cfg, n, d, i)
      {
        OpenSlot(cfg, a, m, d, i);
        OpenSlot(cfg, b, n, d, i);
        if Has(a.bitfield, i) {
          FrozenSlots(a, b, i);
          SlotInjective(cfg, ChildAt(a, i), ChildAt(b, i), Sub(cfg, m, d, i), Sub(cfg, n, d, i), d + 1);
        }
      }
      SameSubsSameMap(cfg, m, n, d);
    }
  }

  lemma {:induction false} SlotInjective(cfg: Config, p: Pointer, q: Pointer, m: Entries, n: Entries, d: nat)
    requires d <= Levels(cfg)
    requires PointerDenotes(cfg, p, m, d) && PointerDenotes(cfg, q, n, d)
    requires FrozenSlot(p) == FrozenSlot(q)
    ensures m == n
    decreases Levels(cfg) - d, 1
  {
    if p.Values? {
      EnumeratedMapUnique(p.pairs, m, n);
    } else {
      TargetFreezes(cfg, p, m, d);
      TargetFreezes(cfg, q, n, d);
      TrieInjective(cfg, Target(p), Target(q), m, n, d);
    }
  }

  /** Root CIDs and maps determine each other. */
  lemma RootCidCharacterizesMap(cfg: Config, c: Cid, m: Entries, c': Cid, m': Entries)
    requires RootDenotes(cfg, c, m) && RootDenotes(cfg, c', m')
    ensures c == c' <==> m == m'
  {
    OpenRoot(cfg, c, m);
    OpenRoot(cfg, c', m');
    var n, n' := Deserialized(c.block), Deserialized(c'.block);
    CleanFrozen(n);
    CleanFrozen(n');
    assert c == Cid(Frozen(n)) && c' == Cid(Frozen(n'));
    if m == m' {
      TrieUnique(cfg, n, n', m, 0);
    }
    if c == c' {
      TrieInjective(cfg, n, n', m, m', 0);
    }
  }

  // ----- Collisions -----

  /** All keys of `s` agree on every digit from depth `d` on. */
  ghost predicate AgreeFrom(cfg: Config, s: set<Key>, d: nat)
  {
    forall e | d <= e < Levels(cfg) :: AgreeAt(cfg, s, e)
  }

  ghost predicate AgreeAt(cfg: Config, s: set<Key>, e: nat)
    requires e < Levels(cfg)
  {
    forall a, b | a in s && b in s :: Digit(cfg, a, e) == Digit(cfg, b, e)
  }

  /** No four keys agree on every digit from depth `d` on. */
  ghost predicate NoCollision(cfg: Config, keys: set<Key>, d: nat)
  {
    forall s | s <= keys && AgreeFrom(cfg, s, d) :: |s| <= MAX_ARRAY_WIDTH
  }

  /** A map with a canonical trie has no four colliding keys. */
  lemma {:induction false} TrieHasNoCollision(cfg: Config, n: Node, m: Entries, d: nat, s: set<Key>)
    requires d <= Levels(cfg) && NodeDenotes(cfg, n, m, d)
    requires s <= m.Keys && AgreeFrom(cfg, s, d)
    ensures |s| <= MAX_ARRAY_WIDTH
    decreases Levels(cfg) - d, 0
  {
    if d == Levels(cfg) {
      assert s == {};
    } else if s != {} {
      var a :| a in s;
      CollidersShareDigit(cfg, m, d, s, a);
      var i := Digit(cfg, a, d);
      OpenSlot(cfg, n, m, d, i);
      SubtreeHasNoCollision(cfg, ChildAt(n, i), Sub(cfg, m, d, i), d + 1, s);
    }
  }

  lemma {:induction false} SubtreeHasNoCollision(cfg: Config, p: Pointer, m: Entries, d: nat, s: set<Key>)
    requires d <= Levels(cfg) && PointerDenotes(cfg, p, m, d)
    requires s <= m.Keys && AgreeFrom(cfg, s, d)
    ensures |s| <= MAX_ARRAY_WIDTH
    decreases Levels(cfg) - d, 1
  {
    match p
    case Values(_) => SubsetSize(s, m.Keys);
    case Dirty(n) => TrieHasNoCollision(cfg, n, m, d, s);
    case Link(cid, _) => TrieHasNoCollision(cfg, Deserialized(cid.block), m, d, s);
  }

  lemma CollidersShareDigit(cfg: Config, m: Entries, d: nat, s: set<Key>, a: Key)
    requires d < Levels(cfg) && s <= m.Keys && AgreeFrom(cfg, s, d) && a in s
    ensures s <= Sub(cfg, m, d, Digit(cfg, a, d)).Keys && AgreeFrom(cfg, s, d + 1)
    ensures Sub(cfg, m, d, Digit(cfg, a, d)) != map[]
  {
    assert AgreeAt(cfg, s, d);
    assert a in Sub(cfg, m, d, Digit(cfg, a, d));
  }

  lemma {:induction false} SubsetSize(a: set<Key>, b: set<Key>)
    requires a <= b
    ensures |a| <= |b|
  {
    if a != {} {
      var x :| x in a;
      SubsetSize(a - {x}, b - {x});
    }
  }

  lemma DenotedHasNoCollision(cfg: Config, n: Node, m: Entries, d: nat)
    requires d <= Levels(cfg) && NodeDenotes(cfg, n, m, d)
    ensures NoCollision(cfg, m.Keys, d)
  {
    forall s | s <= m.Keys && AgreeFrom(cfg, s, d)
      ensures |s| <= MAX_ARRAY_WIDTH
    {
      TrieHasNoCollision(cfg, n, m, d, s);
    }
  }

  lemma FewerKeys(cfg: Config, few: set<Key>, more: set<Key>)
    requires few <= more && NoCollision(cfg, more, 0)
    ensures NoCollision(cfg, few, 0)
  {
    forall s | s <= few && AgreeFrom(cfg, s, 0)
      ensures |s| <= MAX_ARRAY_WIDTH
    {
      assert s <= more;
    }
  }

  /** A collision below digit `i` is a collision of the whole node. */
  lemma CollisionLifts(cfg: Config, keys: set<Key>, below: set<Key>, d: nat, i: nat)
    requires d < Levels(cfg) && below <= keys
    requires forall k | k in below :: Digit(cfg, k, d) == i
    requires !NoCollision(cfg, below, d + 1)
    ensures !NoCollision(cfg, keys, d)
  {
    var s :| s <= below && AgreeFrom(cfg, s, d + 1) && |s| > MAX_ARRAY_WIDTH;
    assert AgreeAt(cfg, s, d);
    assert s <= keys && AgreeFrom(cfg, s, d);
  }
}
