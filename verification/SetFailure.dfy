/** What a failed insertion does to a HAMT: which entries a lookup no longer finds. */
module SetFailure {
  import opened Wrappers
  import opened Bitfields
  import opened Pairs
  import opened Blocks
  import opened Trie
  import opened Canonical
  import opened Nodes

  ghost function FindPair(ps: seq<KeyValue>, k: Key): Option<Value>
  {
    if ps == [] then None else if ps[0].key == k then Some(ps[0].value) else FindPair(ps[1..], k)
  }

  /** The value a lookup of `k` reaches, through caches first, in any node. */
  ghost function Find(cfg: Config, n: Node, k: Key, d: nat): Option<Value>
    requires d <= Levels(cfg)
    decreases Levels(cfg) - d, 0
  {
    if d == Levels(cfg) || !WellIndexed(n) || !Has(n.bitfield, Digit(cfg, k, d)) then None
    else FindBelow(cfg, ChildAt(n, Digit(cfg, k, d)), k, d + 1)
  }

  /** The same behind a pointer whose subtree starts at depth `d`. */
  ghost function FindBelow(cfg: Config, p: Pointer, k: Key, d: nat): Option<Value>
    requires d <= Levels(cfg)
    decreases Levels(cfg) - d, 1
  {
    match p
    case Values(pairs) => FindPair(pairs, k)
    case Dirty(c) => Find(cfg, c, k, d)
    case Link(cid, cache) => Find(cfg, Linked(cid, cache), k, d)
  }

  lemma {:induction false} FindListed(ps: seq<KeyValue>, m: Entries, k: Key)
    requires Enumerates(ps, m)
    ensures FindPair(ps, k) == Lookup(m, k)
    decreases |ps|
  {
    if ps == [] {
      assert m.Keys == {};
    } else if ps[0].key != k {
      DropFirst(ps, m);
      FindListed(ps[1..], m - {ps[0].key}, k);
    }
  }

  lemma SameLookup(cfg: Config, m: Entries, d: nat, k: Key)
    requires d < Levels(cfg)
    ensures Lookup(Sub(cfg, m, d, Digit(cfg, k, d)), k) == Lookup(m, k)
  {}

  /** In a canonical trie a lookup finds exactly the denoted entries. */
  lemma {:induction false} FindDenoted(cfg: Config, n: Node, m: Entries, d: nat, k: Key)
    requires d < Levels(cfg) && NodeDenotes(cfg, n, m, d)
    ensures Find(cfg, n, k, d) == Lookup(m, k)
    decreases Levels(cfg) - d, 0
  {
    var i := Digit(cfg, k, d);
    OpenSlot(cfg, n, m, d, i);
    SameLookup(cfg, m, d, k);
    if Has(n.bitfield, i) {
      FindBelowDenoted(cfg, ChildAt(n, i), Sub(cfg, m, d, i), d + 1, k);
    }
  }

  lemma {:induction false} FindBelowDenoted(cfg: Config, p: Pointer, m: Entries, d: nat, k: Key)
    requires d <= Levels(cfg) && PointerDenotes(cfg, p, m, d)
    ensures FindBelow(cfg, p, k, d) == Lookup(m, k)
    decreases Levels(cfg) - d, 1
  {
    if p.Values? {
      FindListed(p.pairs, m, k);
    } else {
      BehindDenotes(cfg, p, m, d);
      FindDenoted(cfg, Behind(p), m, d, k);
    }
  }

  /** The node behind a link or dirty pointer. */
  ghost function Behind(p: Pointer): Node
  {
    match p
    case Values(_) => EMPTY_NODE
    case Dirty(c) => c
    case Link(cid, cache) => Linked(cid, cache)
  }

  lemma BehindDenotes(cfg: Config, p: Pointer, m: Entries, d: nat)
    requires d <= Levels(cfg) && PointerDenotes(cfg, p, m, d) && !p.Values?
    ensures d < Levels(cfg) && NodeDenotes(cfg, Behind(p), m, d)
  {
    DenotesAtDepth(cfg, Behind(p), m, d);
  }

  /** The keys in the bucket of `key`, unless that bucket is at the last digit. */
  ghost function Lost(cfg: Config, m: Entries, key: Key, d: nat): set<Key>
    requires d < Levels(cfg)
    decreases Levels(cfg) - d, 0
  {
    LostBehind(cfg, Sub(cfg, m, d, Digit(cfg, key, d)), key, d + 1)
  }

  /** The same when the entries left start at depth `d`. */
  ghost function LostBehind(cfg: Config, m: Entries, key: Key, d: nat): set<Key>
    requires d <= Levels(cfg)
    decreases Levels(cfg) - d, 1
  {
    if d == Levels(cfg) then {}
    else if |m| > MAX_ARRAY_WIDTH then Lost(cfg, m, key, d)
    else m.Keys
  }

  lemma {:induction false} LostAmongEntries(cfg: Config, m: Entries, key: Key, d: nat)
    requires d <= Levels(cfg)
    ensures LostBehind(cfg, m, key, d) <= m.Keys
    decreases Levels(cfg) - d
  {
    if d < Levels(cfg) && |m| > MAX_ARRAY_WIDTH {
      LostAmongEntries(cfg, Sub(cfg, m, d, Digit(cfg, key, d)), key, d + 1);
    }
  }

  /** After a failed insertion exactly the lost keys are no longer found. */
  lemma {:induction false} FindAfterFailure(cfg: Config, n: Node, n': Node, m: Entries, key: Key, d: nat, k: Key)
    requires d < Levels(cfg) && NodeDenotes(cfg, n, m, d) && Spilled(cfg, n, n', key, d)
    ensures Find(cfg, n', k, d) == if k in Lost(cfg, m, key, d) then None else Lookup(m, k)
    decreases Levels(cfg) - d, 0
  {
    var i := Digit(cfg, key, d);
    OpenSlot(cfg, n, m, d, i);
    if Digit(cfg, k, d) != i {
      FindElsewhere(cfg, n, n', m, key, d, k);
    } else {
      SameLookup(cfg, m, d, k);
      FindBelowAfterFailure(cfg, ChildAt(n, i), ChildAt(n', i), Sub(cfg, m, d, i), key, d + 1, k);
    }
  }

  lemma {:induction false} FindBelowAfterFailure(cfg: Config, p: Pointer, p': Pointer, m: Entries, key: Key, d: nat,
                                                 k: Key)
    requires d <= Levels(cfg) && PointerDenotes(cfg, p, m, d) && SpilledBelow(cfg, p, p', key, d)
    ensures FindBelow(cfg, p', k, d) == if k in LostBehind(cfg, m, key, d) then None else Lookup(m, k)
    decreases Levels(cfg) - d, 1
  {
    if p.Values? {
      FindListed(p.pairs, m, k);
    } else {
      BehindDenotes(cfg, p, m, d);
      FindAfterFailure(cfg, Behind(p), Behind(p'), m, key, d, k);
    }
  }

  lemma FindElsewhere(cfg: Config, n: Node, n': Node, m: Entries, key: Key, d: nat, k: Key)
    requires d < Levels(cfg) && NodeDenotes(cfg, n, m, d) && Spilled(cfg, n, n', key, d)
    requires Digit(cfg, k, d) != Digit(cfg, key, d)
    ensures k !in Lost(cfg, m, key, d) && Find(cfg, n', k, d) == Lookup(m, k)
  {
    var i := Digit(cfg, key, d);
    LostAmongEntries(cfg, Sub(cfg, m, d, i), key, d + 1);
    FindDenoted(cfg, n, m, d, k);
    if Has(n.bitfield, Digit(cfg, k, d)) {
      ReplacedElsewhere(n, i, ChildAt(n', i), Digit(cfg, k, d));
    }
  }

  // ----- A failure that loses nothing, and one that is written -----

  /** A failed insertion that loses nothing leaves a trie of the same map. */
  lemma {:induction false} HarmlessFailure(cfg: Config, n: Node, n': Node, m: Entries, key: Key, d: nat, held: set<Cid>)
    requires d < Levels(cfg) && NodeDenotes(cfg, n, m, d) && Spilled(cfg, n, n', key, d) && Lost(cfg, m, key, d) == {}
    ensures NodeDenotes(cfg, n', m, d) && (Clean(n) ==> Clean(n')) && (NodePresent(held, n) ==> NodePresent(held, n'))
    decreases Levels(cfg) - d, 0
  {
    var i := Digit(cfg, key, d);
    OpenSlot(cfg, n, m, d, i);
    HarmlessBelow(cfg, ChildAt(n, i), ChildAt(n', i), Sub(cfg, m, d, i), key, d + 1, held);
    ReplacedPresence(n, i, ChildAt(n', i), held);
    ReplaceChild(cfg, n, m, d, i, ChildAt(n', i), m, held);
  }

  lemma ReplacedPresence(n: Node, i: nat, p: Pointer, held: set<Cid>)
    requires WellIndexed(n) && i < 256 && Has(n.bitfield, i)
    ensures NodePresent(held, n) ==> PointerPresent(held, ChildAt(n, i))
    ensures Clean(n) ==> !ChildAt(n, i).Dirty?
  {
    RankMonotone(n.bitfield, i, 256);
  }

  lemma {:induction false} HarmlessBelow(cfg: Config, p: Pointer, p': Pointer, m: Entries, key: Key, d: nat,
                                         held: set<Cid>)
    requires d <= Levels(cfg) && PointerDenotes(cfg, p, m, d) && SpilledBelow(cfg, p, p', key, d)
    requires LostBehind(cfg, m, key, d) == {}
    ensures PointerDenotes(cfg, p', m, d) && (p.Dirty? <==> p'.Dirty?)
            && (PointerPresent(held, p) ==> PointerPresent(held, p'))
    decreases Levels(cfg) - d, 1
  {
    if p.Values? {
      assert |m.Keys| == |m|;
    } else {
      BehindDenotes(cfg, p, m, d);
      HarmlessFailure(cfg, Behind(p), Behind(p'), m, key, d, held);
      if p.Link? {
        SameFrozen(cfg, Behind(p), Behind(p'), m, d);
      }
    }
  }

  /** The path of `key` passes a link before it reaches its bucket. */
  ghost predicate Shielded(cfg: Config, n: Node, key: Key, d: nat)
    requires d <= Levels(cfg)
    decreases Levels(cfg) - d
  {
    && d < Levels(cfg) && WellIndexed(n) && Has(n.bitfield, Digit(cfg, key, d))
    && match ChildAt(n, Digit(cfg, key, d))
       case Values(_) => false
       case Dirty(c) => Shielded(cfg, c, key, d + 1)
       case Link(_, _) => true
  }

  lemma BucketsAreNotShielded(cfg: Config, n: Node, m: Entries, key: Key, d: nat)
    requires d < Levels(cfg) && NodeDenotes(cfg, n, m, d) && |Sub(cfg, m, d, Digit(cfg, key, d))| <= MAX_ARRAY_WIDTH
    ensures !Shielded(cfg, n, key, d)
  {
    OpenSlot(cfg, n, m, d, Digit(cfg, key, d));
  }

  /** What a flush writes after the failure is what it would have written before exactly
      when nothing is lost or the loss is in the cache of a link, which keeps its CID. */
  lemma {:induction false} LossIsWrittenUnlessShielded(cfg: Config, n: Node, n': Node, m: Entries, key: Key, d: nat)
    requires d < Levels(cfg) && NodeDenotes(cfg, n, m, d) && Spilled(cfg, n, n', key, d)
    ensures Frozen(n') == Frozen(n) <==> Lost(cfg, m, key, d) == {} || Shielded(cfg, n, key, d)
    decreases Levels(cfg) - d, 0
  {
    var i := Digit(cfg, key, d);
    OpenSlot(cfg, n, m, d, i);
    var p, p' := ChildAt(n, i), ChildAt(n', i);
    FrozenReplaced(n, i, p');
    if p.Values? {
      EnumerationSize(p.pairs, Sub(cfg, m, d, i));
      assert |Sub(cfg, m, d, i).Keys| == |Sub(cfg, m, d, i)|;
    } else if p.Dirty? {
      BehindDenotes(cfg, p, Sub(cfg, m, d, i), d + 1);
      LossIsWrittenUnlessShielded(cfg, p.node, p'.node, Sub(cfg, m, d, i), key, d + 1);
    }
  }

  lemma FrozenReplaced(n: Node, i: nat, p: Pointer)
    requires WellIndexed(n) && i < 256 && Has(n.bitfield, i)
    ensures Frozen(WithChild(n, i, p)) == Frozen(n) <==> FrozenSlot(p) == FrozenSlot(ChildAt(n, i))
  {
    RankMonotone(n.bitfield, i, 256);
    var r, w := Rank(n.bitfield, i), WithChild(n, i, p);
    assert Frozen(w).slots[r] == FrozenSlot(p) && Frozen(n).slots[r] == FrozenSlot(ChildAt(n, i));
    if FrozenSlot(p) == FrozenSlot(ChildAt(n, i)) {
      assert Frozen(w).slots == Frozen(n).slots;
    }
  }

  /** All that a failed insertion of `key` means for a HAMT of `m`: exactly the lost keys are
      no longer found; when there are none it is still a trie of `m`; and the loss is what a
      flush writes unless a link on the path shields it. */
  ghost predicate FailedInsertion(cfg: Config, n: Node, n': Node, m: Entries, key: Key, held: set<Cid>)
  {
    && (forall k :: Find(cfg, n', k, 0) == if k in Lost(cfg, m, key, 0) then None else Lookup(m, k))
    && (Lost(cfg, m, key, 0) == {} ==> NodeDenotes(cfg, n', m, 0) && (NodePresent(held, n) ==> NodePresent(held, n')))
    && (Frozen(n') == Frozen(n) <==> Lost(cfg, m, key, 0) == {} || Shielded(cfg, n, key, 0))
  }

  lemma FailureExplained(cfg: Config, n: Node, n': Node, m: Entries, key: Key, held: set<Cid>)
    requires NodeDenotes(cfg, n, m, 0) && Spilled(cfg, n, n', key, 0)
    ensures FailedInsertion(cfg, n, n', m, key, held)
  {
    forall k
      ensures Find(cfg, n', k, 0) == if k in Lost(cfg, m, key, 0) then None else Lookup(m, k)
    {
      FindAfterFailure(cfg, n, n', m, key, 0, k);
    }
    if Lost(cfg, m, key, 0) == {} {
      HarmlessFailure(cfg, n, n', m, key, 0, held);
    }
    LossIsWrittenUnlessShielded(cfg, n, n', m, key, 0);
  }

  // ----- When nothing is lost -----

  /** The keys of `m` that agree with `key` on all digits from `d` but the last. */
  ghost function Neighbours(cfg: Config, m: Entries, key: Key, d: nat): set<Key>
  {
    set k | k in m && forall e | d <= e < Levels(cfg) - 1 :: Digit(cfg, k, e) == Digit(cfg, key, e)
  }

  lemma NeighboursBelow(cfg: Config, m: Entries, key: Key, d: nat)
    requires d + 1 < Levels(cfg)
    ensures Neighbours(cfg, m, key, d) == Neighbours(cfg, Sub(cfg, m, d, Digit(cfg, key, d)), key, d + 1)
  {}

  /** The digits of `key` lead to entries until they reach a bucket. */
  ghost predicate Occupied(cfg: Config, m: Entries, key: Key, d: nat)
    requires d < Levels(cfg)
    decreases Levels(cfg) - d
  {
    if d + 1 == Levels(cfg) then |m| > MAX_ARRAY_WIDTH
    else
      var mi := Sub(cfg, m, d, Digit(cfg, key, d));
      mi != map[] && (|mi| > MAX_ARRAY_WIDTH ==> Occupied(cfg, mi, key, d + 1))
  }

  lemma {:induction false} CollisionOccupies(cfg: Config, n: Node, m: Entries, key: Key, d: nat)
    requires d < Levels(cfg) && NodeDenotes(cfg, n, m, d) && !NoCollision(cfg, m.Keys + {key}, d)
    requires d + 1 == Levels(cfg) ==> |m| > MAX_ARRAY_WIDTH
    ensures Occupied(cfg, m, key, d)
    decreases Levels(cfg) - d
  {
    if d + 1 < Levels(cfg) {
      CollisionIsBelow(cfg, n, m, key, d);
      var i := Digit(cfg, key, d);
      if |Sub(cfg, m, d, i)| > MAX_ARRAY_WIDTH {
        CollisionOccupies(cfg, Behind(ChildAt(n, i)), Sub(cfg, m, d, i), key, d + 1);
      }
    }
  }

  /** Nothing is lost exactly when `key` has more than three neighbours. */
  ghost predicate LostUnlessCrowded(cfg: Config, m: Entries, key: Key, d: nat)
    requires d < Levels(cfg)
  {
    Lost(cfg, m, key, d) == {} <==> |Neighbours(cfg, m, key, d)| > MAX_ARRAY_WIDTH
  }

  lemma CrowdedAtLastDigit(cfg: Config, m: Entries, key: Key, d: nat)
    requires d + 1 == Levels(cfg) && |m| > MAX_ARRAY_WIDTH
    ensures LostUnlessCrowded(cfg, m, key, d)
  {
    assert Neighbours(cfg, m, key, d) == m.Keys;
  }

  lemma BucketIsLost(cfg: Config, m: Entries, key: Key, d: nat, k: Key)
    requires d + 1 < Levels(cfg)
    requires var mi := Sub(cfg, m, d, Digit(cfg, key, d)); k in mi && |mi| <= MAX_ARRAY_WIDTH
    ensures LostUnlessCrowded(cfg, m, key, d)
  {
    var mi := Sub(cfg, m, d, Digit(cfg, key, d));
    assert k in Lost(cfg, m, key, d);
    NeighboursBelow(cfg, m, key, d);
    SubsetSize(Neighbours(cfg, mi, key, d + 1), mi.Keys);
  }

  lemma CrowdedBelow(cfg: Config, m: Entries, key: Key, d: nat)
    requires d + 1 < Levels(cfg)
    requires var mi := Sub(cfg, m, d, Digit(cfg, key, d));
      |mi| > MAX_ARRAY_WIDTH && LostUnlessCrowded(cfg, mi, key, d + 1)
    ensures LostUnlessCrowded(cfg, m, key, d)
  {
    NeighboursBelow(cfg, m, key, d);
    assert Lost(cfg, m, key, d) == LostBehind(cfg, Sub(cfg, m, d, Digit(cfg, key, d)), key, d + 1);
  }

  lemma {:induction false} NothingLostIff(cfg: Config, m: Entries, key: Key, d: nat)
    requires d < Levels(cfg) && Occupied(cfg, m, key, d)
    ensures LostUnlessCrowded(cfg, m, key, d)
    decreases Levels(cfg) - d
  {
    if d + 1 == Levels(cfg) {
      CrowdedAtLastDigit(cfg, m, key, d);
    } else {
      var mi := Sub(cfg, m, d, Digit(cfg, key, d));
      if |mi| > MAX_ARRAY_WIDTH {
        NothingLostIff(cfg, mi, key, d + 1);
        CrowdedBelow(cfg, m, key, d);
      } else {
        var k :| k in mi;
        BucketIsLost(cfg, m, key, d, k);
      }
    }
  }

  /** A failed insertion leaves every entry in place exactly when more than three stored
      keys share all digits but the last with the new key. Otherwise entries are lost. */
  lemma FailureIsHarmlessIff(cfg: Config, n: Node, m: Entries, key: Key, d: nat)
    requires d < Levels(cfg) && NodeDenotes(cfg, n, m, d) && !NoCollision(cfg, m.Keys + {key}, d)
    requires d + 1 == Levels(cfg) ==> |m| > MAX_ARRAY_WIDTH
    ensures Lost(cfg, m, key, d) == {} <==> |Neighbours(cfg, m, key, d)| > MAX_ARRAY_WIDTH
  {
    CollisionOccupies(cfg, n, m, key, d);
    NothingLostIff(cfg, m, key, d);
  }

  /** Colliding keys that include `key` are behind its digit. */
  lemma CollidersAreBehind(cfg: Config, m: Entries, key: Key, d: nat, s: set<Key>)
    requires d < Levels(cfg) && s <= m.Keys + {key} && AgreeFrom(cfg, s, d) && |s| > MAX_ARRAY_WIDTH && key in s
    ensures var mi := Sub(cfg, m, d, Digit(cfg, key, d));
      mi != map[] && s <= mi.Keys + {key} && AgreeFrom(cfg, s, d + 1)
  {
    var mi := Sub(cfg, m, d, Digit(cfg, key, d));
    assert AgreeAt(cfg, s, d);
    assert s <= mi.Keys + {key};
    if mi == map[] {
      SubsetSize(s, {key});
    }
  }

  lemma CollidersInclude(cfg: Config, n: Node, m: Entries, key: Key, d: nat, s: set<Key>)
    requires d < Levels(cfg) && NodeDenotes(cfg, n, m, d)
    requires s <= m.Keys + {key} && AgreeFrom(cfg, s, d) && |s| > MAX_ARRAY_WIDTH
    ensures key in s
  {
    if key !in s {
      TrieHasNoCollision(cfg, n, m, d, s);
    }
  }

  /** A collision with `key` happens among the entries behind its digit. */
  lemma CollisionIsBelow(cfg: Config, n: Node, m: Entries, key: Key, d: nat)
    requires d < Levels(cfg) && NodeDenotes(cfg, n, m, d) && !NoCollision(cfg, m.Keys + {key}, d)
    ensures var mi := Sub(cfg, m, d, Digit(cfg, key, d));
      && mi != map[] && Has(n.bitfield, Digit(cfg, key, d))
      && !NoCollision(cfg, mi.Keys + {key}, d + 1)
      && (|mi| > MAX_ARRAY_WIDTH ==> NodeDenotes(cfg, Behind(ChildAt(n, Digit(cfg, key, d))), mi, d + 1))
  {
    var s :| s <= m.Keys + {key} && AgreeFrom(cfg, s, d) && |s| > MAX_ARRAY_WIDTH;
    CollidersInclude(cfg, n, m, key, d, s);
    CollidersAreBehind(cfg, m, key, d, s);
    var i := Digit(cfg, key, d);
    OpenSlot(cfg, n, m, d, i);
    if |Sub(cfg, m, d, i)| > MAX_ARRAY_WIDTH {
      BehindDenotes(cfg, ChildAt(n, i), Sub(cfg, m, d, i), d + 1);
    }
  }

  /** The smallest instance: three entries and a fourth key, all with one hash. */
  lemma FourthCollidingKeyLosesTheOthers(cfg: Config, m: Entries, key: Key)
    requires |m| == MAX_ARRAY_WIDTH && key !in m && AgreeFrom(cfg, m.Keys + {key}, 0)
    ensures !NoCollision(cfg, m.Keys + {key}, 0)
    ensures Lost(cfg, m, key, 0) == m.Keys
  {
    DigitFits(cfg, 1);
    assert AgreeAt(cfg, m.Keys + {key}, 0);
    var mi := Sub(cfg, m, 0, Digit(cfg, key, 0));
    assert mi == m;
    assert |m.Keys + {key}| == |m.Keys| + 1;
  }

  /** A concrete one, with a hash that sends every key to the same bits. */
  lemma FourKeysOfOneHash(cfg: Config, value: Value)
    requires cfg.hash == ZeroHash
    ensures var m := map[Key("a") := value, Key("b") := value, Key("c") := value];
      !NoCollision(cfg, m.Keys + {Key("d")}, 0) && Lost(cfg, m, Key("d"), 0) == m.Keys
  {
    var m := map[Key("a") := value, Key("b") := value, Key("c") := value];
    assert m.Keys == {Key("a"), Key("b"), Key("c")} && |m.Keys| == 3;
    forall e | 0 <= e < Levels(cfg)
      ensures AgreeAt(cfg, m.Keys + {Key("d")}, e)
    {
      forall k { DigitValue(cfg, k, e); }
    }
    FourthCollidingKeyLosesTheOthers(cfg, m, Key("d"));
  }
}
