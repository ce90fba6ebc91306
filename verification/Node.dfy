/** The operations on a HAMT node. A Rust node owns its children through `Box`, so a
    node is a value here and an operation on `&mut self` returns the updated node. */
module Nodes {
  import opened Wrappers
  import opened Bitfields
  import opened HashBitReader
  import opened Pairs
  import opened Blocks
  import opened Trie
  import opened Canonical

  // ----- Presence of blocks -----

  lemma {:induction false} CidPresentMonotone(held: set<Cid>, more: set<Cid>, cid: Cid)
    requires held <= more && CidPresent(held, cid)
    ensures CidPresent(more, cid)
  {
    if cid.block.NodeBlock? {
      forall j | 0 <= j < |cid.block.slots| && cid.block.slots[j].Child?
        ensures CidPresent(more, cid.block.slots[j].cid)
      {
        CidPresentMonotone(held, more, cid.block.slots[j].cid);
      }
    }
  }

  lemma {:induction false} NodePresentMonotone(held: set<Cid>, more: set<Cid>, n: Node)
    requires held <= more && NodePresent(held, n)
    ensures NodePresent(more, n)
  {
    forall j | 0 <= j < |n.pointers|
      ensures PointerPresent(more, n.pointers[j])
    {
      var p := n.pointers[j];
      assert PointerPresent(held, p);
      match p {
        case Values(_) =>
        case Link(cid, _) => CidPresentMonotone(held, more, cid);
        case Dirty(c) => NodePresentMonotone(held, more, c);
      }
    }
  }

  /** The node behind a fully present CID is itself fully present. */
  lemma LoadedPresent(held: set<Cid>, cid: Cid, n: Node)
    requires CidPresent(held, cid) && Serialize(n) == Ok(cid.block)
    ensures NodePresent(held, n)
  {
    forall j | 0 <= j < |n.pointers|
      ensures PointerPresent(held, n.pointers[j])
    {
      assert SlotOf(n.pointers[j]) == cid.block.slots[j];
    }
  }

  // ----- Loading a linked child -----

  /** The child node a link leads to. */
  ghost function Linked(cid: Cid, cache: Option<Node>): Node
  {
    if cache.Some? then cache.value
    else if Decodable(cid.block) then Deserialized(cid.block)
    else EMPTY_NODE
  }

  /** The cached child of a link, or the decoded block it names. */
  method LoadChild(cfg: Config, cid: Cid, cache: Option<Node>, store: BlockStore, ghost m: Entries, ghost d: nat)
    returns (r: Result<Node>)
    requires d <= Levels(cfg) && PointerDenotes(cfg, Link(cid, cache), m, d)
    ensures r.Ok? ==> Serialize(r.value) == Ok(cid.block) && NodeDenotes(cfg, r.value, m, d)
    ensures r.Ok? ==> r.value == Linked(cid, cache) && (cache.Some? || cid in store.held)
    ensures r.Err? ==> r.error == BlockNotFound && cache.None? && cid !in store.held
  {
    if cache.Some? {
      return Ok(cache.value);
    }
    var loaded := store.Load(cid);
    if loaded.Err? {
      return Err(loaded.error);
    }
    if !Decodable(loaded.value) {
      return Err(UnexpectedBlock);
    }
    return Ok(Deserialized(loaded.value));
  }

  lemma DenotesAtDepth(cfg: Config, n: Node, m: Entries, d: nat)
    requires d <= Levels(cfg) && NodeDenotes(cfg, n, m, d) && m != map[]
    ensures d < Levels(cfg)
  {}

  lemma SameFrozen(cfg: Config, n: Node, n': Node, m: Entries, d: nat)
    requires d <= Levels(cfg) && NodeDenotes(cfg, n, m, d) && NodeDenotes(cfg, n', m, d)
    requires Clean(n) && Clean(n')
    ensures Serialize(n) == Serialize(n')
  {
    TrieUnique(cfg, n, n', m, d);
    CleanFrozen(n);
    CleanFrozen(n');
  }

  /** Reading the digit of `key` at depth `d`. */
  method NextDigit(cfg: Config, hb: HashBits, key: Key, ghost d: nat) returns (hb': HashBits, idx: Result<nat>)
    requires ReadsAt(cfg, hb, key, d)
    ensures d < Levels(cfg) ==> idx == Ok(Digit(cfg, key, d)) && ReadsAt(cfg, hb', key, d + 1)
    ensures d >= Levels(cfg) ==> idx == Err(MaximumDepth)
  {
    DigitFits(cfg, d);
    assert Spelled(key) && d * cfg.bitWidth + cfg.bitWidth == (d + 1) * cfg.bitWidth;
    if d < Levels(cfg) {
      DigitValue(cfg, key, d);
    }
    hb', idx := Next(hb, cfg.bitWidth);
  }

  /** Swapping the child at digit `i` for one that denotes the new entries there. */
  lemma ReplaceChild(cfg: Config, n: Node, m: Entries, d: nat, i: nat, p: Pointer, m': Entries, held: set<Cid>)
    requires d < Levels(cfg) && i < 256 && NodeDenotes(cfg, n, m, d) && Has(n.bitfield, i)
    requires forall j: nat | j < 256 && j != i :: Sub(cfg, m', d, j) == Sub(cfg, m, d, j)
    requires Sub(cfg, m', d, i) != map[] && PointerDenotes(cfg, p, Sub(cfg, m', d, i), d + 1)
    ensures NodeDenotes(cfg, WithChild(n, i, p), m', d)
    ensures Clean(n) && !p.Dirty? ==> Clean(WithChild(n, i, p))
    ensures NodePresent(held, n) && PointerPresent(held, p) ==> NodePresent(held, WithChild(n, i, p))
  {
    DenotesWithChild(cfg, n, m, d, i, p, m');
    RankMonotone(n.bitfield, i, 256);
  }

  // ----- Lookup -----

  method GetValue(cfg: Config, n: Node, hb: HashBits, key: Key, store: BlockStore, ghost m: Entries, ghost d: nat)
    returns (n': Node, r: Result<Option<KeyValue>>)
    requires d < Levels(cfg) && NodeDenotes(cfg, n, m, d)
    requires ReadsAt(cfg, hb, key, d)
    ensures NodeDenotes(cfg, n', m, d) && (Clean(n) ==> Clean(n'))
    ensures NodePresent(store.held, n) ==> NodePresent(store.held, n')
    ensures r.Ok? ==> r.value == if key in m then Some(KeyValue(key, m[key])) else None
    ensures r.Err? ==> r.error == BlockNotFound && !NodePresent(store.held, n)
    decreases Levels(cfg) - d, 0
  {
    var hb', next := NextDigit(cfg, hb, key, d);
    var idx := next.value;
    ghost var mi := Sub(cfg, m, d, idx);
    OpenSlot(cfg, n, m, d, idx);
    assert key in m <==> key in mi;
    if !TestBit(n.bitfield, idx) {
      return n, Ok(None);
    }
    var cindex := IndexForBitPos(n.bitfield, idx);
    RankMonotone(n.bitfield, idx, 256);
    assert n.pointers[cindex] == ChildAt(n, idx);
    OpenSlot(cfg, n, m, d, idx);
    var child;
    child, r := GetBelow(cfg, n.pointers[cindex], hb', key, store, mi, d + 1);
    n' := n.(pointers := n.pointers[cindex := child]);
    ReplaceChild(cfg, n, m, d, idx, child, m, store.held);
  }

  /** The lookup continues behind a pointer whose subtree starts at depth `d`. */
  method GetBelow(cfg: Config, p: Pointer, hb: HashBits, key: Key, store: BlockStore, ghost m: Entries, ghost d: nat)
    returns (p': Pointer, r: Result<Option<KeyValue>>)
    requires d <= Levels(cfg) && PointerDenotes(cfg, p, m, d)
    requires ReadsAt(cfg, hb, key, d)
    ensures PointerDenotes(cfg, p', m, d) && (p.Dirty? <==> p'.Dirty?)
    ensures PointerPresent(store.held, p) ==> PointerPresent(store.held, p')
    ensures r.Ok? ==> r.value == if key in m then Some(KeyValue(key, m[key])) else None
    ensures r.Err? ==> r.error == BlockNotFound && !PointerPresent(store.held, p)
    decreases Levels(cfg) - d, 1
  {
    match p {
      case Link(cid, cache) =>
        var loaded := LoadChild(cfg, cid, cache, store, m, d);
        if loaded.Err? {
          return p, Err(loaded.error);
        }
        var c;
        c, r := GetValue(cfg, loaded.value, hb, key, store, m, d);
        SameFrozen(cfg, loaded.value, c, m, d);
        p' := Link(cid, Some(c));
        if CidPresent(store.held, cid) {
          LoadedPresent(store.held, cid, loaded.value);
        }
      case Dirty(n) =>
        var c;
        c, r := GetValue(cfg, n, hb, key, store, m, d);
        p' := Dirty(c);
      case Values(vals) =>
        var at := Position(vals, key, m);
        return p, Ok(if at.Some? then Some(vals[at.value]) else None);
    }
  }

  // ----- Insertion -----

  /** What `set` (overwriting) and `set_if_absent` do to a map. */
  ghost function Updated(m: Entries, key: Key, value: Value, overwrite: bool): Entries
  {
    if key in m && !overwrite then m else m[key := value]
  }

  /** The previous value and the "modified" flag that an insertion reports. */
  ghost function Report(m: Entries, key: Key, value: Value, overwrite: bool): (Option<Value>, bool)
  {
    if key !in m then (None, true)
    else if overwrite then (Some(m[key]), m[key] != value)
    else (None, false)
  }

  lemma SingletonListing(key: Key, value: Value)
    ensures SortedListing([KeyValue(key, value)], map[key := value])
  {
    assert [KeyValue(key, value)][0].key == key;
  }

  lemma AddChild(cfg: Config, n: Node, m: Entries, d: nat, i: nat, key: Key, value: Value, held: set<Cid>)
    requires d < Levels(cfg) && i == Digit(cfg, key, d) && NodeDenotes(cfg, n, m, d) && !Has(n.bitfield, i)
    ensures key !in m
    ensures NodeDenotes(cfg, WithNewChild(n, i, Values([KeyValue(key, value)])), m[key := value], d)
    ensures NodePresent(held, n) ==> NodePresent(held, WithNewChild(n, i, Values([KeyValue(key, value)])))
  {
    var p := Values([KeyValue(key, value)]);
    var m' := m[key := value];
    OpenSlot(cfg, n, m, d, i);
    assert key !in Sub(cfg, m, d, i);
    forall j: nat | j < 256
      ensures Sub(cfg, m', d, j) == if j == i then map[key := value] else Sub(cfg, m, d, j)
    {
      SubOfUpdate(cfg, m, d, key, value, j);
    }
    SingletonListing(key, value);
    DenotesWithNewChild(cfg, n, m, d, i, p, m');
    RankMonotone(n.bitfield, i, 256);
  }

  method InsertChild(n: Node, idx: nat, key: Key, value: Value) returns (n': Node)
    requires WellIndexed(n) && idx < 256 && !Has(n.bitfield, idx)
    ensures n' == WithNewChild(n, idx, Values([KeyValue(key, value)]))
  {
    var i := IndexForBitPos(n.bitfield, idx);
    RankMonotone(n.bitfield, idx, 256);
    n' := Node(SetBit(n.bitfield, idx), n.pointers[..i] + [Values([KeyValue(key, value)])] + n.pointers[i..]);
  }

  lemma SubsAfterUpdate(cfg: Config, m: Entries, d: nat, key: Key, value: Value, overwrite: bool)
    requires d < Levels(cfg)
    ensures forall j: nat | j < 256 ::
      Sub(cfg, Updated(m, key, value, overwrite), d, j) ==
      if j == Digit(cfg, key, d) then Updated(Sub(cfg, m, d, j), key, value, overwrite) else Sub(cfg, m, d, j)
    ensures Report(Sub(cfg, m, d, Digit(cfg, key, d)), key, value, overwrite) == Report(m, key, value, overwrite)
  {
    forall j: nat | j < 256
      ensures Sub(cfg, Updated(m, key, value, overwrite), d, j) ==
        if j == Digit(cfg, key, d) then Updated(Sub(cfg, m, d, j), key, value, overwrite) else Sub(cfg, m, d, j)
    {
      SubOfUpdate(cfg, m, d, key, value, j);
    }
  }

  type Outcome = Result<(Option<Value>, bool)>

  /** What an insertion of `key` that runs out of hash bits leaves behind: only the bucket
      on the path of `key` differs, and it has been emptied unless it was already at the
      last digit. A link on the path keeps its CID although its cache has changed. */
  ghost predicate Spilled(cfg: Config, n: Node, n': Node, key: Key, d: nat)
    requires d < Levels(cfg)
    decreases Levels(cfg) - d, 0
  {
    var i := Digit(cfg, key, d);
    && WellIndexed(n) && WellIndexed(n')
    && Has(n.bitfield, i) && Has(n'.bitfield, i)
    && n' == WithChild(n, i, ChildAt(n', i))
    && SpilledBelow(cfg, ChildAt(n, i), ChildAt(n', i), key, d + 1)
  }

  ghost predicate SpilledBelow(cfg: Config, p: Pointer, p': Pointer, key: Key, d: nat)
    requires d <= Levels(cfg)
    decreases Levels(cfg) - d, 1
  {
    match p
    case Values(vals) => p' == Values(if d == Levels(cfg) then vals else [])
    case Dirty(c) => d < Levels(cfg) && p'.Dirty? && Spilled(cfg, c, p'.node, key, d)
    case Link(cid, cache) =>
      && d < Levels(cfg) && p'.Link? && p'.cid == cid && p'.cache.Some?
      && Spilled(cfg, Linked(cid, cache), p'.cache.value, key, d)
  }

  /** The effect of an insertion on a node at depth `d`: on success the updated map,
      the old value and an exact "modified" flag; on a missing block nothing changed;
      running out of hash bits means four keys share the rest of their hashes. */
  ghost predicate NodeModified(cfg: Config, n: Node, n': Node, m: Entries, d: nat, key: Key, value: Value,
                               overwrite: bool, held: set<Cid>, r: Outcome)
    requires d <= Levels(cfg)
  {
    match r
    case Ok((previous, modified)) =>
      && NodeDenotes(cfg, n', Updated(m, key, value, overwrite), d)
      && (previous, modified) == Report(m, key, value, overwrite)
      && (!modified && Clean(n) ==> Clean(n'))
      && (NodePresent(held, n) ==> NodePresent(held, n'))
    case Err(error) =>
      if error == BlockNotFound then
        NodeDenotes(cfg, n', m, d) && (Clean(n) ==> Clean(n')) && !NodePresent(held, n)
      else
        && error == MaximumDepth
        && if d == Levels(cfg) then n' == n
           else !NoCollision(cfg, m.Keys + {key}, d) && Spilled(cfg, n, n', key, d)
  }

  /** The same effect on a pointer whose subtree starts at depth `d`. */
  ghost predicate PointerModified(cfg: Config, p: Pointer, p': Pointer, m: Entries, d: nat, key: Key, value: Value,
                                  overwrite: bool, held: set<Cid>, r: Outcome)
    requires d <= Levels(cfg)
  {
    match r
    case Ok((previous, modified)) =>
      && PointerDenotes(cfg, p', Updated(m, key, value, overwrite), d)
      && (previous, modified) == Report(m, key, value, overwrite)
      && (!modified && !p.Dirty? ==> !p'.Dirty?)
      && (PointerPresent(held, p) ==> PointerPresent(held, p'))
    case Err(error) =>
      if error == BlockNotFound then
        PointerDenotes(cfg, p', m, d) && (p.Dirty? <==> p'.Dirty?) && !PointerPresent(held, p)
      else
        error == MaximumDepth && !NoCollision(cfg, m.Keys + {key}, d) && SpilledBelow(cfg, p, p', key, d)
  }

  /** The pointer on the path of `key` has been modified, giving `p'`. */
  ghost predicate ChildModified(cfg: Config, n: Node, m: Entries, d: nat, p': Pointer, key: Key, value: Value,
                                overwrite: bool, held: set<Cid>, r: Outcome)
    requires d < Levels(cfg)
  {
    var i := Digit(cfg, key, d);
    && NodeDenotes(cfg, n, m, d) && Has(n.bitfield, i)
    && PointerModified(cfg, ChildAt(n, i), p', Sub(cfg, m, d, i), d + 1, key, value, overwrite, held, r)
  }

  lemma SuccessLifts(cfg: Config, n: Node, m: Entries, d: nat, p': Pointer, key: Key, value: Value,
                     overwrite: bool, held: set<Cid>, r: Outcome)
    requires d < Levels(cfg) && ChildModified(cfg, n, m, d, p', key, value, overwrite, held, r) && r.Ok?
    ensures NodeModified(cfg, n, WithChild(n, Digit(cfg, key, d), p'), m, d, key, value, overwrite, held, r)
  {
    SubsAfterUpdate(cfg, m, d, key, value, overwrite);
    ReplaceChild(cfg, n, m, d, Digit(cfg, key, d), p', Updated(m, key, value, overwrite), held);
  }

  lemma MissingLifts(cfg: Config, n: Node, m: Entries, d: nat, p': Pointer, key: Key, value: Value,
                     overwrite: bool, held: set<Cid>, r: Outcome)
    requires d < Levels(cfg) && ChildModified(cfg, n, m, d, p', key, value, overwrite, held, r)
    requires r == Err(BlockNotFound)
    ensures NodeModified(cfg, n, WithChild(n, Digit(cfg, key, d), p'), m, d, key, value, overwrite, held, r)
  {
    var i := Digit(cfg, key, d);
    RankMonotone(n.bitfield, i, 256);
    ReplaceChild(cfg, n, m, d, i, p', m, held);
    assert n.pointers[Rank(n.bitfield, i)] == ChildAt(n, i);
  }

  lemma SpillLifts(cfg: Config, n: Node, m: Entries, d: nat, p': Pointer, key: Key, value: Value,
                   overwrite: bool, held: set<Cid>, r: Outcome)
    requires d < Levels(cfg) && ChildModified(cfg, n, m, d, p', key, value, overwrite, held, r)
    requires r == Err(MaximumDepth)
    ensures NodeModified(cfg, n, WithChild(n, Digit(cfg, key, d), p'), m, d, key, value, overwrite, held, r)
  {
    var i := Digit(cfg, key, d);
    CollisionLifts(cfg, m.Keys + {key}, Sub(cfg, m, d, i).Keys + {key}, d, i);
    ReplacedIndex(n, i, p');
  }

  lemma ModificationLifts(cfg: Config, n: Node, m: Entries, d: nat, p': Pointer, key: Key, value: Value,
                          overwrite: bool, held: set<Cid>, r: Outcome)
    requires d < Levels(cfg) && ChildModified(cfg, n, m, d, p', key, value, overwrite, held, r)
    ensures NodeModified(cfg, n, WithChild(n, Digit(cfg, key, d), p'), m, d, key, value, overwrite, held, r)
  {
    if r.Ok? {
      SuccessLifts(cfg, n, m, d, p', key, value, overwrite, held, r);
    } else if r.error == BlockNotFound {
      MissingLifts(cfg, n, m, d, p', key, value, overwrite, held, r);
    } else {
      SpillLifts(cfg, n, m, d, p', key, value, overwrite, held, r);
    }
  }

  /** `set` below a node at depth `d`. */
  method ModifyValue(cfg: Config, n: Node, hb: HashBits, key: Key, value: Value, store: BlockStore, overwrite: bool,
                     ghost m: Entries, ghost d: nat)
    returns (n': Node, r: Outcome)
    requires d <= Levels(cfg) && NodeDenotes(cfg, n, m, d)
    requires ReadsAt(cfg, hb, key, d)
    ensures NodeModified(cfg, n, n', m, d, key, value, overwrite, store.held, r)
    ensures d == Levels(cfg) ==> r.Err? && n' == n
    decreases Levels(cfg) - d, 0
  {
    var hb', next := NextDigit(cfg, hb, key, d);
    if next.Err? {
      return n, Err(next.error);
    }
    var idx := next.value;
    if !TestBit(n.bitfield, idx) {
      AddChild(cfg, n, m, d, idx, key, value, store.held);
      n' := InsertChild(n, idx, key, value);
      return n', Ok((None, true));
    }
    n', r := ModifyChild(cfg, n, idx, hb', key, value, store, overwrite, m, d);
  }

  /** The insertion continues behind the pointer at digit `idx`. */
  method ModifyChild(cfg: Config, n: Node, idx: nat, hb: HashBits, key: Key, value: Value, store: BlockStore,
                     overwrite: bool, ghost m: Entries, ghost d: nat)
    returns (n': Node, r: Outcome)
    requires d < Levels(cfg) && NodeDenotes(cfg, n, m, d) && idx == Digit(cfg, key, d) && Has(n.bitfield, idx)
    requires ReadsAt(cfg, hb, key, d + 1)
    ensures NodeModified(cfg, n, n', m, d, key, value, overwrite, store.held, r)
    decreases Levels(cfg) - d - 1, 5
  {
    var cindex := IndexForBitPos(n.bitfield, idx);
    RankMonotone(n.bitfield, idx, 256);
    assert n.pointers[cindex] == ChildAt(n, idx);
    OpenSlot(cfg, n, m, d, idx);
    var child;
    child, r := ModifyBelow(cfg, n.pointers[cindex], hb, key, value, store, overwrite, Sub(cfg, m, d, idx), d + 1);
    n' := n.(pointers := n.pointers[cindex := child]);
    assert n' == WithChild(n, idx, child);
    ModificationLifts(cfg, n, m, d, child, key, value, overwrite, store.held, r);
  }

  /** The insertion continues behind a pointer whose subtree starts at depth `d`. */
  method ModifyBelow(cfg: Config, p: Pointer, hb: HashBits, key: Key, value: Value, store: BlockStore, overwrite: bool,
                     ghost m: Entries, ghost d: nat)
    returns (p': Pointer, r: Outcome)
    requires d <= Levels(cfg) && PointerDenotes(cfg, p, m, d)
    requires ReadsAt(cfg, hb, key, d)
    ensures PointerModified(cfg, p, p', m, d, key, value, overwrite, store.held, r)
    decreases Levels(cfg) - d, 4
  {
    match p {
      case Link(cid, cache) =>
        var loaded := LoadChild(cfg, cid, cache, store, m, d);
        if loaded.Err? {
          return p, Err(loaded.error);
        }
        var c;
        c, r := ModifyValue(cfg, loaded.value, hb, key, value, store, overwrite, m, d);
        p' := if r.Ok? && r.value.1 then Dirty(c) else Link(cid, Some(c));
        LinkModified(cfg, cid, cache, loaded.value, c, p', m, d, key, value, overwrite, store.held, r);
      case Dirty(n) =>
        var c;
        c, r := ModifyValue(cfg, n, hb, key, value, store, overwrite, m, d);
        p' := Dirty(c);
        UpdateGrows(m, key, value, overwrite);
      case Values(vals) =>
        p', r := ModifyBucket(cfg, vals, hb, key, value, store, overwrite, m, d);
    }
  }

  lemma UpdateGrows(m: Entries, key: Key, value: Value, overwrite: bool)
    ensures |Updated(m, key, value, overwrite)| == if key in m then |m| else |m| + 1
  {
    assert m[key := value].Keys == m.Keys + {key};
  }

  lemma Unmodified(m: Entries, key: Key, value: Value, overwrite: bool)
    ensures !Report(m, key, value, overwrite).1 ==> Updated(m, key, value, overwrite) == m
  {}

  /** A link whose child was not modified stays a link with a coherent cache. */
  lemma LinkModified(cfg: Config, cid: Cid, cache: Option<Node>, c: Node, c': Node, p': Pointer, m: Entries, d: nat,
                     key: Key, value: Value, overwrite: bool, held: set<Cid>, r: Outcome)
    requires d <= Levels(cfg) && PointerDenotes(cfg, Link(cid, cache), m, d)
    requires Serialize(c) == Ok(cid.block) && NodeDenotes(cfg, c, m, d) && c == Linked(cid, cache)
    requires NodeModified(cfg, c, c', m, d, key, value, overwrite, held, r)
    requires p' == if r.Ok? && r.value.1 then Dirty(c') else Link(cid, Some(c'))
    ensures PointerModified(cfg, Link(cid, cache), p', m, d, key, value, overwrite, held, r)
  {
    UpdateGrows(m, key, value, overwrite);
    Unmodified(m, key, value, overwrite);
    DenotesAtDepth(cfg, c, m, d);
    if CidPresent(held, cid) {
      LoadedPresent(held, cid, c);
    }
    if (r.Ok? && !r.value.1) || r == Err(BlockNotFound) {
      SameFrozen(cfg, c, c', m, d);
    }
  }

  method ModifyBucket(cfg: Config, vals: seq<KeyValue>, hb: HashBits, key: Key, value: Value, store: BlockStore,
                      overwrite: bool, ghost m: Entries, ghost d: nat)
    returns (p': Pointer, r: Outcome)
    requires d <= Levels(cfg) && PointerDenotes(cfg, Values(vals), m, d)
    requires ReadsAt(cfg, hb, key, d)
    ensures PointerModified(cfg, Values(vals), p', m, d, key, value, overwrite, store.held, r)
    decreases Levels(cfg) - d, 3
  {
    EnumerationSize(vals, m);
    UpdateGrows(m, key, value, overwrite);
    var at := Position(vals, key, m);
    if at.Some? {
      if overwrite {
        var i := at.value;
        ReplaceAt(vals, i, value, m);
        return Values(vals[i := KeyValue(vals[i].key, value)]), Ok((Some(vals[i].value), vals[i].value != value));
      } else {
        return Values(vals), Ok((None, false));
      }
    }
    if |vals| >= MAX_ARRAY_WIDTH {
      p', r := SplitBucket(cfg, vals, hb, key, value, store, overwrite, m, d);
    } else {
      var vals' := InsertInOrder(vals, key, value, m);
      return Values(vals'), Ok((None, true));
    }
  }

  lemma FewKeysDoNotCollide(cfg: Config, keys: set<Key>, d: nat)
    requires |keys| <= MAX_ARRAY_WIDTH
    ensures NoCollision(cfg, keys, d)
  {
    forall s | s <= keys && AgreeFrom(cfg, s, d)
      ensures |s| <= MAX_ARRAY_WIDTH
    {
      SubsetSize(s, keys);
    }
  }

  lemma FourKeysPastTheLastDigit(cfg: Config, keys: set<Key>)
    requires |keys| > MAX_ARRAY_WIDTH
    ensures !NoCollision(cfg, keys, Levels(cfg))
  {
    assert AgreeFrom(cfg, keys, Levels(cfg));
  }

  /** A full bucket becomes a child node holding its pairs and the new one. When the
      child cannot hold them the bucket's pairs are already taken: the bucket is left
      empty unless the very first insertion failed. */
  method SplitBucket(cfg: Config, vals: seq<KeyValue>, hb: HashBits, key: Key, value: Value, store: BlockStore,
                     overwrite: bool, ghost m: Entries, ghost d: nat)
    returns (p': Pointer, r: Outcome)
    requires d <= Levels(cfg) && SortedListing(vals, m) && |m| == MAX_ARRAY_WIDTH && key !in m
    requires ReadsAt(cfg, hb, key, d)
    ensures r.Ok? ==> p'.Dirty? && PointerDenotes(cfg, p', m[key := value], d) && PointerPresent(store.held, p')
    ensures r.Ok? ==> r.value == (None, true)
    ensures r.Err? ==> r.error == MaximumDepth && !NoCollision(cfg, m.Keys + {key}, d)
    ensures r.Err? ==> p' == Values(if d == Levels(cfg) then vals else [])
    decreases Levels(cfg) - d, 2
  {
    UpdateGrows(m, key, value, true);
    EmptyDenotes(cfg, d);
    ghost var nothing: Entries := map[];
    var sub, first := ModifyValue(cfg, EMPTY_NODE, hb, key, value, store, overwrite, nothing, d);
    if first.Err? {
      FewKeysDoNotCollide(cfg, {key}, d);
      assert nothing.Keys + {key} == {key};
      FourKeysPastTheLastDigit(cfg, m.Keys + {key});
      return Values(vals), Err(first.error);
    }
    var failed;
    sub, failed := Refill(cfg, sub, vals, hb.consumed, key, value, store, overwrite, m, d);
    if failed {
      return Values([]), Err(MaximumDepth);
    }
    return Dirty(sub), Ok(first.value);
  }

  /** Reinserts the taken pairs, reading their hashes from where the new key's stopped. */
  method Refill(cfg: Config, n: Node, vals: seq<KeyValue>, consumed: nat, key: Key, value: Value, store: BlockStore,
                overwrite: bool, ghost m: Entries, ghost d: nat)
    returns (sub: Node, failed: bool)
    requires d < Levels(cfg) && Enumerates(vals, m) && key !in m
    requires ReadsAt(cfg, NewAtIndex(cfg.hash(key), consumed), key, d)
    requires NodeDenotes(cfg, n, map[key := value], d) && NodePresent(store.held, n)
    ensures !failed ==> NodeDenotes(cfg, sub, m[key := value], d) && NodePresent(store.held, sub)
    ensures failed ==> !NoCollision(cfg, m.Keys + {key}, d)
    decreases Levels(cfg) - d, 1
  {
    sub := n;
    ghost var done: Entries := map[key := value];
    ghost var all := [KeyValue(key, value)] + vals;
    AllToRefill(vals, m, key, value);
    for j := 0 to |vals|
      invariant NodeDenotes(cfg, sub, done, d) && NodePresent(store.held, sub)
      invariant Enumerates(all[..j + 1], done)
    {
      var p := vals[j];
      var again;
      PrefixGrows(all, m[key := value], j + 1, done);
      ReadsElsewhere(cfg, consumed, key, p.key, d);
      sub, again := ModifyValue(cfg, sub, NewAtIndex(cfg.hash(p.key), consumed), p.key, p.value, store, overwrite, done,
                                d);
      if again.Err? {
        MoreKeysCollide(cfg, done.Keys + {p.key}, m.Keys + {key}, d);
        return sub, true;
      }
      done := done[p.key := p.value];
    }
    assert all[..|vals| + 1] == all;
    EnumeratedMapUnique(all, done, m[key := value]);
    failed := false;
  }

  lemma AllToRefill(vals: seq<KeyValue>, m: Entries, key: Key, value: Value)
    requires Enumerates(vals, m) && key !in m
    ensures var all := [KeyValue(key, value)] + vals;
      Enumerates(all, m[key := value]) && Enumerates(all[..1], map[key := value])
  {
    var all := [KeyValue(key, value)] + vals;
    InsertEnumerates(vals, 0, key, value, m);
    assert vals[..0] + [KeyValue(key, value)] + vals[0..] == all;
    SingletonListing(key, value);
    assert all[..1] == [KeyValue(key, value)];
  }

  lemma MoreKeysCollide(cfg: Config, few: set<Key>, more: set<Key>, d: nat)
    requires few <= more && !NoCollision(cfg, few, d)
    ensures !NoCollision(cfg, more, d)
  {
    var s :| s <= few && AgreeFrom(cfg, s, d) && |s| > MAX_ARRAY_WIDTH;
    assert s <= more;
  }
}
