/** HAMT nodes and what it means for a node to denote a key/value map. */
module Trie {
  import opened Wrappers
  import opened Words
  import opened Bitfields
  import opened HashBitReader
  import opened Pairs
  import opened Blocks

  const MAX_ARRAY_WIDTH := 3

  datatype Node = Node(bitfield: Bitfield, pointers: seq<Pointer>)

  datatype Pointer =
    | Values(pairs: seq<KeyValue>)
    | Link(cid: Cid, cache: Option<Node>)
    | Dirty(node: Node)

  /** The hash algorithm and bit width a HAMT is instantiated with. */
  datatype RawConfig = Config(hash: Key -> HashedKey, bitWidth: nat)

  function ZeroHash(k: Key): HashedKey
  {
    seq(32, _ => 0)
  }

  type Config = c: RawConfig | 1 <= c.bitWidth <= 8 witness Config(ZeroHash, 8)

  const EMPTY_NODE := Node(Zero(), [])

  // ----- Digits -----

  /** How many runs of `w` bits fit in `n` bits: `n / w`, by repeated subtraction. */
  function WholeDigits(n: nat, w: nat): nat
    requires w > 0
  {
    if n < w then 0 else 1 + WholeDigits(n - w, w)
  }

  /** The number of digits a hash has; a node at this depth cannot be indexed. */
  function Levels(cfg: Config): (r: nat)
    ensures r > 0
  {
    WholeDigits(256, cfg.bitWidth)
  }

  lemma {:induction false} WholeDigitsFit(n: nat, w: nat, d: nat)
    requires w > 0
    ensures d < WholeDigits(n, w) <==> (d + 1) * w <= n
    decreases n
  {
    if n >= w && d > 0 {
      WholeDigitsFit(n - w, w, d - 1);
      assert (d + 1) * w == d * w + w;
    } else if d > 0 {
      assert (d + 1) * w >= w;
    }
  }

  lemma DigitFits(cfg: Config, d: nat)
    ensures d < Levels(cfg) <==> (d + 1) * cfg.bitWidth <= 256
  {
    WholeDigitsFit(256, cfg.bitWidth, d);
  }

  /** Mentioned only where the bits of a key's hash are needed: see `DigitValue`. */
  predicate Spelled(k: Key)
  {
    true
  }

  lemma DigitExists(cfg: Config, k: Key, d: nat)
    requires d < Levels(cfg)
    ensures d * cfg.bitWidth + cfg.bitWidth <= 256 && BitsValue(cfg.hash(k), d * cfg.bitWidth, cfg.bitWidth) < 256
  {
    DigitFits(cfg, d);
    assert d * cfg.bitWidth + cfg.bitWidth == (d + 1) * cfg.bitWidth;
    ValueBound(cfg.hash(k), d * cfg.bitWidth, cfg.bitWidth);
    PowMonotone(cfg.bitWidth, 8);
    assert Pow2(8) == 256;
  }

  /** The digit of `k` at depth `d`: the next `bitWidth` bits of its hash. */
  ghost function Digit(cfg: Config, k: Key, d: nat): (r: nat)
    requires d < Levels(cfg)
    ensures r < 256
  {
    DigitExists(cfg, k, d);
    assert IsDigit(cfg, k, d, BitsValue(cfg.hash(k), d * cfg.bitWidth, cfg.bitWidth));
    var r: nat :| r < 256 && IsDigit(cfg, k, d, r);
    r
  }

  ghost predicate IsDigit(cfg: Config, k: Key, d: nat, r: nat)
  {
    forall x {:trigger Spelled(x)} | x == k && Spelled(x) ::
      d * cfg.bitWidth + cfg.bitWidth <= 256 && r == BitsValue(cfg.hash(k), d * cfg.bitWidth, cfg.bitWidth)
  }

  lemma DigitValue(cfg: Config, k: Key, d: nat)
    requires d < Levels(cfg)
    ensures d * cfg.bitWidth + cfg.bitWidth <= 256
    ensures Digit(cfg, k, d) == BitsValue(cfg.hash(k), d * cfg.bitWidth, cfg.bitWidth)
  {
    DigitExists(cfg, k, d);
    assert Spelled(k) && IsDigit(cfg, k, d, Digit(cfg, k, d));
  }

  /** With eight bits a level the digits of a key are the bytes of its hash. */
  lemma DigitIsByte(cfg: Config, k: Key, d: nat)
    requires d < Levels(cfg) && cfg.bitWidth == 8
    ensures d < 32 && Digit(cfg, k, d) == cfg.hash(k)[d]
  {
    DigitValue(cfg, k, d);
    BitsValueOfByte(cfg.hash(k), d);
  }

  /** `hb` reads the hash of `k` and has read `d` digits. */
  ghost predicate ReadsAt(cfg: Config, hb: HashBits, k: Key, d: nat)
  {
    forall x {:trigger Spelled(x)} | x == k && Spelled(x) :: hb == HashBits(cfg.hash(k), d * cfg.bitWidth)
  }

  /** Another key's reader at the same position has read as many digits. */
  lemma ReadsElsewhere(cfg: Config, consumed: nat, k: Key, k': Key, d: nat)
    requires ReadsAt(cfg, NewAtIndex(cfg.hash(k), consumed), k, d)
    ensures ReadsAt(cfg, NewAtIndex(cfg.hash(k'), consumed), k', d)
  {
    assert Spelled(k);
  }

  /** The entries of `m` whose hash has digit `i` at depth `d`. */
  ghost function Sub(cfg: Config, m: Entries, d: nat, i: nat): Entries
    requires d < Levels(cfg)
  {
    map k | k in m && Digit(cfg, k, d) == i :: m[k]
  }

  // ----- The dense pointer vector -----

  ghost predicate WellIndexed(n: Node)
  {
    |n.pointers| == Rank(n.bitfield, 256)
  }

  /** The pointer stored for bit `i`. */
  ghost function ChildAt(n: Node, i: nat): Pointer
    requires WellIndexed(n) && i < 256 && Has(n.bitfield, i)
  {
    RankMonotone(n.bitfield, i, 256);
    n.pointers[Rank(n.bitfield, i)]
  }

  ghost function WithChild(n: Node, i: nat, p: Pointer): Node
    requires WellIndexed(n) && i < 256 && Has(n.bitfield, i)
  {
    RankMonotone(n.bitfield, i, 256);
    n.(pointers := n.pointers[Rank(n.bitfield, i) := p])
  }

  ghost function WithNewChild(n: Node, i: nat, p: Pointer): Node
    requires WellIndexed(n) && i < 256 && !Has(n.bitfield, i)
  {
    RankMonotone(n.bitfield, i, 256);
    var r := Rank(n.bitfield, i);
    Node(SetBit(n.bitfield, i), n.pointers[..r] + [p] + n.pointers[r..])
  }

  ghost function WithoutChild(n: Node, i: nat): Node
    requires WellIndexed(n) && i < 256 && Has(n.bitfield, i)
  {
    RankMonotone(n.bitfield, i, 256);
    var r := Rank(n.bitfield, i);
    Node(ClearBit(n.bitfield, i), n.pointers[..r] + n.pointers[r + 1..])
  }

  lemma DistinctSlots(b: Bitfield, i: nat, j: nat)
    requires i < 256 && j < 256 && i != j && Has(b, i) && Has(b, j)
    ensures Rank(b, i) != Rank(b, j)
  {
    RankMonotone(b, i, if i < j then j else i);
    RankMonotone(b, j, if i < j then j else i);
  }

  lemma ReplacedIndex(n: Node, i: nat, p: Pointer)
    requires WellIndexed(n) && i < 256 && Has(n.bitfield, i)
    ensures WellIndexed(WithChild(n, i, p)) && WithChild(n, i, p).bitfield == n.bitfield
    ensures ChildAt(WithChild(n, i, p), i) == p
  {
    RankMonotone(n.bitfield, i, 256);
  }

  lemma ReplacedElsewhere(n: Node, i: nat, p: Pointer, j: nat)
    requires WellIndexed(n) && i < 256 && Has(n.bitfield, i) && j < 256 && j != i && Has(n.bitfield, j)
    ensures WellIndexed(WithChild(n, i, p)) && ChildAt(WithChild(n, i, p), j) == ChildAt(n, j)
  {
    DistinctSlots(n.bitfield, i, j);
    RankMonotone(n.bitfield, i, 256);
    RankMonotone(n.bitfield, j, 256);
  }

  lemma AddedIndex(n: Node, i: nat, p: Pointer)
    requires WellIndexed(n) && i < 256 && !Has(n.bitfield, i)
    ensures WellIndexed(WithNewChild(n, i, p)) && ChildAt(WithNewChild(n, i, p), i) == p
  {
    RankMonotone(n.bitfield, i, 256);
    RankAfterSet(n.bitfield, i, 256);
    RankAfterSet(n.bitfield, i, i);
  }

  lemma AddedElsewhere(n: Node, i: nat, p: Pointer, j: nat)
    requires WellIndexed(n) && i < 256 && !Has(n.bitfield, i) && j < 256 && Has(n.bitfield, j)
    ensures WellIndexed(WithNewChild(n, i, p)) && Has(WithNewChild(n, i, p).bitfield, j)
    ensures ChildAt(WithNewChild(n, i, p), j) == ChildAt(n, j)
  {
    var r, s := Rank(n.bitfield, i), Rank(n.bitfield, j);
    AddedIndex(n, i, p);
    RankAfterSet(n.bitfield, i, j);
    RankMonotone(n.bitfield, j, 256);
    RankMonotone(n.bitfield, i, 256);
    if j < i {
      RankMonotone(n.bitfield, j, i);
      InsertedAt(n.pointers, r, p, s);
    } else {
      RankMonotone(n.bitfield, i, j);
      InsertedAt(n.pointers, r, p, s);
    }
  }

  /** Where an element is found after one was inserted at `r`. */
  lemma InsertedAt(ps: seq<Pointer>, r: nat, p: Pointer, s: nat)
    requires r <= |ps| && s < |ps|
    ensures (ps[..r] + [p] + ps[r..])[if s < r then s else s + 1] == ps[s]
  {}

  /** Where an element is found after the one at `r` was removed. */
  lemma RemovedAt(ps: seq<Pointer>, r: nat, s: nat)
    requires r < |ps| && s < |ps| && s != r
    ensures (ps[..r] + ps[r + 1..])[if s < r then s else s - 1] == ps[s]
  {}

  lemma RemovedIndex(n: Node, i: nat)
    requires WellIndexed(n) && i < 256 && Has(n.bitfield, i)
    ensures WellIndexed(WithoutChild(n, i))
  {
    RankMonotone(n.bitfield, i, 256);
    RankAfterClear(n.bitfield, i, 256);
  }

  lemma RemovedElsewhere(n: Node, i: nat, j: nat)
    requires WellIndexed(n) && i < 256 && Has(n.bitfield, i) && j < 256 && j != i && Has(n.bitfield, j)
    ensures WellIndexed(WithoutChild(n, i)) && Has(WithoutChild(n, i).bitfield, j)
    ensures ChildAt(WithoutChild(n, i), j) == ChildAt(n, j)
  {
    var r, s := Rank(n.bitfield, i), Rank(n.bitfield, j);
    RemovedIndex(n, i);
    RankAfterClear(n.bitfield, i, j);
    RankMonotone(n.bitfield, j, 256);
    RankMonotone(n.bitfield, i, 256);
    if j < i {
      RankMonotone(n.bitfield, j, i);
      RemovedAt(n.pointers, r, s);
    } else {
      RankMonotone(n.bitfield, i, j);
      RemovedAt(n.pointers, r, s);
    }
  }

  // ----- Serialization -----

  /** `Serialize for Pointer`, which refuses dirty pointers. */
  function SlotOf(p: Pointer): Slot
    requires !p.Dirty?
  {
    match p
    case Values(pairs) => Bucket(pairs)
    case Link(cid, _) => Child(cid)
  }

  /** `Deserialize for Pointer`: links come back with an empty cache. */
  function PointerOf(s: Slot): Pointer
  {
    match s
    case Bucket(pairs) => Values(pairs)
    case Child(cid) => Link(cid, None)
  }

  predicate Clean(n: Node)
  {
    forall j | 0 <= j < |n.pointers| :: !n.pointers[j].Dirty?
  }

  function Serialized(n: Node): Block
    requires Clean(n)
  {
    NodeBlock(Encoded(n.bitfield), seq(|n.pointers|, j requires 0 <= j < |n.pointers| => SlotOf(n.pointers[j])))
  }

  function Serialize(n: Node): Result<Block>
  {
    if Clean(n) then Ok(Serialized(n)) else Err(DirtyPointer)
  }

  predicate Decodable(b: Block)
  {
    b.NodeBlock? && |b.bits| <= 32
  }

  function Deserialized(b: Block): Node
    requires Decodable(b)
  {
    Node(Decoded(b.bits), seq(|b.slots|, j requires 0 <= j < |b.slots| => PointerOf(b.slots[j])))
  }

  /** A block that is the serialized form of the node it decodes to. */
  ghost predicate NodeBlockOk(b: Block)
  {
    Decodable(b) && Serialize(Deserialized(b)) == Ok(b)
  }

  /** The block a flush of `n` produces: dirty children become links to their own
      flushed blocks. */
  ghost function Frozen(n: Node): Block
  {
    NodeBlock(Encoded(n.bitfield),
              seq(|n.pointers|, j requires 0 <= j < |n.pointers| => FrozenSlot(n.pointers[j])))
  }

  ghost function FrozenSlot(p: Pointer): Slot
  {
    match p
    case Values(pairs) => Bucket(pairs)
    case Link(cid, _) => Child(cid)
    case Dirty(n) => Child(Cid(Frozen(n)))
  }

  // ----- Denotation -----

  /** Mentioned only where what a node holds at a digit is needed: see `OpenSlot`. */
  predicate Opened(n: Node, i: nat)
  {
    true
  }

  /** `n`, at depth `d`, is the canonical trie of `m`: every occupied digit leads to a
      sorted bucket of at most three pairs, or to a child holding more than three. */
  ghost predicate NodeDenotes(cfg: Config, n: Node, m: Entries, d: nat)
    requires d <= Levels(cfg)
    decreases Levels(cfg) - d, 0
  {
    if d == Levels(cfg) then n == EMPTY_NODE && m == map[]
    else
      && WellIndexed(n)
      && forall i: nat {:trigger Opened(n, i)} | i < 256 && Opened(n, i) :: SlotDenotes(cfg, n, m, d, i)
  }

  /** Digit `i` is occupied exactly when there are entries behind it, and leads to them. */
  ghost predicate SlotDenotes(cfg: Config, n: Node, m: Entries, d: nat, i: nat)
    requires d < Levels(cfg) && WellIndexed(n) && i < 256
    decreases Levels(cfg) - d - 1, 2
  {
    && (Has(n.bitfield, i) <==> Sub(cfg, m, d, i) != map[])
    && (Has(n.bitfield, i) ==> PointerDenotes(cfg, ChildAt(n, i), Sub(cfg, m, d, i), d + 1))
  }

  /** A link's block denotes the entries, and a filled cache is a clean copy of that block. */
  ghost predicate PointerDenotes(cfg: Config, p: Pointer, m: Entries, d: nat)
    requires d <= Levels(cfg)
    decreases Levels(cfg) - d, 1
  {
    match p
    case Values(pairs) => 1 <= |m| <= MAX_ARRAY_WIDTH && SortedListing(pairs, m)
    case Dirty(n) => |m| > MAX_ARRAY_WIDTH && NodeDenotes(cfg, n, m, d)
    case Link(cid, cache) =>
      && |m| > MAX_ARRAY_WIDTH
      && NodeBlockOk(cid.block)
      && NodeDenotes(cfg, Deserialized(cid.block), m, d)
      && (cache.Some? ==> Serialize(cache.value) == Ok(cid.block) && NodeDenotes(cfg, cache.value, m, d))
  }

  /** What a node holds at a digit. */
  lemma OpenSlot(cfg: Config, n: Node, m: Entries, d: nat, i: nat)
    requires d < Levels(cfg) && NodeDenotes(cfg, n, m, d) && i < 256
    ensures WellIndexed(n) && (Has(n.bitfield, i) <==> Sub(cfg, m, d, i) != map[])
    ensures Has(n.bitfield, i) ==> PointerDenotes(cfg, ChildAt(n, i), Sub(cfg, m, d, i), d + 1)
  {
    assert Opened(n, i) && SlotDenotes(cfg, n, m, d, i);
  }

  /** Mentioned only where the node behind a root CID is needed: see `OpenRoot`. */
  predicate Read(cid: Cid)
  {
    true
  }

  /** The CID names the canonical trie of `m`. */
  ghost predicate RootDenotes(cfg: Config, cid: Cid, m: Entries)
  {
    forall c {:trigger Read(c)} | c == cid && Read(c) ::
      NodeBlockOk(c.block) && NodeDenotes(cfg, Deserialized(c.block), m, 0)
  }

  lemma OpenRoot(cfg: Config, cid: Cid, m: Entries)
    requires RootDenotes(cfg, cid, m)
    ensures NodeBlockOk(cid.block) && NodeDenotes(cfg, Deserialized(cid.block), m, 0)
  {
    assert Read(cid);
  }

  // ----- Presence of blocks -----

  ghost predicate CidPresent(held: set<Cid>, cid: Cid)
  {
    && cid in held
    && (cid.block.NodeBlock? ==>
          forall j | 0 <= j < |cid.block.slots| ::
            cid.block.slots[j].Child? ==> CidPresent(held, cid.block.slots[j].cid))
  }

  ghost predicate NodePresent(held: set<Cid>, n: Node)
  {
    forall j | 0 <= j < |n.pointers| :: PointerPresent(held, n.pointers[j])
  }

  ghost predicate PointerPresent(held: set<Cid>, p: Pointer)
  {
    match p
    case Values(_) => true
    case Link(cid, _) => CidPresent(held, cid)
    case Dirty(n) => NodePresent(held, n)
  }
}
