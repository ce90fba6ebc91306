/** Streaming the entries of a HAMT node, recursively or with an explicit stack. */
module NodeStreams {
  import opened Wrappers
  import opened Bitfields
  import opened Pairs
  import opened Blocks
  import opened Trie
  import opened Listings
  import opened Nodes
  import opened NodeRemoval

  // ----- What a stream meets -----

  /** A stream yields pairs and, in between, fetches the blocks of links without a cache. */
  datatype Visit = Pair(kv: KeyValue) | Fetch(cid: Cid)

  function PairVisits(pairs: seq<KeyValue>): (vs: seq<Visit>)
    ensures |vs| == |pairs| && forall i | 0 <= i < |pairs| :: vs[i] == Pair(pairs[i])
  {
    seq(|pairs|, i requires 0 <= i < |pairs| => Pair(pairs[i]))
  }

  function YieldUpTo(vs: seq<Visit>, n: nat): seq<KeyValue>
    requires n <= |vs|
  {
    if n == 0 then []
    else YieldUpTo(vs, n - 1) + match vs[n - 1] case Pair(kv) => [kv] case Fetch(_) => []
  }

  /** The pairs among some visits, in order. */
  function Yields(vs: seq<Visit>): seq<KeyValue>
  {
    YieldUpTo(vs, |vs|)
  }

  lemma {:induction false} YieldsPrefix(a: seq<Visit>, b: seq<Visit>, n: nat)
    requires n <= |a|
    ensures YieldUpTo(a + b, n) == YieldUpTo(a, n)
    decreases n
  {
    if n > 0 {
      YieldsPrefix(a, b, n - 1);
    }
  }

  lemma {:induction false} YieldsRest(a: seq<Visit>, b: seq<Visit>, n: nat)
    requires n <= |b|
    ensures YieldUpTo(a + b, |a| + n) == Yields(a) + YieldUpTo(b, n)
    decreases n
  {
    if n == 0 {
      YieldsPrefix(a, b, |a|);
    } else {
      YieldsRest(a, b, n - 1);
      assert (a + b)[|a| + n - 1] == b[n - 1];
    }
  }

  lemma YieldsAppend(a: seq<Visit>, b: seq<Visit>)
    ensures Yields(a + b) == Yields(a) + Yields(b)
  {
    YieldsRest(a, b, |b|);
  }

  lemma {:induction false} YieldsOfPairs(pairs: seq<KeyValue>, n: nat)
    requires n <= |pairs|
    ensures YieldUpTo(PairVisits(pairs), n) == pairs[..n]
    decreases n
  {
    if n > 0 {
      YieldsOfPairs(pairs, n - 1);
    }
  }

  lemma FetchYieldsNothing(cid: Cid, vs: seq<Visit>)
    ensures Yields([Fetch(cid)]) == [] && Yields([Fetch(cid)] + vs) == Yields(vs)
  {
    var one := [Fetch(cid)];
    assert YieldUpTo(one, 0) == [];
    assert YieldUpTo(one, 1) == [] + [];
    YieldsAppend(one, vs);
    assert [] + Yields(vs) == Yields(vs);
  }

  /** Every fetched block is held. */
  ghost predicate AllHeld(held: set<Cid>, vs: seq<Visit>)
  {
    forall i | 0 <= i < |vs| :: vs[i].Fetch? ==> vs[i].cid in held
  }

  /** The visits up to `k` succeed and the one at `k`, if there is one, fetches a missing block. */
  ghost predicate StopsAt(held: set<Cid>, vs: seq<Visit>, k: nat)
  {
    k <= |vs| && AllHeld(held, vs[..k]) && (k < |vs| ==> vs[k].Fetch? && vs[k].cid !in held)
  }

  /** `out` is what the visits yield up to the first missing block, and `r` says whether
      there is one. */
  ghost predicate YieldsUntilGap(held: set<Cid>, vs: seq<Visit>, out: seq<KeyValue>, r: Result<()>)
  {
    && (r.Ok? || r == Err(BlockNotFound))
    && exists k: nat :: StopsAt(held, vs, k) && out == Yields(vs[..k]) && (r.Ok? <==> k == |vs|)
  }

  lemma YieldedWhole(held: set<Cid>, vs: seq<Visit>, out: seq<KeyValue>, r: Result<()>)
    requires YieldsUntilGap(held, vs, out, r)
    ensures r.Ok? <==> AllHeld(held, vs)
    ensures r.Ok? ==> out == Yields(vs)
  {
    var k: nat :| StopsAt(held, vs, k) && out == Yields(vs[..k]) && (r.Ok? <==> k == |vs|);
    assert vs[..|vs|] == vs;
  }

  lemma WholeYields(held: set<Cid>, vs: seq<Visit>)
    requires AllHeld(held, vs)
    ensures YieldsUntilGap(held, vs, Yields(vs), Ok(()))
  {
    assert vs[..|vs|] == vs;
    assert StopsAt(held, vs, |vs|);
  }

  /** After visits that succeed, the gap is where the further visits have it. */
  lemma GapAfter(held: set<Cid>, a: seq<Visit>, b: seq<Visit>, out: seq<KeyValue>, r: Result<()>)
    requires AllHeld(held, a) && YieldsUntilGap(held, b, out, r)
    ensures YieldsUntilGap(held, a + b, Yields(a) + out, r)
  {
    var k: nat :| StopsAt(held, b, k) && out == Yields(b[..k]) && (r.Ok? <==> k == |b|);
    assert (a + b)[..|a| + k] == a + b[..k];
    YieldsAppend(a, b[..k]);
    assert StopsAt(held, a + b, |a| + k);
  }

  /** What comes after a gap does not matter. */
  lemma GapBefore(held: set<Cid>, a: seq<Visit>, b: seq<Visit>, out: seq<KeyValue>, r: Result<()>)
    requires YieldsUntilGap(held, a, out, r) && r.Err?
    ensures YieldsUntilGap(held, a + b, out, r)
  {
    var k: nat :| StopsAt(held, a, k) && out == Yields(a[..k]) && (r.Ok? <==> k == |a|);
    assert (a + b)[..k] == a[..k];
    assert StopsAt(held, a + b, k);
  }

  // ----- The visits behind a pointer -----

  /** The two orders in which pointers are visited: `stream` goes through them in order,
      `into_stream` pops them off a stack. The pairs of a bucket keep their order in both. */
  datatype Order = InOrder | Popped

  function Join(order: Order, a: seq<Visit>, b: seq<Visit>): seq<Visit>
  {
    if order.InOrder? then a + b else b + a
  }

  lemma JoinAssociates(order: Order, a: seq<Visit>, b: seq<Visit>, c: seq<Visit>)
    ensures Join(order, Join(order, a, b), c) == Join(order, a, Join(order, b, c))
  {}

  ghost function Visits(order: Order, p: Pointer): seq<Visit>
    decreases p, 0
  {
    match p
    case Values(pairs) => PairVisits(pairs)
    case Dirty(n) => VisitAll(order, n.pointers)
    case Link(cid, None) => [Fetch(cid)] + CidVisits(order, cid)
    case Link(_, Some(n)) => VisitAll(order, n.pointers)
  }

  ghost function VisitAll(order: Order, ps: seq<Pointer>): seq<Visit>
    decreases ps, |ps| + 1
  {
    VisitUpTo(order, ps, |ps|)
  }

  /** The visits behind the first `n` pointers. */
  ghost function VisitUpTo(order: Order, ps: seq<Pointer>, n: nat): seq<Visit>
    requires n <= |ps|
    decreases ps, n
  {
    if n == 0 then [] else Join(order, VisitUpTo(order, ps, n - 1), Visits(order, ps[n - 1]))
  }

  ghost function CidVisits(order: Order, cid: Cid): seq<Visit>
    decreases cid, 0
  {
    match cid.block
    case NodeBlock(_, slots) => VisitSlots(order, slots, |slots|)
    case _ => []
  }

  ghost function VisitSlots(order: Order, slots: seq<Slot>, n: nat): seq<Visit>
    requires n <= |slots|
    decreases slots, n
  {
    if n == 0 then [] else Join(order, VisitSlots(order, slots, n - 1), SlotVisits(order, slots[n - 1]))
  }

  ghost function SlotVisits(order: Order, slot: Slot): seq<Visit>
    decreases slot, 0
  {
    match slot
    case Bucket(pairs) => PairVisits(pairs)
    case Child(cid) => [Fetch(cid)] + CidVisits(order, cid)
  }

  /** The pairs behind some pointers. */
  ghost function ListAll(order: Order, ps: seq<Pointer>): seq<KeyValue>
  {
    Yields(VisitAll(order, ps))
  }

  lemma {:induction false} VisitsOfDeserialized(order: Order, ps: seq<Pointer>, slots: seq<Slot>, n: nat)
    requires n <= |ps| == |slots| && forall j | 0 <= j < |ps| :: ps[j] == PointerOf(slots[j])
    ensures VisitUpTo(order, ps, n) == VisitSlots(order, slots, n) && SizeUpTo(ps, n) == SlotsSize(slots, n)
    decreases n
  {
    if n > 0 {
      VisitsOfDeserialized(order, ps, slots, n - 1);
    }
  }

  lemma UncachedVisits(order: Order, cid: Cid)
    requires NodeBlockOk(cid.block)
    ensures CidVisits(order, cid) == VisitAll(order, Deserialized(cid.block).pointers)
    ensures CidSize(cid) == NodeSize(Deserialized(cid.block).pointers)
  {
    var ps := Deserialized(cid.block).pointers;
    VisitsOfDeserialized(order, ps, cid.block.slots, |ps|);
  }

  /** Only the first pointers matter. */
  lemma {:induction false} SamePrefix(order: Order, ps: seq<Pointer>, qs: seq<Pointer>, n: nat)
    requires n <= |ps| && n <= |qs| && forall j | 0 <= j < n :: ps[j] == qs[j]
    ensures VisitUpTo(order, ps, n) == VisitUpTo(order, qs, n) && SizeUpTo(ps, n) == SizeUpTo(qs, n)
    decreases n
  {
    if n > 0 {
      SamePrefix(order, ps, qs, n - 1);
    }
  }

  lemma VisitNext(order: Order, ps: seq<Pointer>, n: nat, p: Pointer)
    requires n < |ps| && ps[n] == p
    ensures VisitUpTo(order, ps, n + 1) == Join(order, VisitUpTo(order, ps, n), Visits(order, p))
  {}

  lemma VisitsOfPrefix(order: Order, a: seq<Pointer>, b: seq<Pointer>, ab: seq<Pointer>)
    requires ab == a + b
    ensures VisitUpTo(order, ab, |a|) == Join(order, VisitAll(order, a), [])
  {
    SamePrefix(order, ab, a, |a|);
  }

  lemma {:induction false} VisitsOfAppended(order: Order, a: seq<Pointer>, b: seq<Pointer>, ab: seq<Pointer>, n: nat)
    requires n <= |b| && ab == a + b
    ensures VisitUpTo(order, ab, |a| + n) == Join(order, VisitAll(order, a), VisitUpTo(order, b, n))
    decreases n
  {
    if n == 0 {
      VisitsOfPrefix(order, a, b, ab);
    } else {
      VisitsOfAppended(order, a, b, ab, n - 1);
      VisitNext(order, b, n - 1, b[n - 1]);
      VisitNext(order, ab, |a| + n - 1, b[n - 1]);
      JoinAssociates(order, VisitAll(order, a), VisitUpTo(order, b, n - 1), Visits(order, b[n - 1]));
    }
  }

  lemma {:induction false} SizeOfAppended(a: seq<Pointer>, b: seq<Pointer>, ab: seq<Pointer>, n: nat)
    requires n <= |b| && ab == a + b
    ensures SizeUpTo(ab, |a| + n) == NodeSize(a) + SizeUpTo(b, n)
    decreases n
  {
    if n == 0 {
      SamePrefix(InOrder, ab, a, |a|);
    } else {
      SizeOfAppended(a, b, ab, n - 1);
      assert ab[|a| + n - 1] == b[n - 1];
    }
  }

  lemma {:induction false} VisitPrefix(ps: seq<Pointer>, j: nat, n: nat) returns (rest: seq<Visit>)
    requires j <= n <= |ps|
    ensures VisitUpTo(InOrder, ps, n) == VisitUpTo(InOrder, ps, j) + rest
    decreases n
  {
    rest := [];
    if j < n {
      var before := VisitPrefix(ps, j, n - 1);
      rest := before + Visits(InOrder, ps[n - 1]);
    }
  }

  // ----- Both orders yield the same pairs -----

  ghost predicate Counted(a: seq<Visit>)
  {
    true
  }

  ghost predicate SameYields(a: seq<Visit>, b: seq<Visit>)
  {
    forall x {:trigger Counted(x)} | Counted(x) && x == a :: multiset(Yields(x)) == multiset(Yields(b))
  }

  lemma CountYields(a: seq<Visit>, b: seq<Visit>)
    requires SameYields(a, b)
    ensures multiset(Yields(a)) == multiset(Yields(b))
  {
    assert Counted(a);
  }

  lemma SameYieldsJoined(a: seq<Visit>, b: seq<Visit>, a': seq<Visit>, b': seq<Visit>)
    requires SameYields(a, a') && SameYields(b, b')
    ensures SameYields(Join(Popped, a, b), Join(InOrder, a', b'))
  {
    CountYields(a, a');
    CountYields(b, b');
    YieldsAppend(b, a);
    YieldsAppend(a', b');
  }

  lemma SameYieldsFetched(cid: Cid, a: seq<Visit>, b: seq<Visit>)
    requires SameYields(a, b)
    ensures SameYields([Fetch(cid)] + a, [Fetch(cid)] + b)
  {
    CountYields(a, b);
    FetchYieldsNothing(cid, a);
    FetchYieldsNothing(cid, b);
  }

  lemma {:induction false} SameVisits(p: Pointer)
    ensures SameYields(Visits(Popped, p), Visits(InOrder, p))
    decreases p, 0
  {
    match p
    case Values(_) =>
    case Dirty(n) => SameVisitsUpTo(n.pointers, |n.pointers|);
    case Link(cid, None) =>
      SameCidVisits(cid);
      SameYieldsFetched(cid, CidVisits(Popped, cid), CidVisits(InOrder, cid));
    case Link(_, Some(n)) => SameVisitsUpTo(n.pointers, |n.pointers|);
  }

  lemma {:induction false} SameVisitsUpTo(ps: seq<Pointer>, n: nat)
    requires n <= |ps|
    ensures SameYields(VisitUpTo(Popped, ps, n), VisitUpTo(InOrder, ps, n))
    decreases ps, n
  {
    if n > 0 {
      SameVisitsUpTo(ps, n - 1);
      SameVisits(ps[n - 1]);
      SameYieldsJoined(VisitUpTo(Popped, ps, n - 1), Visits(Popped, ps[n - 1]),
                       VisitUpTo(InOrder, ps, n - 1), Visits(InOrder, ps[n - 1]));
    }
  }

  lemma {:induction false} SameCidVisits(cid: Cid)
    ensures SameYields(CidVisits(Popped, cid), CidVisits(InOrder, cid))
    decreases cid, 0
  {
    match cid.block
    case NodeBlock(_, slots) => SameSlotsVisits(slots, |slots|);
    case _ =>
  }

  lemma {:induction false} SameSlotsVisits(slots: seq<Slot>, n: nat)
    requires n <= |slots|
    ensures SameYields(VisitSlots(Popped, slots, n), VisitSlots(InOrder, slots, n))
    decreases slots, n
  {
    if n > 0 {
      SameSlotsVisits(slots, n - 1);
      SameSlotVisits(slots[n - 1]);
      SameYieldsJoined(VisitSlots(Popped, slots, n - 1), SlotVisits(Popped, slots[n - 1]),
                       VisitSlots(InOrder, slots, n - 1), SlotVisits(InOrder, slots[n - 1]));
    }
  }

  lemma {:induction false} SameSlotVisits(slot: Slot)
    ensures SameYields(SlotVisits(Popped, slot), SlotVisits(InOrder, slot))
    decreases slot, 0
  {
    match slot
    case Bucket(_) =>
    case Child(cid) =>
      SameCidVisits(cid);
      SameYieldsFetched(cid, CidVisits(Popped, cid), CidVisits(InOrder, cid));
  }

  // ----- The listing of a trie -----

  ghost function EachListing(ps: seq<Pointer>): seq<seq<KeyValue>>
  {
    seq(|ps|, j requires 0 <= j < |ps| => Yields(Visits(InOrder, ps[j])))
  }

  lemma {:induction false} ListUpToIsConcat(ps: seq<Pointer>, n: nat)
    requires n <= |ps|
    ensures Yields(VisitUpTo(InOrder, ps, n)) == Concat(EachListing(ps)[..n])
    decreases n
  {
    if n > 0 {
      ListUpToIsConcat(ps, n - 1);
      YieldsAppend(VisitUpTo(InOrder, ps, n - 1), Visits(InOrder, ps[n - 1]));
      assert EachListing(ps)[..n][..n - 1] == EachListing(ps)[..n - 1];
    }
  }

  /** Whatever mix of dirty, cached and uncached pointers a node has, the listing of a
      node for `m` holds every entry of `m` exactly once. */
  lemma {:induction false} NodeListing(cfg: Config, n: Node, m: Entries, d: nat)
    requires d < Levels(cfg) && NodeDenotes(cfg, n, m, d)
    ensures Enumerates(ListAll(InOrder, n.pointers), m)
    decreases Levels(cfg) - d, 0
  {
    var lists := EachListing(n.pointers);
    forall i: nat | i < 256
      ensures ListsChild(cfg, n.bitfield, lists, m, d, i)
    {
      OpenSlot(cfg, n, m, d, i);
      if Has(n.bitfield, i) {
        RankMonotone(n.bitfield, i, 256);
        PointerListing(cfg, ChildAt(n, i), Sub(cfg, m, d, i), d + 1);
      }
    }
    AllEnumerated(cfg, n.bitfield, lists, m, d);
    ListUpToIsConcat(n.pointers, |n.pointers|);
    assert lists[..|n.pointers|] == lists;
  }

  lemma PairsYield(pairs: seq<KeyValue>)
    ensures Yields(PairVisits(pairs)) == pairs
  {
    YieldsOfPairs(pairs, |pairs|);
  }

  lemma LinkYields(order: Order, cid: Cid, cache: Option<Node>)
    requires NodeBlockOk(cid.block)
    ensures Yields(Visits(order, Link(cid, cache))) == ListAll(order, Linked(cid, cache).pointers)
  {
    if cache.None? {
      UncachedVisits(order, cid);
      FetchYieldsNothing(cid, CidVisits(order, cid));
    }
  }

  lemma {:induction false} PointerListing(cfg: Config, p: Pointer, m: Entries, d: nat)
    requires d <= Levels(cfg) && PointerDenotes(cfg, p, m, d)
    ensures Enumerates(Yields(Visits(InOrder, p)), m)
    decreases Levels(cfg) - d, 1
  {
    match p {
      case Values(pairs) =>
        PairsYield(pairs);
      case Dirty(n) =>
        DenotesAtDepth(cfg, n, m, d);
        NodeListing(cfg, n, m, d);
      case Link(cid, cache) =>
        DenotesAtDepth(cfg, Linked(cid, cache), m, d);
        NodeListing(cfg, Linked(cid, cache), m, d);
        LinkYields(InOrder, cid, cache);
    }
  }

  /** Popping lists every entry exactly once as well. */
  lemma PoppedListing(cfg: Config, n: Node, m: Entries, d: nat)
    requires d < Levels(cfg) && NodeDenotes(cfg, n, m, d)
    ensures Enumerates(ListAll(Popped, n.pointers), m)
  {
    NodeListing(cfg, n, m, d);
    SameVisitsUpTo(n.pointers, |n.pointers|);
    CountYields(VisitAll(Popped, n.pointers), VisitAll(InOrder, n.pointers));
    RearrangedEnumerates(ListAll(InOrder, n.pointers), ListAll(Popped, n.pointers), m);
  }

  /** Streaming a complete node fetches held blocks only. */
  lemma {:induction false} PresentVisits(cfg: Config, held: set<Cid>, order: Order, n: Node, m: Entries, d: nat, j: nat)
    requires d < Levels(cfg) && NodeDenotes(cfg, n, m, d) && NodePresent(held, n) && j <= |n.pointers|
    ensures AllHeld(held, VisitUpTo(order, n.pointers, j))
    decreases Levels(cfg) - d, 0, j
  {
    if j > 0 {
      PresentVisits(cfg, held, order, n, m, d, j - 1);
      var i := SlotAt(cfg, n, m, d, j - 1);
      PresentBelow(cfg, held, order, n.pointers[j - 1], Sub(cfg, m, d, i), d + 1);
    }
  }

  lemma {:induction false} PresentBelow(cfg: Config, held: set<Cid>, order: Order, p: Pointer, m: Entries, d: nat)
    requires d <= Levels(cfg) && PointerDenotes(cfg, p, m, d) && PointerPresent(held, p)
    ensures AllHeld(held, Visits(order, p))
    decreases Levels(cfg) - d, 1, 0
  {
    match p {
      case Values(_) =>
      case Dirty(n) =>
        DenotesAtDepth(cfg, n, m, d);
        PresentVisits(cfg, held, order, n, m, d, |n.pointers|);
      case Link(cid, cache) =>
        var c := Linked(cid, cache);
        DenotesAtDepth(cfg, c, m, d);
        LoadedPresent(held, cid, c);
        PresentVisits(cfg, held, order, c, m, d, |c.pointers|);
        if cache.None? {
          UncachedVisits(order, cid);
        }
    }
  }

  /** Structural size of what a pointer leads to; the termination measure of the stack. */
  ghost function Size(p: Pointer): nat
    decreases p, 0
  {
    match p
    case Values(_) => 1
    case Dirty(n) => 1 + NodeSize(n.pointers)
    case Link(cid, None) => 1 + CidSize(cid)
    case Link(_, Some(n)) => 1 + NodeSize(n.pointers)
  }

  ghost function NodeSize(ps: seq<Pointer>): nat
    decreases ps, |ps| + 1
  {
    SizeUpTo(ps, |ps|)
  }

  ghost function SizeUpTo(ps: seq<Pointer>, n: nat): nat
    requires n <= |ps|
    decreases ps, n
  {
    if n == 0 then 0 else SizeUpTo(ps, n - 1) + Size(ps[n - 1])
  }

  ghost function CidSize(cid: Cid): nat
    decreases cid, 0
  {
    match cid.block
    case NodeBlock(_, slots) => SlotsSize(slots, |slots|)
    case _ => 0
  }

  ghost function SlotsSize(slots: seq<Slot>, n: nat): nat
    requires n <= |slots|
    decreases slots, n
  {
    if n == 0 then 0 else SlotsSize(slots, n - 1) + SlotSize(slots[n - 1])
  }

  ghost function SlotSize(slot: Slot): nat
    decreases slot, 0
  {
    match slot
    case Bucket(_) => 1
    case Child(cid) => 1 + CidSize(cid)
  }

  // ----- The recursive stream -----

  /** `n'` is `n` after streaming `j` pointers: only caches may have been filled. */
  ghost predicate CachedUpTo(cfg: Config, n: Node, n': Node, m: Entries, d: nat, j: nat, held: set<Cid>)
    requires d < Levels(cfg) && j <= |n.pointers|
  {
    && n'.bitfield == n.bitfield && |n'.pointers| == |n.pointers|
    && NodeDenotes(cfg, n', m, d)
    && (Clean(n) ==> Clean(n'))
    && (forall t | j <= t < |n.pointers| :: n'.pointers[t] == n.pointers[t])
    && (NodePresent(held, n) ==> NodePresent(held, n'))
  }

  lemma CacheStep(cfg: Config, n: Node, n': Node, m: Entries, d: nat, j: nat, i: nat, p: Pointer, held: set<Cid>)
    requires d < Levels(cfg) && j < |n.pointers| && CachedUpTo(cfg, n, n', m, d, j, held)
    requires i < 256 && Has(n.bitfield, i) && Rank(n.bitfield, i) == j
    requires PointerDenotes(cfg, p, Sub(cfg, m, d, i), d + 1) && (p.Dirty? ==> n.pointers[j].Dirty?)
    requires PointerPresent(held, n.pointers[j]) ==> PointerPresent(held, p)
    ensures CachedUpTo(cfg, n, n'.(pointers := n'.pointers[j := p]), m, d, j + 1, held)
  {
    ReplaceChild(cfg, n', m, d, i, p, m, held);
  }

  /** The first `j` pointers have been streamed without meeting a gap. */
  ghost predicate StreamedUpTo(held: set<Cid>, ps: seq<Pointer>, j: nat, out: seq<KeyValue>)
    requires j <= |ps|
  {
    AllHeld(held, VisitUpTo(InOrder, ps, j)) && out == Yields(VisitUpTo(InOrder, ps, j))
  }

  lemma StreamStep(held: set<Cid>, ps: seq<Pointer>, j: nat, out: seq<KeyValue>, list: seq<KeyValue>, r: Result<()>)
    requires j < |ps| && StreamedUpTo(held, ps, j, out) && YieldsUntilGap(held, Visits(InOrder, ps[j]), list, r)
    ensures if r.Ok? then StreamedUpTo(held, ps, j + 1, out + list)
            else YieldsUntilGap(held, VisitAll(InOrder, ps), out + list, r)
  {
    var done, next := VisitUpTo(InOrder, ps, j), Visits(InOrder, ps[j]);
    GapAfter(held, done, next, list, r);
    if r.Ok? {
      YieldedWhole(held, done + next, out + list, r);
    } else {
      var rest := VisitPrefix(ps, j + 1, |ps|);
      GapBefore(held, done + next, rest, out + list, r);
    }
  }

  /** What streaming a node does to it, whether or not it reaches the end. */
  ghost predicate Streamed(cfg: Config, n: Node, n': Node, m: Entries, d: nat, held: set<Cid>, out: seq<KeyValue>,
                           r: Result<()>)
    requires d < Levels(cfg)
  {
    && NodeDenotes(cfg, n', m, d) && (Clean(n) ==> Clean(n')) && (NodePresent(held, n) ==> NodePresent(held, n'))
    && YieldsUntilGap(held, VisitAll(InOrder, n.pointers), out, r)
  }

  ghost predicate StreamedBelow(cfg: Config, p: Pointer, p': Pointer, m: Entries, d: nat, held: set<Cid>,
                                out: seq<KeyValue>, r: Result<()>)
    requires d <= Levels(cfg)
  {
    && PointerDenotes(cfg, p', m, d) && (p.Dirty? <==> p'.Dirty?)
    && (PointerPresent(held, p) ==> PointerPresent(held, p'))
    && YieldsUntilGap(held, Visits(InOrder, p), out, r)
  }

  /** `Node::stream`: the entries in pointer order, up to the first missing block if there is
      one; only link caches change. */
  method Stream(cfg: Config, n: Node, store: BlockStore, ghost m: Entries, ghost d: nat)
    returns (n': Node, out: seq<KeyValue>, r: Result<()>)
    requires d < Levels(cfg) && NodeDenotes(cfg, n, m, d)
    ensures Streamed(cfg, n, n', m, d, store.held, out, r)
    decreases Levels(cfg) - d, 0
  {
    n', out, r := n, [], Ok(());
    for j := 0 to |n.pointers|
      invariant r.Ok? && CachedUpTo(cfg, n, n', m, d, j, store.held)
      invariant StreamedUpTo(store.held, n.pointers, j, out)
    {
      ghost var i := SlotAt(cfg, n, m, d, j);
      var p, list;
      p, list, r := StreamBelow(cfg, n.pointers[j], store, Sub(cfg, m, d, i), d + 1);
      CacheStep(cfg, n, n', m, d, j, i, p, store.held);
      StreamStep(store.held, n.pointers, j, out, list, r);
      n' := n'.(pointers := n'.pointers[j := p]);
      out := out + list;
      if r.Err? {
        return;
      }
    }
    WholeYields(store.held, VisitAll(InOrder, n.pointers));
  }

  method StreamBelow(cfg: Config, p: Pointer, store: BlockStore, ghost m: Entries, ghost d: nat)
    returns (p': Pointer, out: seq<KeyValue>, r: Result<()>)
    requires d <= Levels(cfg) && PointerDenotes(cfg, p, m, d)
    ensures StreamedBelow(cfg, p, p', m, d, store.held, out, r)
    decreases Levels(cfg) - d, 1
  {
    match p {
      case Link(cid, cache) =>
        var loaded := LoadChild(cfg, cid, cache, store, m, d);
        if loaded.Err? {
          MissingLink(store.held, InOrder, cid);
          return p, [], Err(loaded.error);
        }
        DenotesAtDepth(cfg, loaded.value, m, d);
        var c;
        c, out, r := Stream(cfg, loaded.value, store, m, d);
        p' := Link(cid, Some(c));
        LinkStreamed(cfg, cid, cache, c, m, d, store.held, out, r);
      case Dirty(n) =>
        DenotesAtDepth(cfg, n, m, d);
        var c;
        c, out, r := Stream(cfg, n, store, m, d);
        p' := Dirty(c);
      case Values(vals) =>
        PairsYield(vals);
        WholeYields(store.held, PairVisits(vals));
        return p, vals, Ok(());
    }
  }

  lemma MissingLink(held: set<Cid>, order: Order, cid: Cid)
    requires cid !in held
    ensures YieldsUntilGap(held, Visits(order, Link(cid, None)), [], Err(BlockNotFound))
  {
    var vs := Visits(order, Link(cid, None));
    assert vs[..0] == [] && StopsAt(held, vs, 0);
  }

  lemma LinkStreamed(cfg: Config, cid: Cid, cache: Option<Node>, c': Node, m: Entries, d: nat, held: set<Cid>,
                     out: seq<KeyValue>, r: Result<()>)
    requires d < Levels(cfg) && PointerDenotes(cfg, Link(cid, cache), m, d) && (cache.Some? || cid in held)
    requires NodeDenotes(cfg, Linked(cid, cache), m, d) && Serialize(Linked(cid, cache)) == Ok(cid.block)
    requires Streamed(cfg, Linked(cid, cache), c', m, d, held, out, r)
    ensures StreamedBelow(cfg, Link(cid, cache), Link(cid, Some(c')), m, d, held, out, r)
  {
    var c := Linked(cid, cache);
    SameFrozen(cfg, c, c', m, d);
    if CidPresent(held, cid) {
      LoadedPresent(held, cid, c);
    }
    if cache.None? {
      UncachedVisits(InOrder, cid);
      GapAfter(held, [Fetch(cid)], CidVisits(InOrder, cid), out, r);
      FetchYieldsNothing(cid, []);
      assert [] + out == out;
    }
  }

  // ----- The stack-based stream -----

  /** Every pointer on the stack denotes some entries. */
  ghost predicate StackDenotes(cfg: Config, stack: seq<Pointer>)
  {
    forall t | 0 <= t < |stack| :: HasEntries(cfg, stack[t])
  }

  ghost predicate HasEntries(cfg: Config, p: Pointer)
  {
    exists e, d: nat :: d <= Levels(cfg) && PointerDenotes(cfg, p, e, d)
  }

  lemma ChildrenHaveEntries(cfg: Config, n: Node, m: Entries, d: nat)
    requires d < Levels(cfg) && NodeDenotes(cfg, n, m, d)
    ensures StackDenotes(cfg, n.pointers)
  {
    forall t | 0 <= t < |n.pointers|
      ensures HasEntries(cfg, n.pointers[t])
    {
      var i := SlotAt(cfg, n, m, d, t);
    }
  }

  /** Of the visits of `whole`, `done` have succeeded and those of `stack` are left. */
  ghost predicate Popping(held: set<Cid>, whole: seq<Pointer>, stack: seq<Pointer>, done: seq<Visit>,
                          out: seq<KeyValue>)
  {
    && VisitAll(Popped, whole) == done + VisitAll(Popped, stack)
    && AllHeld(held, done) && out == Yields(done)
  }

  lemma LastVisits(ps: seq<Pointer>)
    requires ps != []
    ensures VisitAll(Popped, ps) == Visits(Popped, ps[|ps| - 1]) + VisitAll(Popped, ps[..|ps| - 1])
    ensures NodeSize(ps) == NodeSize(ps[..|ps| - 1]) + Size(ps[|ps| - 1])
  {
    SamePrefix(Popped, ps, ps[..|ps| - 1], |ps| - 1);
  }

  lemma Pop(held: set<Cid>, whole: seq<Pointer>, stack: seq<Pointer>, stack': seq<Pointer>, done: seq<Visit>,
            more: seq<Visit>, out: seq<KeyValue>)
    requires Popping(held, whole, stack, done, out) && AllHeld(held, more)
    requires VisitAll(Popped, stack) == more + VisitAll(Popped, stack')
    ensures Popping(held, whole, stack', done + more, out + Yields(more))
  {
    JoinAssociates(InOrder, done, more, VisitAll(Popped, stack'));
    YieldsAppend(done, more);
  }

  lemma PopBucket(held: set<Cid>, whole: seq<Pointer>, stack: seq<Pointer>, done: seq<Visit>, out: seq<KeyValue>)
    requires Popping(held, whole, stack, done, out) && stack != [] && stack[|stack| - 1].Values?
    ensures var pairs := stack[|stack| - 1].pairs;
      Popping(held, whole, stack[..|stack| - 1], done + PairVisits(pairs), out + pairs)
    ensures NodeSize(stack[..|stack| - 1]) < NodeSize(stack)
  {
    var pairs := stack[|stack| - 1].pairs;
    LastVisits(stack);
    PairsYield(pairs);
    Pop(held, whole, stack, stack[..|stack| - 1], done, PairVisits(pairs), out);
  }

  /** The visits made to get from a pointer to the pointers of its node. */
  ghost function Fetched(p: Pointer): seq<Visit>
  {
    if p.Link? && p.cache.None? then [Fetch(p.cid)] else []
  }

  lemma PopNode(held: set<Cid>, whole: seq<Pointer>, stack: seq<Pointer>, done: seq<Visit>, out: seq<KeyValue>,
                ps: seq<Pointer>)
    requires Popping(held, whole, stack, done, out) && stack != [] && AllHeld(held, Fetched(stack[|stack| - 1]))
    requires Visits(Popped, stack[|stack| - 1]) == Fetched(stack[|stack| - 1]) + VisitAll(Popped, ps)
    requires NodeSize(ps) < Size(stack[|stack| - 1])
    ensures Popping(held, whole, stack[..|stack| - 1] + ps, done + Fetched(stack[|stack| - 1]), out)
    ensures NodeSize(stack[..|stack| - 1] + ps) < NodeSize(stack)
  {
    var below, fetched := stack[..|stack| - 1], Fetched(stack[|stack| - 1]);
    LastVisits(stack);
    PushedVisits(below, ps);
    JoinAssociates(InOrder, fetched, VisitAll(Popped, ps), VisitAll(Popped, below));
    FetchesYieldNothing(stack[|stack| - 1]);
    Pop(held, whole, stack, below + ps, done, fetched, out);
    assert out + [] == out;
  }

  lemma FetchesYieldNothing(p: Pointer)
    ensures Yields(Fetched(p)) == []
  {
    if p.Link? {
      FetchYieldsNothing(p.cid, []);
    }
  }

  lemma PushedVisits(a: seq<Pointer>, b: seq<Pointer>)
    ensures VisitAll(Popped, a + b) == VisitAll(Popped, b) + VisitAll(Popped, a)
    ensures NodeSize(a + b) == NodeSize(a) + NodeSize(b)
  {
    VisitsOfAppended(Popped, a, b, a + b, |b|);
    SizeOfAppended(a, b, a + b, |b|);
  }

  /** The pointer on top of the stack leads to a missing block. */
  lemma PopMissing(held: set<Cid>, whole: seq<Pointer>, stack: seq<Pointer>, done: seq<Visit>, out: seq<KeyValue>)
    requires Popping(held, whole, stack, done, out) && stack != []
    requires var p := stack[|stack| - 1]; p.Link? && p.cache.None? && p.cid !in held
    ensures YieldsUntilGap(held, VisitAll(Popped, whole), out, Err(BlockNotFound))
  {
    var p := stack[|stack| - 1];
    LastVisits(stack);
    MissingLink(held, Popped, p.cid);
    GapBefore(held, Visits(Popped, p), VisitAll(Popped, stack[..|stack| - 1]), [], Err(BlockNotFound));
    GapAfter(held, done, VisitAll(Popped, stack), [], Err(BlockNotFound));
    assert out + [] == out;
  }

  lemma StackTop(cfg: Config, stack: seq<Pointer>)
    requires stack != [] && StackDenotes(cfg, stack)
    ensures StackDenotes(cfg, stack[..|stack| - 1]) && HasEntries(cfg, stack[|stack| - 1])
  {
    assert forall t | 0 <= t < |stack| - 1 :: stack[..|stack| - 1][t] == stack[t];
  }

  lemma StackJoin(cfg: Config, a: seq<Pointer>, b: seq<Pointer>)
    requires StackDenotes(cfg, a) && StackDenotes(cfg, b)
    ensures StackDenotes(cfg, a + b)
  {
    assert forall t | 0 <= t < |a + b| :: (a + b)[t] == if t < |a| then a[t] else b[t - |a|];
  }

  /** `Node::into_stream`: pops pointers off a stack, expanding nodes, until every entry has
      been yielded exactly once or a block is missing. */
  method IntoStream(cfg: Config, n: Node, store: BlockStore, ghost m: Entries)
    returns (out: seq<KeyValue>, r: Result<()>)
    requires NodeDenotes(cfg, n, m, 0)
    ensures YieldsUntilGap(store.held, VisitAll(Popped, n.pointers), out, r)
  {
    var remaining := n.pointers;
    ghost var done: seq<Visit> := [];
    out := [];
    ChildrenHaveEntries(cfg, n, m, 0);
    while remaining != []
      invariant StackDenotes(cfg, remaining) && Popping(store.held, n.pointers, remaining, done, out)
      decreases NodeSize(remaining)
    {
      var last := |remaining| - 1;
      var pointer := remaining[last];
      StackTop(cfg, remaining);
      if pointer.Values? {
        PopBucket(store.held, n.pointers, remaining, done, out);
        done := done + PairVisits(pointer.pairs);
        out := out + pointer.pairs;
        remaining := remaining[..last];
      } else {
        var node := Expanded(cfg, pointer, store);
        if node.Err? {
          PopMissing(store.held, n.pointers, remaining, done, out);
          return out, Err(node.error);
        }
        PopNode(store.held, n.pointers, remaining, done, out, node.value.pointers);
        StackJoin(cfg, remaining[..last], node.value.pointers);
        done := done + Fetched(pointer);
        remaining := remaining[..last] + node.value.pointers;
      }
    }
    assert done + [] == done;
    WholeYields(store.held, done);
    r := Ok(());
  }

  /** The node behind a dirty or linked pointer, taking a filled cache first. */
  method Expanded(cfg: Config, p: Pointer, store: BlockStore) returns (r: Result<Node>)
    requires !p.Values? && HasEntries(cfg, p)
    ensures r.Ok? ==> StackDenotes(cfg, r.value.pointers) && NodeSize(r.value.pointers) < Size(p)
    ensures r.Ok? ==> AllHeld(store.held, Fetched(p))
    ensures r.Ok? ==> Visits(Popped, p) == Fetched(p) + VisitAll(Popped, r.value.pointers)
    ensures r.Err? ==> r.error == BlockNotFound && p.Link? && p.cache.None? && p.cid !in store.held
  {
    ghost var m: Entries, d: nat :| d <= Levels(cfg) && PointerDenotes(cfg, p, m, d);
    match p {
      case Dirty(n) =>
        r := Ok(n);
      case Link(cid, cache) =>
        r := LoadChild(cfg, cid, cache, store, m, d);
    }
    if r.Ok? {
      DenotesAtDepth(cfg, r.value, m, d);
      ChildrenHaveEntries(cfg, r.value, m, d);
      if p.Link? && p.cache.None? {
        UncachedVisits(Popped, p.cid);
      } else {
        assert [] + VisitAll(Popped, r.value.pointers) == VisitAll(Popped, r.value.pointers);
      }
    }
  }
}
