/** Hydration: completing a sparse replica by replaying changelogs. */
module SphereHydrate {
  import opened Wrappers
  import opened Pairs
  import opened Blocks
  import opened Trie
  import opened Mutations
  import opened Timelines
  import opened VersionedMaps
  import opened Histories
  import opened SphereApply
  import opened SphereDerive

  const EMPTY_MAPS: Four<Entries> := Four(map[], map[], map[], map[])

  /** `SphereIpld::new` and `MemoIpld::for_body`: a saved empty sphere body. */
  method NewBody(cfg: Config, identity: string, store: BlockStore) returns (b: Cid)
    modifies store
    ensures old(store.held) <= store.held
    ensures EmptyBody(cfg, b) && b.block.identity == identity && BodyPresent(store.held, b)
  {
    var content := Empty(cfg, store);
    ghost var held1 := store.held;
    var identities := Empty(cfg, store);
    ghost var held2 := store.held;
    var addressBook := store.Save(AddressBookBlock(identities));
    var delegations := Empty(cfg, store);
    ghost var held3 := store.held;
    var revocations := Empty(cfg, store);
    ghost var held4 := store.held;
    var authority := store.Save(AuthorityBlock(delegations, revocations));
    b := store.Save(SphereBlock(identity, content, addressBook, authority, None));
    EmptySections(cfg, b);
    MapPresentMonotone(held1, store.held, content);
    MapPresentMonotone(held2, store.held, identities);
    MapPresentMonotone(held3, store.held, delegations);
    MapPresentMonotone(held4, store.held, revocations);
    AssembledPresence(store.held, b);
  }

  lemma EmptySections(cfg: Config, b: Cid)
    requires Skeleton(b) && b.block.private == None
    requires EmptyMap(cfg, b.block.content) && EmptyMap(cfg, b.block.addressBook.block.identities)
    requires EmptyMap(cfg, b.block.authority.block.delegations) && EmptyMap(cfg, b.block.authority.block.revocations)
    ensures EmptyBody(cfg, b)
  {
    forall s
      ensures EmptyMap(cfg, MapCids(b).At(s))
    {
      match s {
        case Content =>
        case Identities =>
        case Delegations =>
        case Revocations =>
      }
    }
  }

  lemma EmptyBodyDenotes(cfg: Config, b: Cid)
    requires EmptyBody(cfg, b)
    ensures BodyDenotes(cfg, b, EMPTY_MAPS)
  {
    forall s
      ensures MapDenotes(cfg, MapCids(b).At(s), EMPTY_MAPS.At(s))
    {
      assert EMPTY_MAPS.At(s) == map[];
    }
  }

  /** Applying no changes leaves the body as it is. */
  lemma NothingApplied(cfg: Config, b: Cid, maps: Four<Entries>, did: string, b': Cid)
    requires Skeleton(b) && AppliedBody(cfg, b, maps, did, NO_CHANGES, b')
    ensures b' == b
  {
    forall s
      ensures MapCids(b').At(s) == MapCids(b).At(s)
    {
      assert AppliedSection(cfg, MapCids(b).At(s), maps.At(s), did, NO_CHANGES.At(s), MapCids(b').At(s));
    }
    MapCids(b').Extensional(MapCids(b));
    BodyDetermined(b);
    BodyDetermined(b');
  }

  /** All that hydrating a revision needs: its own sparse blocks and a complete parent. */
  ghost predicate CanHydrate(cfg: Config, held: set<Cid>, cid: Cid, keys: Four<set<Key>>)
  {
    && SafeKeys(cfg, keys) && RevisionWithin(cfg, cid, keys) && RevisionSparse(held, cid)
    && (cid.block.parent.Some? ==> ParentComplete(cfg, held, cid.block.parent.value, keys))
  }

  ghost predicate ParentComplete(cfg: Config, held: set<Cid>, p: Cid, keys: Four<set<Key>>)
  {
    IsRevision(cfg, p) && RevisionShape(p) && RevisionPresent(held, p) && MapsWithin(RevisionMaps(cfg, p), keys)
  }

  /** All that replaying a revision on its parent needs: the blocks that deriving reads, and of
      the parent the maps that change, complete and with no four keys colliding. */
  ghost predicate CanReplay(cfg: Config, held: set<Cid>, cid: Cid)
    requires Grounded(cfg, cid)
  {
    && cid.block.parent.Some? && StepRead(held, cid)
    && var p := cid.block.parent.value;
       CanApply(cfg, held, p.block.body, RevisionMaps(cfg, p), Derived(cid))
  }

  /** Blocks of the right kinds that claim to continue a well-formed history. */
  ghost predicate Grounded(cfg: Config, cid: Cid)
  {
    StepShape(cid) && (cid.block.parent.Some? ==> WellFormed(cfg, cid.block.parent.value))
  }

  /** What a replayed revision leaves behind: a first one its whole body, a later one what
      replaying its changes on its parent's body read and wrote. */
  ghost predicate ReplayHeld(held: set<Cid>, cid: Cid)
    requires StepShape(cid)
  {
    && StepRead(held, cid)
    && match cid.block.parent
       case None => BodyPresent(held, cid.block.body)
       case Some(p) => AppliedHeld(held, p.block.body, Derived(cid), cid.block.body)
  }

  lemma StepReadMonotone(held: set<Cid>, more: set<Cid>, cid: Cid)
    requires held <= more && StepShape(cid) && StepRead(held, cid)
    ensures StepRead(more, cid)
  {
    if cid.block.parent.Some? {
      var pb, b := cid.block.parent.value.block.body, cid.block.body;
      ReadSections(held, pb, b);
      ReadSections(more, pb, b);
    }
  }

  lemma ReplayHeldMonotone(held: set<Cid>, more: set<Cid>, cid: Cid)
    requires held <= more && StepShape(cid) && ReplayHeld(held, cid)
    ensures ReplayHeld(more, cid)
  {
    StepReadMonotone(held, more, cid);
    match cid.block.parent {
      case None => BodyMonotone(held, more, cid.block.body);
      case Some(p) => AppliedHeldMonotone(held, more, p.block.body, Derived(cid), cid.block.body);
    }
  }

  /** The part of a revision that deriving does not read is held sparsely: the maps, the
      address book and the authority that are its parent's. */
  ghost predicate KeptSparse(held: set<Cid>, cid: Cid)
    requires StepShape(cid) && cid.block.parent.Some?
  {
    var pb, b := cid.block.parent.value.block.body, cid.block.body;
    && (b.block.addressBook == pb.block.addressBook ==> b.block.addressBook in held)
    && (b.block.authority == pb.block.authority ==> b.block.authority in held)
    && forall s :: MapCids(b).At(s) == MapCids(pb).At(s) ==> MapSparse(held, MapCids(b).At(s))
  }

  /** Deriving reads exactly the rest: a revision that it can read is held sparsely if and only
      if what the revision shares with its parent is. */
  lemma ReadIsSparseIff(held: set<Cid>, cid: Cid)
    requires StepShape(cid) && cid.block.parent.Some? && StepRead(held, cid)
    ensures RevisionSparse(held, cid) <==> KeptSparse(held, cid)
  {
    var pb, b := cid.block.parent.value.block.body, cid.block.body;
    if KeptSparse(held, cid) {
      forall s
        ensures MapSparse(held, MapCids(b).At(s))
      {
        assert SectionRead(held, MapCids(pb).At(s), MapCids(b).At(s));
      }
    }
  }

  lemma MapWrittenRead(held: set<Cid>, pc: Cid, c: Cid)
    requires MapShape(c) && SectionRead(held, pc, c)
    ensures MapWritten(DerivedOps(pc, c), c) <= held
  {}

  /** Besides HAMT nodes, replaying a revision writes only what deriving it has read. */
  lemma RewrittenIsRead(held: set<Cid>, cid: Cid)
    requires StepShape(cid) && cid.block.parent.Some? && StepRead(held, cid)
    ensures BodyWritten(Derived(cid), cid.block.body) + {cid.block.body} <= held
  {
    var pb, b := cid.block.parent.value.block.body, cid.block.body;
    ReadSections(held, pb, b);
    MapWrittenRead(held, pb.block.content, b.block.content);
    MapWrittenRead(held, pb.block.addressBook.block.identities, b.block.addressBook.block.identities);
    MapWrittenRead(held, pb.block.authority.block.delegations, b.block.authority.block.delegations);
    MapWrittenRead(held, pb.block.authority.block.revocations, b.block.authority.block.revocations);
  }

  /** More HAMT nodes do not make a revision sparse that was not. */
  lemma NodesAreNotSparse(held: set<Cid>, more: set<Cid>, cid: Cid)
    requires RevisionShape(cid) && held <= more && OnlyNodesBut(held, more, {})
    ensures RevisionSparse(more, cid) <==> RevisionSparse(held, cid)
  {
    var b := cid.block.body;
    BodyMonotone(held, more, b);
    if RevisionSparse(more, cid) {
      forall s
        ensures MapSparse(held, MapCids(b).At(s))
      {
        assert MapSparse(more, MapCids(b).At(s)) && MapShape(MapCids(b).At(s));
      }
    }
  }

  /** `Sphere::hydrate_with_cid`: success proves a revision on a well-formed history to be
      well-formed, and only one that is not can disagree with its recorded body. */
  method Hydrate(cfg: Config, cid: Cid, store: BlockStore, ghost keys: Four<set<Key>>) returns (r: Result<()>)
    requires Grounded(cfg, cid)
    modifies store
    ensures old(store.held) <= store.held
    ensures r.Err? ==> DeriveError(r.error) || StorageError(r.error) || r.error == HydrationMismatch
    ensures r.Ok? ==> WellFormed(cfg, cid)
    ensures WellFormed(cfg, cid) && r.Err? ==> StorageError(r.error)
    ensures r.Ok? ==> cid.block.body in old(store.held)
    ensures r.Ok? ==> StepRead(old(store.held), cid) && ReplayHeld(store.held, cid)
    ensures cid.block.parent.None? && cid in old(store.held) && cid.block.body in old(store.held) ==>
              (r.Ok? <==> WellFormed(cfg, cid))
    ensures cid.block.parent.Some? && r.Ok? ==> OnlyNodesBut(old(store.held), store.held, {})
    ensures cid.block.parent.Some? && r.Ok? ==>
              (RevisionSparse(store.held, cid) <==> KeptSparse(old(store.held), cid))
    ensures CanReplay(cfg, old(store.held), cid) ==> (r.Ok? <==> WellFormed(cfg, cid))
    ensures CanHydrate(cfg, old(store.held), cid, keys) ==> (r.Ok? <==> WellFormed(cfg, cid))
    ensures CanHydrate(cfg, old(store.held), cid, keys) && r.Ok? ==> RevisionPresent(store.held, cid)
  {
    var memo := store.Load(cid);
    if memo.Err? {
      return Err(memo.error);
    }
    if memo.value.parent.None? {
      r := HydrateGenesis(cfg, cid, store);
    } else {
      r := HydrateOnParent(cfg, cid, store, keys);
      if r.Ok? {
        ReadIsSparseIff(old(store.held), cid);
        NodesAreNotSparse(old(store.held), store.held, cid);
      }
    }
  }

  /** A first revision is well-formed exactly when it has an author and the body of a new
      sphere with its identity. */
  lemma GenesisIff(cfg: Config, cid: Cid, base: Cid)
    requires RevisionShape(cid) && cid.block.parent.None?
    requires EmptyBody(cfg, base) && base.block.identity == cid.block.body.block.identity
    ensures WellFormed(cfg, cid) <==> AuthorOf(cid).Some? && cid.block.body == base
  {
    if WellFormed(cfg, cid) {
      EmptyBodyUnique(cfg, base, cid.block.body);
    } else if cid.block.body == base {
      EmptyBodyDenotes(cfg, base);
    }
  }

  method HydrateGenesis(cfg: Config, cid: Cid, store: BlockStore) returns (r: Result<()>)
    requires RevisionShape(cid) && cid.block.parent.None?
    modifies store
    ensures old(store.held) <= store.held
    ensures r.Err? ==> DeriveError(r.error) || r.error == HydrationMismatch
    ensures r.Ok? ==> WellFormed(cfg, cid)
    ensures WellFormed(cfg, cid) && r.Err? ==> r.error == BlockNotFound
    ensures r.Ok? ==> cid.block.body in old(store.held) && RevisionPresent(store.held, cid)
    ensures cid in old(store.held) && cid.block.body in old(store.held) ==> (r.Ok? <==> WellFormed(cfg, cid))
  {
    var body := store.Load(cid.block.body);
    if body.Err? {
      return Err(body.error);
    }
    var base := NewBody(cfg, body.value.identity, store);
    GenesisIff(cfg, cid, base);
    EmptyBodyDenotes(cfg, base);
    ghost var held := store.held;
    var emptyDag := store.Save(MemoBlock(None, [], base));
    BodyMonotone(held, store.held, base);
    ghost var held' := store.held;
    var mutation := DeriveMutation(cid, store);
    if mutation.Err? {
      return Err(mutation.error);
    }
    EmptyCanApply(cfg, store.held, base);
    var hydrated := ApplyMutation(cfg, emptyDag, mutation.value, store, EMPTY_MAPS);
    NothingApplied(cfg, base, EMPTY_MAPS, mutation.value.did, hydrated.value.body);
    BodyMonotone(held', store.held, base);
    r := if hydrated.value.body != cid.block.body then Err(HydrationMismatch) else Ok(());
  }

  lemma EmptyCanApply(cfg: Config, held: set<Cid>, b: Cid)
    requires Skeleton(b) && BodyPresent(held, b)
    ensures CanApply(cfg, held, b, EMPTY_MAPS, NO_CHANGES)
  {
    forall s
      ensures CanChange(cfg, held, MapCids(b).At(s), EMPTY_MAPS.At(s), NO_CHANGES.At(s))
    {
      assert NO_CHANGES.At(s) == [];
    }
  }

  /** A revision on a well-formed history is well-formed exactly when it can be derived and
      replaying what was derived gives its body. */
  lemma WellFormedIff(cfg: Config, cid: Cid, body: Cid)
    requires Grounded(cfg, cid) && cid.block.parent.Some? && Derivable(cid)
    requires var p := cid.block.parent.value;
      AppliedBody(cfg, p.block.body, RevisionMaps(cfg, p), AuthorOf(cid).value, Derived(cid), body)
    ensures WellFormed(cfg, cid) <==> cid.block.body == body
  {
    var p := cid.block.parent.value;
    if WellFormed(cfg, cid) {
      DerivedReproduces(cfg, cid);
      AppliedBodyUnique(cfg, p.block.body, RevisionMaps(cfg, p), AuthorOf(cid).value, Derived(cid), body,
                        cid.block.body);
    } else if cid.block.body == body {
      AppliedIsWellFormed(cfg, p, AuthorOf(cid).value, Derived(cid), cid);
    }
  }

  method HydrateOnParent(cfg: Config, cid: Cid, store: BlockStore, ghost keys: Four<set<Key>>) returns (r: Result<()>)
    requires Grounded(cfg, cid) && cid.block.parent.Some?
    modifies store
    ensures old(store.held) <= store.held
    ensures r.Err? ==> DeriveError(r.error) || StorageError(r.error) || r.error == HydrationMismatch
    ensures r.Ok? ==> WellFormed(cfg, cid)
    ensures WellFormed(cfg, cid) && r.Err? ==> StorageError(r.error)
    ensures r.Ok? ==> StepRead(old(store.held), cid) && ReplayHeld(store.held, cid)
    ensures r.Ok? ==> OnlyNodesBut(old(store.held), store.held, {})
    ensures CanReplay(cfg, old(store.held), cid) ==> (r.Ok? <==> WellFormed(cfg, cid))
    ensures CanHydrate(cfg, old(store.held), cid, keys) ==> CanReplay(cfg, old(store.held), cid)
    ensures CanHydrate(cfg, old(store.held), cid, keys) && r.Ok? ==> RevisionPresent(store.held, cid)
  {
    var p := cid.block.parent.value;
    HydrationReplays(cfg, store.held, cid, keys);
    var mutation := DeriveMutation(cid, store);
    if mutation.Err? {
      return Err(mutation.error);
    }
    RewrittenIsRead(store.held, cid);
    var hydrated := ApplyMutation(cfg, p, mutation.value, store, RevisionMaps(cfg, p));
    if hydrated.Err? {
      return Err(hydrated.error);
    }
    WellFormedIff(cfg, cid, hydrated.value.body);
    StepReadMonotone(old(store.held), store.held, cid);
    r := if hydrated.value.body != cid.block.body then Err(HydrationMismatch) else Ok(());
  }

  lemma HydrationReplays(cfg: Config, held: set<Cid>, cid: Cid, keys: Four<set<Key>>)
    requires Grounded(cfg, cid) && cid.block.parent.Some?
    ensures CanHydrate(cfg, held, cid, keys) ==> CanReplay(cfg, held, cid)
  {
    if CanHydrate(cfg, held, cid, keys) {
      RevisionMonotone(held, held, cid.block.parent.value);
      SparseIsRead(held, cid);
      ReadyToApply(cfg, held, cid.block.parent.value, Derived(cid), keys);
    }
  }

  lemma ReadyToApply(cfg: Config, held: set<Cid>, base: Cid, changes: Four<Changes>, keys: Four<set<Key>>)
    requires SafeKeys(cfg, keys) && ParentComplete(cfg, held, base, keys) && ChangesWithin(changes, keys)
    ensures base in held && CanApply(cfg, held, base.block.body, RevisionMaps(cfg, base), changes)
  {
    var b, maps := base.block.body, RevisionMaps(cfg, base);
    forall s
      ensures CanChange(cfg, held, MapCids(b).At(s), maps.At(s), changes.At(s))
    {
      assert MapPresent(held, MapCids(b).At(s));
      SafeToApply(cfg, maps, changes, keys, s);
    }
  }

  // ----- What hydration does not read -----

  /** A revision that changes nothing hydrates in a store that holds only the two memos and
      the body, and none of its maps. */
  lemma UnchangedHydrates(cfg: Config, cid: Cid)
    requires WellFormed(cfg, cid) && cid.block.parent.Some? && cid.block.body == cid.block.parent.value.block.body
    ensures var held := {cid, cid.block.parent.value, cid.block.body};
      CanReplay(cfg, held, cid) && !KeptSparse(held, cid)
  {
    var p, b := cid.block.parent.value, cid.block.body;
    var held, pm := {cid, p, b}, RevisionMaps(cfg, p);
    forall s
      ensures CanChange(cfg, held, MapCids(b).At(s), pm.At(s), Derived(cid).At(s))
      ensures Derived(cid).At(s) == []
    {
      assert Derived(cid).At(s) == DerivedOps(MapCids(b).At(s), MapCids(b).At(s));
    }
    assert Derived(cid).At(Identities) == [] && Derived(cid).At(Delegations) == [];
    assert Derived(cid).At(Revocations) == [];
    assert b.block.addressBook !in held;
  }

  lemma UnchangedIsWellFormed(cfg: Config, p: Cid, cid: Cid, did: string)
    requires WellFormed(cfg, p) && cid.block.MemoBlock? && cid.block.parent == Some(p)
    requires cid.block.body == p.block.body && AuthorOf(cid) == Some(did)
    ensures WellFormed(cfg, cid)
  {
    UnchangedIsApplied(cfg, p.block.body, RevisionMaps(cfg, p), did);
    AppliedIsWellFormed(cfg, p, did, NO_CHANGES, cid);
  }

  lemma UnchangedIsApplied(cfg: Config, b: Cid, maps: Four<Entries>, did: string)
    requires Skeleton(b)
    ensures AppliedBody(cfg, b, maps, did, NO_CHANGES, b)
  {
    forall s
      ensures AppliedSection(cfg, MapCids(b).At(s), maps.At(s), did, NO_CHANGES.At(s), MapCids(b).At(s))
    {
      assert NO_CHANGES.At(s) == [];
    }
  }

  /** Success does not mean that the revision's own maps are at hand: the smallest case. */
  method HydratesUnread(cfg: Config, identity: string, did: string, ghost keys: Four<set<Key>>)
    returns (cid: Cid, store: BlockStore, r: Result<()>)
    ensures WellFormed(cfg, cid) && cid.block.parent.Some?
    ensures r.Ok? && !RevisionSparse(store.held, cid)
  {
    var full := new BlockStore();
    var b := NewBody(cfg, identity, full);
    EmptyBodyDenotes(cfg, b);
    var headers := [(Author, did)];
    var first := Cid(MemoBlock(None, headers, b));
    RevisionHasShape(cfg, first);
    cid := Cid(MemoBlock(Some(first), headers, b));
    UnchangedIsWellFormed(cfg, first, cid, did);
    UnchangedHydrates(cfg, cid);
    store := new BlockStore();
    var _ := store.Save(first.block);
    var _ := store.Save(cid.block);
    var _ := store.Save(b.block);
    assert store.held == {cid, first, b};
    r := Hydrate(cfg, cid, store, keys);
  }

  // ----- Ranges of revisions -----

  /** The revisions are held sparsely and the range starts on a complete revision (or at
      genesis). */
  ghost predicate RangeReady(cfg: Config, held: set<Cid>, items: seq<Cid>, keys: Four<set<Key>>)
  {
    && SafeKeys(cfg, keys)
    && (forall c | c in items :: RevisionWithin(cfg, c, keys) && RevisionSparse(held, c))
    && (items != [] && items[0].block.MemoBlock? && items[0].block.parent.Some? ==>
          ParentComplete(cfg, held, items[0].block.parent.value, keys))
  }

  ghost predicate AllPresent(held: set<Cid>, items: seq<Cid>)
  {
    forall c | c in items :: RevisionShape(c) && RevisionPresent(held, c)
  }

  ghost predicate AllReplayHeld(held: set<Cid>, items: seq<Cid>)
  {
    forall c | c in items :: StepShape(c) && ReplayHeld(held, c)
  }

  ghost predicate AllRead(held: set<Cid>, items: seq<Cid>)
  {
    forall c | c in items :: StepShape(c) && StepRead(held, c)
  }

  /** None of the revisions is a first one. */
  ghost predicate NoGenesis(items: seq<Cid>)
  {
    forall c | c in items :: c.block.MemoBlock? && c.block.parent.Some?
  }

  lemma ReplayHeldMore(held: set<Cid>, more: set<Cid>, items: seq<Cid>, i: nat)
    requires held <= more && i < |items| && AllReplayHeld(held, items[..i])
    requires StepShape(items[i]) && ReplayHeld(more, items[i])
    ensures AllReplayHeld(more, items[..i + 1])
  {
    forall c | c in items[..i + 1]
      ensures StepShape(c) && ReplayHeld(more, c)
    {
      if c in items[..i] {
        ReplayHeldMonotone(held, more, c);
      }
    }
  }

  /** More HAMT nodes do not make a revision readable that was not. */
  lemma NodesAreNotRead(held: set<Cid>, more: set<Cid>, cid: Cid)
    requires StepShape(cid) && OnlyNodesBut(held, more, {}) && StepRead(more, cid)
    ensures StepRead(held, cid)
  {
    if cid.block.parent.Some? {
      var pb, b := cid.block.parent.value.block.body, cid.block.body;
      ReadSections(held, pb, b);
      ReadSections(more, pb, b);
    }
  }

  lemma AllReadBefore(held: set<Cid>, more: set<Cid>, items: seq<Cid>)
    requires OnlyNodesBut(held, more, {}) && AllReplayHeld(more, items)
    ensures AllRead(held, items)
  {
    forall c | c in items
      ensures StepShape(c) && StepRead(held, c)
    {
      NodesAreNotRead(held, more, c);
    }
  }

  lemma RangeStep(cfg: Config, before: set<Cid>, held: set<Cid>, items: seq<Cid>, i: nat, keys: Four<set<Key>>)
    requires before <= held && i < |items| && Chain(items)
    requires RangeReady(cfg, before, items, keys) && AllPresent(held, items[..i])
    ensures CanHydrate(cfg, held, items[i], keys)
  {
    var cid := items[i];
    assert cid in items && RevisionWithin(cfg, cid, keys);
    RevisionMonotone(before, held, cid);
    if cid.block.parent.Some? {
      var p := cid.block.parent.value;
      if i == 0 {
        RevisionMonotone(before, held, p);
      } else {
        assert ChildOf(items, i);
        assert p == items[i - 1] && p in items && items[..i][i - 1] == p && p in items[..i];
        assert RevisionWithin(cfg, p, keys);
      }
    }
  }

  lemma PresentMore(held: set<Cid>, more: set<Cid>, items: seq<Cid>, i: nat)
    requires held <= more && i < |items| && AllPresent(held, items[..i])
    requires RevisionShape(items[i]) && RevisionPresent(more, items[i])
    ensures AllPresent(more, items[..i + 1])
  {
    forall c | c in items[..i + 1]
      ensures RevisionShape(c) && RevisionPresent(more, c)
    {
      if c in items[..i] {
        RevisionMonotone(held, more, c);
      }
    }
  }

  ghost predicate AllSound(cfg: Config, items: seq<Cid>)
  {
    forall c | c in items :: WellFormed(cfg, c)
  }

  /** Blocks of the right kinds, the first of which claims to continue a well-formed history. */
  ghost predicate RangeGrounded(cfg: Config, items: seq<Cid>)
  {
    (forall c | c in items :: StepShape(c)) && (items != [] ==> Grounded(cfg, items[0]))
  }

  lemma SoundIsGrounded(cfg: Config, items: seq<Cid>)
    requires AllSound(cfg, items)
    ensures RangeGrounded(cfg, items)
  {
    assert items != [] ==> items[0] in items;
  }

  lemma NextIsGrounded(cfg: Config, items: seq<Cid>, i: nat)
    requires i < |items| && Chain(items) && RangeGrounded(cfg, items) && AllSound(cfg, items[..i])
    ensures Grounded(cfg, items[i])
  {
    assert items[i] in items;
    if i > 0 {
      assert ChildOf(items, i) && items[..i][i - 1] in items[..i];
    }
  }

  lemma SoundMore(cfg: Config, items: seq<Cid>, i: nat)
    requires i < |items| && AllSound(cfg, items[..i]) && WellFormed(cfg, items[i])
    ensures AllSound(cfg, items[..i + 1])
  {
    assert items[..i + 1] == items[..i] + [items[i]];
  }

  /** Hydrates a range of revisions, oldest first. */
  method HydrateAll(cfg: Config, items: seq<Cid>, store: BlockStore, ghost keys: Four<set<Key>>) returns (r: Result<()>)
    requires Chain(items) && RangeGrounded(cfg, items)
    modifies store
    ensures old(store.held) <= store.held
    ensures r.Err? ==> DeriveError(r.error) || StorageError(r.error) || r.error == HydrationMismatch
    ensures r.Ok? ==> AllSound(cfg, items)
    ensures AllSound(cfg, items) && r.Err? ==> StorageError(r.error)
    ensures r.Ok? ==> AllReplayHeld(store.held, items)
    ensures r.Ok? && NoGenesis(items) ==> OnlyNodesBut(old(store.held), store.held, {})
    ensures RangeReady(cfg, old(store.held), items, keys) ==> (r.Ok? <==> AllSound(cfg, items))
    ensures RangeReady(cfg, old(store.held), items, keys) && r.Ok? ==> AllPresent(store.held, items)
  {
    ghost var ready := RangeReady(cfg, store.held, items, keys);
    for i := 0 to |items|
      invariant old(store.held) <= store.held
      invariant AllSound(cfg, items[..i])
      invariant AllReplayHeld(store.held, items[..i])
      invariant NoGenesis(items) ==> OnlyNodesBut(old(store.held), store.held, {})
      invariant ready ==> AllPresent(store.held, items[..i])
    {
      ghost var held := store.held;
      if ready {
        RangeStep(cfg, old(store.held), held, items, i, keys);
      }
      NextIsGrounded(cfg, items, i);
      assert items[i] in items;
      var hydrated := Hydrate(cfg, items[i], store, keys);
      if hydrated.Err? {
        return hydrated;
      }
      SoundMore(cfg, items, i);
      ReplayHeldMore(held, store.held, items, i);
      if ready {
        PresentMore(held, store.held, items, i);
      }
    }
    assert items[..|items|] == items;
    return Ok(());
  }

  /** `Sphere::hydrate_timeslice`: success proves every revision of the range well-formed, read
      and replayed, and a range that starts on a complete revision becomes complete. */
  method HydrateTimeslice(cfg: Config, future: Cid, past: Option<Cid>, excludePast: bool, store: BlockStore,
                          ghost keys: Four<set<Key>>)
    returns (r: Result<()>)
    requires IsLineage(future) && RangeGrounded(cfg, Slice(future, past, excludePast))
    modifies store
    ensures old(store.held) <= store.held
    ensures r.Err? ==> DeriveError(r.error) || StorageError(r.error) || r.error == HydrationMismatch
    ensures r.Ok? ==> AllSound(cfg, Slice(future, past, excludePast))
    ensures AllSound(cfg, Slice(future, past, excludePast)) && r.Err? ==> StorageError(r.error)
    ensures r.Ok? ==> forall c | c in Slice(future, past, excludePast) :: c in old(store.held)
    ensures r.Ok? ==> AllReplayHeld(store.held, Slice(future, past, excludePast))
    ensures r.Ok? && NoGenesis(Slice(future, past, excludePast)) ==>
              && OnlyNodesBut(old(store.held), store.held, {})
              && AllRead(old(store.held), Slice(future, past, excludePast))
    ensures RangeReady(cfg, old(store.held), Slice(future, past, excludePast), keys) ==>
              (r.Ok? <==> AllSound(cfg, Slice(future, past, excludePast)))
    ensures RangeReady(cfg, old(store.held), Slice(future, past, excludePast), keys) && r.Ok? ==>
              AllPresent(store.held, Slice(future, past, excludePast))
  {
    SliceIsChain(future, past, excludePast);
    var items := ToChronological(future, past, excludePast, store);
    if items.Err? {
      return Err(items.error);
    }
    r := HydrateAll(cfg, items.value, store, keys);
    if r.Ok? && NoGenesis(items.value) {
      AllReadBefore(old(store.held), store.held, items.value);
    }
  }
}
