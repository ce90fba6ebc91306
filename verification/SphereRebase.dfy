/** Rebasing local history onto a parallel lineage. */
module SphereRebase {
  import opened Wrappers
  import opened Pairs
  import opened Blocks
  import opened Trie
  import opened Mutations
  import opened Memos
  import opened Timelines
  import opened LamportOrders
  import opened Histories
  import opened SphereApply
  import opened SphereDerive
  import opened SphereHydrate
  import opened SphereCompact
  import opened Rebases

  /** What one step of a rebase needs of the store. */
  ghost predicate CanRebase(cfg: Config, held: set<Cid>, cid: Cid, onto: Cid, keys: Four<set<Key>>)
    requires StepShape(cid)
  {
    && SafeKeys(cfg, keys) && ParentComplete(cfg, held, onto, keys)
    && StepSparse(held, cid) && Derivable(cid) && ChangesWithin(Derived(cid), keys)
  }

  /** What rebasing `item` to `out` has read and written is held. */
  ghost predicate OutHeld(held: set<Cid>, item: Cid, out: Cid)
  {
    && out in held && out.block.MemoBlock? && out.block.parent.Some? && Skeleton(out.block.body)
    && StepShape(item) && StepRead(held, item)
    && var base := out.block.parent.value;
       && base in held && RevisionShape(base)
       && AppliedHeld(held, base.block.body, Derived(item), out.block.body)
  }

  ghost predicate OutHeldAt(held: set<Cid>, items: seq<Cid>, outs: seq<Cid>, i: nat)
    requires i < |items| == |outs|
  {
    OutHeld(held, items[i], outs[i])
  }

  ghost predicate RebasedHeld(held: set<Cid>, items: seq<Cid>, outs: seq<Cid>)
  {
    |outs| == |items| && forall i | 0 <= i < |items| :: OutHeldAt(held, items, outs, i)
  }

  lemma OutHeldMonotone(held: set<Cid>, more: set<Cid>, item: Cid, out: Cid)
    requires held <= more && OutHeld(held, item, out)
    ensures OutHeld(more, item, out)
  {
    StepReadMonotone(held, more, item);
    AppliedHeldMonotone(held, more, out.block.parent.value.block.body, Derived(item), out.block.body);
  }

  lemma RebasedHeldExtends(held: set<Cid>, more: set<Cid>, items: seq<Cid>, outs: seq<Cid>, i: nat, out: Cid)
    requires held <= more && i < |items| && RebasedHeld(held, items[..i], outs) && OutHeld(more, items[i], out)
    ensures RebasedHeld(more, items[..i + 1], outs + [out])
  {
    var items', outs' := items[..i + 1], outs + [out];
    forall j | 0 <= j < i + 1
      ensures OutHeldAt(more, items', outs', j)
    {
      if j < i {
        assert OutHeldAt(held, items[..i], outs, j);
        OutHeldMonotone(held, more, items'[j], outs'[j]);
      }
    }
  }

  /** `Sphere::rebase_version`, then signing. */
  method RebaseVersion(cfg: Config, cid: Cid, onto: Cid, credential: Credential, store: BlockStore,
                       ghost keys: Four<set<Key>>)
    returns (r: Result<Cid>)
    requires StepShape(cid) && IsRevision(cfg, onto) && RevisionShape(onto)
    modifies store
    ensures old(store.held) <= store.held
    ensures r.Err? ==> DeriveError(r.error) || StorageError(r.error)
    ensures Derivable(cid) && r.Err? ==> StorageError(r.error)
    ensures r.Ok? ==> RebaseStep(cfg, onto, cid, credential.did, r.value)
    ensures r.Ok? ==> SignedOn(onto, credential, r.value)
    ensures r.Ok? ==> StepRead(old(store.held), cid) && OutHeld(store.held, cid, r.value)
    ensures CanRebase(cfg, old(store.held), cid, onto, keys) ==> r.Ok? && ParentComplete(cfg, store.held, r.value, keys)
  {
    var mutation := DeriveMutation(cid, store);
    if mutation.Err? {
      return Err(mutation.error);
    }
    ghost var ready := CanRebase(cfg, store.held, cid, onto, keys);
    if ready {
      ReadyToApply(cfg, store.held, onto, mutation.value.changes, keys);
    }
    var revision := ApplyMutation(cfg, onto, mutation.value, store, RevisionMaps(cfg, onto));
    if revision.Err? {
      return Err(revision.error);
    }
    ghost var held := store.held;
    ghost var body := revision.value.body;
    var next := SignRevision(revision.value, credential, store);
    StepMaps(cfg, onto, cid, credential.did, next);
    BodyMonotone(held, store.held, body);
    StepReadMonotone(old(store.held), store.held, cid);
    AppliedHeldMonotone(held, store.held, onto.block.body, Derived(cid), body);
    if ready {
      AppliedWithin(RevisionMaps(cfg, onto), Derived(cid), keys);
    }
    return Ok(next);
  }

  /** A map that another author's revision changed names that author and says what changed. */
  lemma ForeignSection(cfg: Config, base: Cid, item: Cid, did: string, out: Cid, s: Section)
    requires RebaseStep(cfg, base, item, did, out) && StepShape(out) && AuthorOf(item).value != did
    ensures var c := MapCids(out.block.body).At(s);
      !ExplainedBy(MapCids(base.block.body).At(s), c, did) ==> Unexplained(c) == UnexpectedAuthor
  {
    assert AppliedSection(cfg, MapCids(base.block.body).At(s), RevisionMaps(cfg, base).At(s), AuthorOf(item).value,
                          Derived(item).At(s), MapCids(out.block.body).At(s));
  }

  /** What another author's revision leaves behind is refused for its author, not for a
      missing or empty changelog. */
  lemma ForeignFault(cfg: Config, base: Cid, item: Cid, did: string, out: Cid)
    requires RebaseStep(cfg, base, item, did, out) && AuthorOf(item).value != did
    ensures StepShape(out)
    ensures var fault := DeriveFault(base.block.body, out.block.body, did);
      && (fault.None? <==> Derivable(out)) && (fault.Some? ==> fault.value == UnexpectedAuthor)
  {
    StepDerivableIff(cfg, base, item, did, out);
    ExplainedSections(base.block.body, out.block.body, did);
    ForeignSection(cfg, base, item, did, out, Content);
    ForeignSection(cfg, base, item, did, out, Identities);
    ForeignSection(cfg, base, item, did, out, Delegations);
    ForeignSection(cfg, base, item, did, out, Revocations);
  }

  lemma RebasedExtends(cfg: Config, newBase: Cid, items: seq<Cid>, did: string, outs: seq<Cid>, i: nat, out: Cid)
    requires i < |items| && Rebased(cfg, newBase, items[..i], did, outs)
    requires RebaseStep(cfg, Newest(newBase, outs), items[i], did, out)
    ensures Rebased(cfg, newBase, items[..i + 1], did, outs + [out]) && Newest(newBase, outs + [out]) == out
  {
    var items', outs' := items[..i + 1], outs + [out];
    forall j | 0 <= j < i + 1
      ensures StepAt(cfg, newBase, items', did, outs', j)
    {
      assert j < i ==> StepAt(cfg, newBase, items[..i], did, outs, j);
    }
  }

  lemma RangeStaysDerivable(cfg: Config, before: set<Cid>, held: set<Cid>, items: seq<Cid>, i: nat,
                            keys: Four<set<Key>>)
    requires before <= held && i < |items| && Chain(items) && RangeReady(cfg, before, items, keys)
    requires WellFormed(cfg, items[i])
    ensures StepShape(items[i]) && StepSparse(held, items[i]) && Derivable(items[i])
    ensures ChangesWithin(Derived(items[i]), keys)
  {
    RangeDerivable(cfg, before, items, i, keys);
    RevisionMonotone(before, held, items[i]);
  }

  /** Rebases a range of revisions, oldest first. */
  method RebaseAll(cfg: Config, items: seq<Cid>, newBase: Cid, credential: Credential, store: BlockStore,
                   ghost keys: Four<set<Key>>)
    returns (r: Result<Cid>, ghost outs: seq<Cid>)
    requires Chain(items) && IsRevision(cfg, newBase) && RevisionShape(newBase)
    requires forall c | c in items :: WellFormed(cfg, c)
    modifies store
    ensures old(store.held) <= store.held
    ensures r.Err? ==> StorageError(r.error)
    ensures r.Ok? ==> Rebased(cfg, newBase, items, credential.did, outs) && r.value == Newest(newBase, outs)
    ensures r.Ok? ==> RebasedHeld(store.held, items, outs)
    ensures r.Ok? && Numbered(newBase) ==> Numbered(r.value)
    ensures RangeReady(cfg, old(store.held), items, keys) && ParentComplete(cfg, old(store.held), newBase, keys) ==>
              r.Ok? && ParentComplete(cfg, store.held, r.value, keys)
  {
    outs := [];
    var nextBase := newBase;
    ghost var ready := RangeReady(cfg, store.held, items, keys) && ParentComplete(cfg, store.held, newBase, keys);
    for i := 0 to |items|
      invariant old(store.held) <= store.held
      invariant Rebased(cfg, newBase, items[..i], credential.did, outs) && nextBase == Newest(newBase, outs)
      invariant IsRevision(cfg, nextBase) && RevisionShape(nextBase)
      invariant RebasedHeld(store.held, items[..i], outs)
      invariant ready ==> ParentComplete(cfg, store.held, nextBase, keys)
      invariant Numbered(newBase) ==> Numbered(nextBase)
    {
      assert items[i] in items && WellFormed(cfg, items[i]) && Derivable(items[i]);
      if ready {
        RangeStaysDerivable(cfg, old(store.held), store.held, items, i, keys);
      }
      ghost var held := store.held;
      var revision := RebaseVersion(cfg, items[i], nextBase, credential, store, keys);
      if revision.Err? {
        return Err(revision.error), outs;
      }
      RebasedExtends(cfg, newBase, items, credential.did, outs, i, revision.value);
      RebasedHeldExtends(held, store.held, items, outs, i, revision.value);
      StepMaps(cfg, nextBase, items[i], credential.did, revision.value);
      SignedOnNumbered(nextBase, credential, revision.value);
      nextBase := revision.value;
      outs := outs + [nextBase];
    }
    assert items[..|items|] == items;
    return Ok(nextBase), outs;
  }

  /** `Sphere::rebase`. Hydrating the lineage rebased onto proves it well-formed. The rebased
      revisions are returned beside the new tip; what they mean follows from `Rebased`. */
  method Rebase(cfg: Config, tip: Cid, oldBase: Cid, newBase: Cid, credential: Credential, store: BlockStore,
                ghost keys: Four<set<Key>>)
    returns (r: Result<Cid>, ghost outs: seq<Cid>)
    requires WellFormed(cfg, tip) && IsLineage(tip)
    requires IsLineage(newBase) && RangeGrounded(cfg, Slice(newBase, Some(oldBase), true))
    modifies store
    ensures old(store.held) <= store.held
    ensures r.Err? ==> DeriveError(r.error) || StorageError(r.error) || r.error == HydrationMismatch
    ensures r.Ok? ==> WellFormed(cfg, newBase)
    ensures WellFormed(cfg, newBase) && r.Err? ==> StorageError(r.error)
    ensures r.Ok? ==> Rebased(cfg, newBase, Slice(tip, Some(oldBase), true), credential.did, outs)
    ensures r.Ok? ==> r.value == Newest(newBase, outs)
    ensures r.Ok? ==> IsLineage(r.value) && Ancestry(r.value) == Ancestry(newBase) + outs
    ensures r.Ok? && AllBy(Slice(tip, Some(oldBase), true), credential.did) ==> WellFormed(cfg, r.value)
    ensures r.Ok? ==> AllReplayHeld(store.held, Slice(newBase, Some(oldBase), true))
    ensures r.Ok? ==> RebasedHeld(store.held, Slice(tip, Some(oldBase), true), outs)
    ensures r.Ok? && Numbered(newBase) ==> Numbered(r.value)
    ensures RangeReady(cfg, old(store.held), Slice(newBase, Some(oldBase), true), keys)
            && RangeReady(cfg, old(store.held), Slice(tip, Some(oldBase), true), keys) ==>
              (r.Ok? <==> WellFormed(cfg, newBase)) && (r.Ok? ==> ParentComplete(cfg, store.held, r.value, keys))
  {
    outs := [];
    ghost var ready := RangeReady(cfg, store.held, Slice(newBase, Some(oldBase), true), keys)
                       && RangeReady(cfg, store.held, Slice(tip, Some(oldBase), true), keys);
    SoundRange(cfg, newBase, oldBase);
    var hydrated := HydrateTimeslice(cfg, newBase, Some(oldBase), true, store, keys);
    if hydrated.Err? {
      return Err(hydrated.error), outs;
    }
    ghost var held := store.held;
    LocalRange(cfg, tip, oldBase);
    if ready {
      StillReady(cfg, old(store.held), store.held, Slice(tip, Some(oldBase), true), keys);
      HydratedBase(cfg, old(store.held), store.held, newBase, oldBase, keys);
    }
    var revisions := ToChronological(tip, Some(oldBase), true, store);
    if revisions.Err? {
      return Err(revisions.error), outs;
    }
    r, outs := RebaseAll(cfg, revisions.value, newBase, credential, store, keys);
    if r.Ok? {
      AllReplayHeldMonotone(held, store.held, Slice(newBase, Some(oldBase), true));
      RebaseResult(cfg, newBase, revisions.value, credential.did, outs);
    }
  }

  ghost predicate AllBy(items: seq<Cid>, did: string)
  {
    forall c | c in items :: c.block.MemoBlock? && AuthorOf(c) == Some(did)
  }

  lemma RebaseResult(cfg: Config, newBase: Cid, items: seq<Cid>, did: string, outs: seq<Cid>)
    requires Rebased(cfg, newBase, items, did, outs) && WellFormed(cfg, newBase) && IsLineage(newBase)
    ensures IsLineage(Newest(newBase, outs)) && Ancestry(Newest(newBase, outs)) == Ancestry(newBase) + outs
    ensures AllBy(items, did) ==> WellFormed(cfg, Newest(newBase, outs))
  {
    RebasedLineage(cfg, newBase, items, did, outs);
    RebasedWellFormedIff(cfg, newBase, items, did, outs);
    if AllBy(items, did) {
      forall i | 0 <= i < |items|
        ensures SafelySignedAt(cfg, newBase, items, did, outs, i)
      {
        assert items[i] in items;
      }
    }
  }

  lemma AllReplayHeldMonotone(held: set<Cid>, more: set<Cid>, items: seq<Cid>)
    requires held <= more && AllReplayHeld(held, items)
    ensures AllReplayHeld(more, items)
  {
    forall c | c in items
      ensures StepShape(c) && ReplayHeld(more, c)
    {
      ReplayHeldMonotone(held, more, c);
    }
  }

  lemma LocalRange(cfg: Config, tip: Cid, oldBase: Cid)
    requires WellFormed(cfg, tip) && IsLineage(tip)
    ensures Chain(Slice(tip, Some(oldBase), true))
    ensures AllSound(cfg, Slice(tip, Some(oldBase), true))
  {
    WellFormedLineage(cfg, tip);
    SliceIsChain(tip, Some(oldBase), true);
  }

  /** A range up to a revision is sound exactly when the revision is. */
  lemma SoundRange(cfg: Config, newBase: Cid, oldBase: Cid)
    requires IsLineage(newBase)
    ensures AllSound(cfg, Slice(newBase, Some(oldBase), true)) <==> WellFormed(cfg, newBase)
  {
    SliceIsChain(newBase, Some(oldBase), true);
    assert newBase in Slice(newBase, Some(oldBase), true);
    if WellFormed(cfg, newBase) {
      LocalRange(cfg, newBase, oldBase);
    }
  }

  lemma StillReady(cfg: Config, held: set<Cid>, more: set<Cid>, items: seq<Cid>, keys: Four<set<Key>>)
    requires held <= more && RangeReady(cfg, held, items, keys)
    ensures RangeReady(cfg, more, items, keys)
  {
    forall c | c in items
      ensures RevisionWithin(cfg, c, keys) && RevisionSparse(more, c)
    {
      RevisionMonotone(held, more, c);
    }
    if items != [] && items[0].block.MemoBlock? && items[0].block.parent.Some? {
      RevisionMonotone(held, more, items[0].block.parent.value);
    }
  }

  lemma HydratedBase(cfg: Config, held: set<Cid>, more: set<Cid>, newBase: Cid, oldBase: Cid, keys: Four<set<Key>>)
    requires IsLineage(newBase) && held <= more
    requires RangeReady(cfg, held, Slice(newBase, Some(oldBase), true), keys)
    requires AllPresent(more, Slice(newBase, Some(oldBase), true))
    ensures ParentComplete(cfg, more, newBase, keys)
  {
    SliceIsChain(newBase, Some(oldBase), true);
    assert newBase in Slice(newBase, Some(oldBase), true);
  }
}
