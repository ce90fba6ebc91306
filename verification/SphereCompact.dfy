/** Compaction: one revision in place of a range of revisions. */
module SphereCompact {
  import opened Wrappers
  import opened Pairs
  import opened Blocks
  import opened Trie
  import opened Mutations
  import opened Memos
  import opened Timelines
  import opened LamportOrders
  import opened VersionedMaps
  import opened Histories
  import opened SphereApply
  import opened SphereDerive
  import opened SphereHydrate
  import opened Rebases
  import opened SphereStreams

  /** The changes of the first `n` revisions of a range to the four maps. */
  ghost function AllChanges(items: seq<Cid>, n: nat): (r: Four<Changes>)
    requires n <= |items|
    ensures forall s :: r.At(s) == ChangesUpTo(items, s, n)
  {
    Four(ChangesUpTo(items, Content, n), ChangesUpTo(items, Identities, n),
         ChangesUpTo(items, Delegations, n), ChangesUpTo(items, Revocations, n))
  }

  /** A mutation with the effect of the first `n` revisions, on whatever maps. */
  ghost predicate Gathers(items: seq<Cid>, n: nat, changes: Four<Changes>)
    requires n <= |items|
  {
    forall maps :: ApplyAll(maps, changes) == ApplyAll(maps, AllChanges(items, n))
  }

  lemma GathersNothing(items: seq<Cid>)
    ensures Gathers(items, 0, NO_CHANGES)
  {}

  lemma OneMoreRevision(maps: Four<Entries>, items: seq<Cid>, n: nat)
    requires n < |items| && StepShape(items[n])
    ensures ApplyAll(maps, AllChanges(items, n + 1)) ==
              ApplyAll(ApplyAll(maps, AllChanges(items, n)), Derived(items[n]))
  {
    var before := ApplyAll(maps, AllChanges(items, n));
    forall s
      ensures ApplyAll(maps, AllChanges(items, n + 1)).At(s) == ApplyAll(before, Derived(items[n])).At(s)
    {
      ApplyAllAt(maps, AllChanges(items, n + 1), s);
      ApplyAllAt(maps, AllChanges(items, n), s);
      ApplyAllAt(before, Derived(items[n]), s);
      ApplyOpsAppend(maps.At(s), ChangesUpTo(items, s, n), OwnChanges(items[n], s));
    }
    ApplyAll(maps, AllChanges(items, n + 1)).Extensional(ApplyAll(before, Derived(items[n])));
  }

  lemma GathersMore(items: seq<Cid>, n: nat, changes: Four<Changes>, changes': Four<Changes>)
    requires n < |items| && StepShape(items[n]) && Gathers(items, n, changes)
    requires forall maps :: ApplyAll(maps, changes') == ApplyAll(ApplyAll(maps, changes), Derived(items[n]))
    ensures Gathers(items, n + 1, changes')
  {
    forall maps
      ensures ApplyAll(maps, changes') == ApplyAll(maps, AllChanges(items, n + 1))
    {
      assert ApplyAll(maps, changes) == ApplyAll(maps, AllChanges(items, n));
      OneMoreRevision(maps, items, n);
    }
  }

  lemma WithinAppended(a: Four<Changes>, b: Four<Changes>, c: Four<Changes>, keys: Four<set<Key>>)
    requires ChangesWithin(a, keys) && ChangesWithin(b, keys)
    requires forall s, op :: op in c.At(s) ==> op in a.At(s) || op in b.At(s)
    ensures ChangesWithin(c, keys)
  {
    forall s
      ensures AddedKeys(c.At(s)) <= keys.At(s)
    {
      forall k | k in AddedKeys(c.At(s))
        ensures k in keys.At(s)
      {
        var i :| 0 <= i < |c.At(s)| && c.At(s)[i].Add? && c.At(s)[i].key == k;
        var op := c.At(s)[i];
        assert op in c.At(s);
        if op in a.At(s) {
          var j :| 0 <= j < |a.At(s)| && a.At(s)[j] == op;
          assert k in AddedKeys(a.At(s));
        } else {
          var j :| 0 <= j < |b.At(s)| && b.At(s)[j] == op;
          assert k in AddedKeys(b.At(s));
        }
      }
    }
  }

  /** Collects the changes of a range into one mutation. */
  method Collect(cfg: Config, items: seq<Cid>, did: string, store: BlockStore, ghost keys: Four<set<Key>>)
    returns (r: Result<SphereMutation>)
    requires Chain(items) && AllWellFormed(cfg, items)
    ensures r.Ok? ==> fresh(r.value) && r.value.did == did
    ensures r.Ok? ==> Gathers(items, |items|, r.value.changes)
    ensures r.Err? ==> r.error == BlockNotFound
    ensures r.Ok? <==> AllRead(store.held, items)
    ensures RangeReady(cfg, store.held, items, keys) ==> r.Ok? && ChangesWithin(r.value.changes, keys)
  {
    var mutation := new SphereMutation(did);
    ghost var ready := RangeReady(cfg, store.held, items, keys);
    GathersNothing(items);
    NothingWithin(keys);
    for i := 0 to |items|
      invariant fresh(mutation)
      invariant Gathers(items, i, mutation.changes)
      invariant AllRead(store.held, items[..i])
      invariant ready ==> ChangesWithin(mutation.changes, keys)
    {
      assert Sound(cfg, items[i]);
      var derived := DeriveMutation(items[i], store);
      if ready {
        RangeDerivable(cfg, store.held, items, i, keys);
      }
      if derived.Err? {
        return Err(derived.error);
      }
      ghost var before := mutation.changes;
      mutation.Append(derived.value);
      GathersMore(items, i, before, mutation.changes);
      if ready {
        WithinAppended(before, Derived(items[i]), mutation.changes, keys);
      }
    }
    return Ok(mutation);
  }

  lemma NothingWithin(keys: Four<set<Key>>)
    ensures ChangesWithin(NO_CHANGES, keys)
  {
    forall s
      ensures AddedKeys(NO_CHANGES.At(s)) <= keys.At(s)
    {
      assert NO_CHANGES.At(s) == [];
    }
  }

  lemma RangeDerivable(cfg: Config, held: set<Cid>, items: seq<Cid>, i: nat, keys: Four<set<Key>>)
    requires i < |items| && Chain(items) && RangeReady(cfg, held, items, keys) && WellFormed(cfg, items[i])
    ensures StepShape(items[i]) && StepSparse(held, items[i]) && Derivable(items[i])
    ensures ChangesWithin(Derived(items[i]), keys)
  {
    var cid := items[i];
    assert cid in items;
    assert RevisionWithin(cfg, cid, keys) && RevisionSparse(held, cid);
    if cid.block.parent.Some? {
      var p := cid.block.parent.value;
      if i > 0 {
        assert ChildOf(items, i) && p == items[i - 1] && p in items;
        assert RevisionSparse(held, p);
      } else {
        RevisionMonotone(held, held, p);
      }
    }
  }

  /** The range from `until` to the tip starts with `until`, and its changes lead from the
      parent of `until` to the tip. */
  lemma CompactedRange(cfg: Config, tip: Cid, until: Cid)
    requires WellFormed(cfg, tip) && IsLineage(tip) && until in Ancestry(tip)
    requires until.block.MemoBlock? && until.block.parent.Some?
    ensures var items, base := Slice(tip, Some(until), false), until.block.parent.value;
      && items != [] && items[0] == until && WellFormed(cfg, until) && WellFormed(cfg, base)
      && RevisionMaps(cfg, tip) == ApplyAll(RevisionMaps(cfg, base), AllChanges(items, |items|))
  {
    var items, base := Slice(tip, Some(until), false), until.block.parent.value;
    WellFormedLineage(cfg, tip);
    SliceIsChain(tip, Some(until), false);
    IncludedPastIsFirst(tip, until);
    SliceWellFormed(cfg, tip, Some(until), false);
    var changes := AllChanges(items, |items|);
    forall s
      ensures RevisionMaps(cfg, tip).At(s) == ApplyAll(RevisionMaps(cfg, base), changes).At(s)
    {
      RangeReplay(cfg, items, s);
      ApplyAllAt(RevisionMaps(cfg, base), changes, s);
    }
    RevisionMaps(cfg, tip).Extensional(ApplyAll(RevisionMaps(cfg, base), changes));
  }

  /** What compaction needs of the store: the range and a complete base, which a range
      that starts at `until` already has. */
  ghost predicate Foundation(cfg: Config, held: set<Cid>, tip: Cid, until: Cid, keys: Four<set<Key>>)
    requires IsLineage(tip) && until.block.MemoBlock? && until.block.parent.Some?
  {
    && RangeReady(cfg, held, Slice(tip, Some(until), false), keys)
    && (until in Ancestry(tip) || (until in held && ParentComplete(cfg, held, until.block.parent.value, keys)))
  }

  lemma FoundationHeld(cfg: Config, held: set<Cid>, tip: Cid, until: Cid, keys: Four<set<Key>>)
    requires WellFormed(cfg, tip) && IsLineage(tip) && until.block.MemoBlock? && until.block.parent.Some?
    requires Foundation(cfg, held, tip, until, keys)
    ensures until in held && ParentComplete(cfg, held, until.block.parent.value, keys)
    ensures forall c | c in Slice(tip, Some(until), false) :: c in held
  {
    if until in Ancestry(tip) {
      IncludedPastIsFirst(tip, until);
      assert until in Slice(tip, Some(until), false);
    }
  }

  /** The changes of a range as one revision on `base`. */
  method CompactOnto(cfg: Config, items: seq<Cid>, base: Cid, credential: Credential, store: BlockStore,
                     ghost keys: Four<set<Key>>)
    returns (r: Result<Cid>)
    requires Chain(items) && AllWellFormed(cfg, items) && WellFormed(cfg, base)
    modifies store
    ensures old(store.held) <= store.held
    ensures r.Err? ==> StorageError(r.error)
    ensures r.Ok? ==> SignedOn(base, credential, r.value) && AuthorOf(r.value) == Some(credential.did)
    ensures r.Ok? ==> WellFormed(cfg, r.value)
    ensures r.Ok? ==> RevisionMaps(cfg, r.value) == ApplyAll(RevisionMaps(cfg, base), AllChanges(items, |items|))
    ensures r.Ok? ==> AllRead(old(store.held), items) && ReplayHeld(store.held, r.value)
    ensures RangeReady(cfg, old(store.held), items, keys) && ParentComplete(cfg, old(store.held), base, keys) ==>
              r.Ok? && RevisionPresent(store.held, r.value) && RevisionWithin(cfg, r.value, keys)
  {
    var mutation := Collect(cfg, items, credential.did, store, keys);
    if mutation.Err? {
      return Err(mutation.error);
    }
    r := ApplyAndSign(cfg, base, mutation.value, credential, store, keys);
  }

  /** `Sphere::compact`: one revision on the parent of `until`, signed by the given author,
      with the changes of the range from `until` to the tip, or of the whole lineage of the
      tip when `until` is not in it. When it is, the entries and the HAMT roots of the four
      maps are the tip's. */
  method Compact(cfg: Config, tip: Cid, until: Cid, credential: Credential, store: BlockStore,
                 ghost keys: Four<set<Key>>)
    returns (r: Result<Cid>)
    requires WellFormed(cfg, tip) && IsLineage(tip) && WellFormed(cfg, until)
    modifies store
    ensures old(store.held) <= store.held
    ensures r.Ok? ==> r.value.block.MemoBlock? && until.block.parent.Some? && r.value.block.parent == until.block.parent
    ensures r.Ok? ==> SignedOn(until.block.parent.value, credential, r.value)
    ensures r.Ok? ==> WellFormed(cfg, r.value) && AuthorOf(r.value) == Some(credential.did)
    ensures r.Ok? ==> var items := Slice(tip, Some(until), false);
      RevisionMaps(cfg, r.value) == ApplyAll(RevisionMaps(cfg, until.block.parent.value), AllChanges(items, |items|))
    ensures r.Ok? && until in Ancestry(tip) ==>
              RevisionMaps(cfg, r.value) == RevisionMaps(cfg, tip) && SameRoots(r.value, tip)
    ensures r.Ok? && until in Ancestry(tip) && Numbered(tip) ==> OrderAt(r.value) == OrderAt(until)
    ensures r.Ok? ==> until in old(store.held) && AllRead(old(store.held), Slice(tip, Some(until), false))
    ensures r.Ok? ==> ReplayHeld(store.held, r.value)
    ensures r.Err? ==> StorageError(r.error) || r.error == NoBase
    ensures r == Err(NoBase) <==> until in old(store.held) && until.block.parent.None?
    ensures until.block.parent.Some? && Foundation(cfg, old(store.held), tip, until, keys) ==>
              r.Ok? && RevisionPresent(store.held, r.value) && RevisionWithin(cfg, r.value, keys)
  {
    ghost var ready := until.block.parent.Some? && Foundation(cfg, store.held, tip, until, keys);
    if ready {
      FoundationHeld(cfg, store.held, tip, until, keys);
    }
    var memo := store.Load(until);
    if memo.Err? {
      return Err(memo.error);
    }
    if memo.value.parent.None? {
      return Err(NoBase);
    }
    var base := memo.value.parent.value;
    SliceWellFormed(cfg, tip, Some(until), false);
    var history := ToChronological(tip, Some(until), false, store);
    if history.Err? {
      return Err(history.error);
    }
    r := CompactOnto(cfg, history.value, base, credential, store, keys);
    if r.Ok? && until in Ancestry(tip) {
      CompactedTip(cfg, tip, until, credential, r.value);
    }
  }

  lemma CompactedTip(cfg: Config, tip: Cid, until: Cid, credential: Credential, out: Cid)
    requires WellFormed(cfg, tip) && IsLineage(tip) && until in Ancestry(tip)
    requires until.block.MemoBlock? && until.block.parent.Some? && WellFormed(cfg, until.block.parent.value)
    requires WellFormed(cfg, out) && SignedOn(until.block.parent.value, credential, out)
    requires var items := Slice(tip, Some(until), false);
      RevisionMaps(cfg, out) == ApplyAll(RevisionMaps(cfg, until.block.parent.value), AllChanges(items, |items|))
    ensures RevisionMaps(cfg, out) == RevisionMaps(cfg, tip) && SameRoots(out, tip)
    ensures Numbered(tip) ==> OrderAt(out) == OrderAt(until)
  {
    CompactedRange(cfg, tip, until);
    RootsOfEqualMaps(cfg, out, tip);
    if Numbered(tip) {
      CompactedOrder(tip, until, credential, out);
    }
  }

  ghost predicate SameRoots(a: Cid, b: Cid)
  {
    && a.block.MemoBlock? && b.block.MemoBlock? && Skeleton(a.block.body) && Skeleton(b.block.body)
    && forall s :: MapCids(a.block.body).At(s).block.MapBlock? && MapCids(b.block.body).At(s).block.MapBlock? &&
                   MapCids(a.block.body).At(s).block.hamt == MapCids(b.block.body).At(s).block.hamt
  }

  lemma RootsOfEqualMaps(cfg: Config, a: Cid, b: Cid)
    requires IsRevision(cfg, a) && IsRevision(cfg, b) && RevisionMaps(cfg, a) == RevisionMaps(cfg, b)
    ensures SameRoots(a, b)
  {
    forall s
      ensures MapCids(a.block.body).At(s).block.MapBlock? && MapCids(b.block.body).At(s).block.MapBlock?
      ensures MapCids(a.block.body).At(s).block.hamt == MapCids(b.block.body).At(s).block.hamt
    {
      RootsCharacterizeEntries(cfg, a, b, s);
    }
  }

  /** What a signed mutation records stays within the keys. */
  lemma AppliedSettles(cfg: Config, base: Cid, changes: Four<Changes>, tip: Cid, keys: Four<set<Key>>)
    requires WellFormed(cfg, base) && WellFormed(cfg, tip) && tip.block.parent == Some(base)
    requires MapsWithin(RevisionMaps(cfg, base), keys) && ChangesWithin(changes, keys)
    requires RevisionMaps(cfg, tip) == ApplyAll(RevisionMaps(cfg, base), changes)
    requires forall s :: Derived(tip).At(s) == [] || Derived(tip).At(s) == changes.At(s)
    ensures RevisionWithin(cfg, tip, keys)
  {
    AppliedWithin(RevisionMaps(cfg, base), changes, keys);
    forall s
      ensures AddedKeys(Derived(tip).At(s)) <= keys.At(s)
    {
      assert AddedKeys(changes.At(s)) <= keys.At(s);
      assert AddedKeys([]) == {};
    }
  }

  lemma SignedResult(cfg: Config, base: Cid, did: string, changes: Four<Changes>, cid: Cid, keys: Four<set<Key>>)
    requires WellFormed(cfg, base) && cid.block.MemoBlock? && cid.block.parent == Some(base)
    requires AuthorOf(cid) == Some(did)
    requires AppliedBody(cfg, base.block.body, RevisionMaps(cfg, base), did, changes, cid.block.body)
    ensures WellFormed(cfg, cid) && RevisionMaps(cfg, cid) == ApplyAll(RevisionMaps(cfg, base), changes)
    ensures MapsWithin(RevisionMaps(cfg, base), keys) && ChangesWithin(changes, keys) ==> RevisionWithin(cfg, cid, keys)
  {
    AppliedIsWellFormed(cfg, base, did, changes, cid);
    if MapsWithin(RevisionMaps(cfg, base), keys) && ChangesWithin(changes, keys) {
      AppliedSettles(cfg, base, changes, cid, keys);
    }
  }

  /** A new revision can be derived again, and what making it has read and written is held. */
  lemma SignedIsReplayHeld(cfg: Config, held: set<Cid>, base: Cid, did: string, changes: Four<Changes>, cid: Cid)
    requires WellFormed(cfg, base) && cid.block.MemoBlock? && cid.block.parent == Some(base)
    requires AuthorOf(cid) == Some(did)
    requires AppliedBody(cfg, base.block.body, RevisionMaps(cfg, base), did, changes, cid.block.body)
    requires base in held && cid in held && AppliedHeld(held, base.block.body, changes, cid.block.body)
    ensures StepShape(cid) && ReplayHeld(held, cid)
  {
    AppliedIsWellFormed(cfg, base, did, changes, cid);
    var pb, b := base.block.body, cid.block.body;
    forall s
      ensures SectionRead(held, MapCids(pb).At(s), MapCids(b).At(s))
      ensures SectionHeld(held, MapCids(pb).At(s), Derived(cid).At(s), MapCids(b).At(s))
    {
      assert AppliedSection(cfg, MapCids(pb).At(s), RevisionMaps(cfg, base).At(s), did, changes.At(s),
                            MapCids(b).At(s));
      assert SectionHeld(held, MapCids(pb).At(s), changes.At(s), MapCids(b).At(s));
    }
    AppliedLeads(cfg, held, base, did, changes, cid);
  }

  lemma AppliedLeads(cfg: Config, held: set<Cid>, base: Cid, did: string, changes: Four<Changes>, cid: Cid)
    requires WellFormed(cfg, base) && WellFormed(cfg, cid) && cid.block.parent == Some(base)
    requires AuthorOf(cid) == Some(did)
    requires AppliedBody(cfg, base.block.body, RevisionMaps(cfg, base), did, changes, cid.block.body)
    requires LeadsHeld(held, base.block.body, changes) && LeadsHeld(held, cid.block.body, changes)
    ensures LeadsHeld(held, base.block.body, Derived(cid)) && LeadsHeld(held, cid.block.body, Derived(cid))
    ensures BothRead(held, base.block.body.block.addressBook, cid.block.body.block.addressBook)
    ensures BothRead(held, base.block.body.block.authority, cid.block.body.block.authority)
  {
    DerivedOrNothing(cfg, base, did, changes, cid, Identities);
    DerivedOrNothing(cfg, base, did, changes, cid, Delegations);
    DerivedOrNothing(cfg, base, did, changes, cid, Revocations);
  }

  lemma DerivedOrNothing(cfg: Config, base: Cid, did: string, changes: Four<Changes>, cid: Cid, s: Section)
    requires WellFormed(cfg, base) && WellFormed(cfg, cid) && cid.block.parent == Some(base)
    requires AuthorOf(cid) == Some(did)
    requires AppliedBody(cfg, base.block.body, RevisionMaps(cfg, base), did, changes, cid.block.body)
    ensures Derived(cid).At(s) == [] || Derived(cid).At(s) == changes.At(s)
    ensures changes.At(s) == [] ==> MapCids(cid.block.body).At(s) == MapCids(base.block.body).At(s)
  {
    AppliedIsWellFormed(cfg, base, did, changes, cid);
    assert AppliedSection(cfg, MapCids(base.block.body).At(s), RevisionMaps(cfg, base).At(s), did, changes.At(s),
                          MapCids(cid.block.body).At(s));
  }

  /** A mutation applied to a well-formed revision and signed by its own author. */
  method ApplyAndSign(cfg: Config, base: Cid, mutation: SphereMutation, credential: Credential, store: BlockStore,
                      ghost keys: Four<set<Key>>)
    returns (r: Result<Cid>)
    requires WellFormed(cfg, base) && mutation.did == credential.did
    modifies store
    ensures old(store.held) <= store.held
    ensures r.Err? ==> StorageError(r.error)
    ensures r.Ok? ==> SignedOn(base, credential, r.value) && AuthorOf(r.value) == Some(credential.did)
    ensures r.Ok? ==> WellFormed(cfg, r.value)
    ensures r.Ok? ==> RevisionMaps(cfg, r.value) == ApplyAll(RevisionMaps(cfg, base), mutation.changes)
    ensures r.Ok? ==> ReplayHeld(store.held, r.value)
    ensures SafeKeys(cfg, keys) && ParentComplete(cfg, old(store.held), base, keys)
            && ChangesWithin(mutation.changes, keys) ==>
              r.Ok? && RevisionPresent(store.held, r.value) && RevisionWithin(cfg, r.value, keys)
  {
    if SafeKeys(cfg, keys) && ParentComplete(cfg, store.held, base, keys) && ChangesWithin(mutation.changes, keys) {
      ReadyToApply(cfg, store.held, base, mutation.changes, keys);
    }
    var memo := ApplyMutation(cfg, base, mutation, store, RevisionMaps(cfg, base));
    if memo.Err? {
      return Err(memo.error);
    }
    ghost var held := store.held;
    ghost var body := memo.value.body;
    var cid := SignRevision(memo.value, credential, store);
    SignedResult(cfg, base, mutation.did, mutation.changes, cid, keys);
    AppliedHeldMonotone(held, store.held, base.block.body, mutation.changes, body);
    SignedIsReplayHeld(cfg, store.held, base, mutation.did, mutation.changes, cid);
    BodyMonotone(held, store.held, body);
    return Ok(cid);
  }
}
