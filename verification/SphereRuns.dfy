/** Whole runs of a sphere: generated, edited and compacted in any order. */
module SphereRuns {
  import opened Wrappers
  import opened Pairs
  import opened Blocks
  import opened Trie
  import opened Mutations
  import opened Memos
  import opened Timelines
  import opened LamportOrders
  import opened VersionedMaps
  import opened Histories
  import opened SphereApply
  import opened SphereHydrate
  import opened SphereCompact

  /** A revision that is completely held and uses the given keys. */
  ghost predicate Settled(cfg: Config, held: set<Cid>, cid: Cid, keys: Four<set<Key>>)
  {
    RevisionWithin(cfg, cid, keys) && RevisionPresent(held, cid)
  }

  /** A well-formed lineage whose every revision is completely held. */
  ghost predicate Healthy(cfg: Config, held: set<Cid>, tip: Cid, keys: Four<set<Key>>)
  {
    && SafeKeys(cfg, keys) && WellFormed(cfg, tip) && IsLineage(tip)
    && forall c | c in Ancestry(tip) :: Settled(cfg, held, c, keys)
  }

  lemma HealthyAncestor(cfg: Config, held: set<Cid>, tip: Cid, c: Cid, keys: Four<set<Key>>)
    requires Healthy(cfg, held, tip, keys) && c in Ancestry(tip)
    ensures Healthy(cfg, held, c, keys)
  {
    WellFormedLineage(cfg, tip);
    AncestryEnds(tip);
    assert forall x | x in Ancestry(c) :: x in Ancestry(tip);
  }

  lemma HealthyTip(cfg: Config, held: set<Cid>, tip: Cid, keys: Four<set<Key>>)
    requires Healthy(cfg, held, tip, keys)
    ensures ParentComplete(cfg, held, tip, keys)
  {
    AncestryEnds(tip);
    assert Settled(cfg, held, tip, keys);
  }

  lemma HealthyChild(cfg: Config, held: set<Cid>, more: set<Cid>, base: Cid, tip: Cid, keys: Four<set<Key>>)
    requires Healthy(cfg, held, base, keys) && held <= more
    requires WellFormed(cfg, tip) && tip.block.parent == Some(base) && Settled(cfg, more, tip, keys)
    ensures Healthy(cfg, more, tip, keys)
  {
    forall c | c in Ancestry(tip)
      ensures Settled(cfg, more, c, keys)
    {
      if c in Ancestry(base) {
        assert Settled(cfg, held, c, keys);
        RevisionMonotone(held, more, c);
      }
    }
  }

  // ----- A new sphere -----

  /** The signed first revision of a sphere, with nothing in its maps. */
  lemma GenesisIsHealthy(cfg: Config, held: set<Cid>, cid: Cid, keys: Four<set<Key>>)
    requires cid.block.MemoBlock? && cid.block.parent.None? && EmptyBody(cfg, cid.block.body) && AuthorOf(cid).Some?
    requires cid in held && BodyPresent(held, cid.block.body)
    ensures WellFormed(cfg, cid) && RevisionMaps(cfg, cid) == EMPTY_MAPS
    ensures SafeKeys(cfg, keys) ==> Healthy(cfg, held, cid, keys)
  {
    EmptyBodyDenotes(cfg, cid.block.body);
    assert IsRevision(cfg, cid);
    RevisionHasShape(cfg, cid);
    BodyMapsUnique(cfg, cid.block.body, RevisionMaps(cfg, cid), EMPTY_MAPS);
    NothingWithin(keys);
    forall s
      ensures EMPTY_MAPS.At(s).Keys <= keys.At(s)
    {
      assert EMPTY_MAPS.At(s) == map[];
    }
  }

  /** A revision of a new sphere, signed with the sphere's own key. */
  ghost predicate OwnRevision(cid: Cid, sphereKey: Credential)
  {
    && cid.block.MemoBlock? && Skeleton(cid.block.body) && cid.block.body.block.identity == sphereKey.did
    && AuthorOf(cid) == Some(sphereKey.did) && OwnHeaders(cid.block.headers, sphereKey, cid.block.body)
  }

  /** The first revision of a sphere, signed with its own key. */
  method FirstRevision(cfg: Config, sphereKey: Credential, store: BlockStore) returns (genesis: Cid)
    requires sphereKey.proof.None?
    modifies store
    ensures old(store.held) <= store.held && genesis in store.held
    ensures OwnRevision(genesis, sphereKey) && OrderAt(genesis) == 0 && Numbered(genesis)
    ensures genesis.block.parent.None? && EmptyBody(cfg, genesis.block.body)
    ensures BodyPresent(store.held, genesis.block.body)
  {
    var body := NewBody(cfg, sphereKey.did, store);
    var memo := new Memo(None, FIRST_HEADERS, body);
    ghost var held := store.held;
    FirstHeaders(sphereKey, body);
    FirstOrder(sphereKey, body);
    genesis := SignRevision(memo, sphereKey, store);
    BodyMonotone(held, store.held, body);
  }

  lemma SecondLineage(cfg: Config, genesis: Cid, cid: Cid)
    requires WellFormed(cfg, cid) && cid.block.parent == Some(genesis) && genesis.block.MemoBlock?
    requires genesis.block.parent.None?
    ensures IsLineage(cid) && Ancestry(cid) == [genesis, cid]
    ensures Skeleton(cid.block.body) && cid.block.body.block.identity == genesis.block.body.block.identity
  {
    WellFormedLineage(cfg, cid);
  }

  /** `Sphere::generate`: an empty first revision and a second one that delegates to the
      owner, both of the sphere with the DID of the sphere's own key and signed with it. */
  method Generate(cfg: Config, sphereKey: Credential, delegation: Key, jwt: Value, store: BlockStore,
                  ghost keys: Four<set<Key>>)
    returns (r: Result<Cid>)
    modifies store
    ensures old(store.held) <= store.held
    ensures r.Ok? ==> WellFormed(cfg, r.value) && IsLineage(r.value) && |Ancestry(r.value)| == 2
    ensures r.Ok? ==> OwnRevision(Ancestry(r.value)[0], sphereKey) && OrderAt(Ancestry(r.value)[0]) == 0
    ensures r.Ok? ==> OwnRevision(r.value, sphereKey) && OrderAt(r.value) == 1 && Numbered(r.value)
    ensures r.Ok? ==> EmptyBody(cfg, Ancestry(r.value)[0].block.body)
    ensures r.Ok? ==> RevisionMaps(cfg, r.value) == Four(map[], map[], map[delegation := jwt], map[])
    ensures SafeKeys(cfg, keys) && delegation in keys.delegations ==> r.Ok? && Healthy(cfg, store.held, r.value, keys)
  {
    var key := sphereKey.(proof := None);
    var genesis := FirstRevision(cfg, key, store);
    GenesisIsHealthy(cfg, store.held, genesis, keys);
    ghost var before := store.held;
    var mutation := new SphereMutation(key.did);
    mutation.Set(Delegations, delegation, jwt);
    FirstDelegation(delegation, jwt, keys);
    ghost var safe := SafeKeys(cfg, keys) && delegation in keys.delegations;
    if safe {
      HealthyTip(cfg, store.held, genesis, keys);
    }
    r := ApplyAndSign(cfg, genesis, mutation, key, store, keys);
    if r.Ok? {
      SecondLineage(cfg, genesis, r.value);
      SecondHeaders(genesis, key, r.value);
      SignedOnOrder(genesis, key, r.value);
      SignedOnNumbered(genesis, key, r.value);
      if safe {
        HealthyChild(cfg, before, store.held, genesis, r.value, keys);
      }
    }
  }

  lemma FirstDelegation(delegation: Key, jwt: Value, keys: Four<set<Key>>)
    ensures var changes := Put(NO_CHANGES, Delegations, NO_CHANGES.At(Delegations) + [Add(delegation, jwt)]);
      && ApplyAll(EMPTY_MAPS, changes) == Four(map[], map[], map[delegation := jwt], map[])
      && (delegation in keys.delegations ==> ChangesWithin(changes, keys))
  {
    var changes := Put(NO_CHANGES, Delegations, NO_CHANGES.At(Delegations) + [Add(delegation, jwt)]);
    var ops := [Add(delegation, jwt)];
    assert NO_CHANGES.At(Delegations) + [Add(delegation, jwt)] == ops;
    assert ApplyUpTo(map[], ops, 0) == map[];
    forall s
      ensures AddedKeys(changes.At(s)) <= if s == Delegations then {delegation} else {}
    {}
  }

  // ----- Runs -----

  /** One step of a sphere's life: a signed mutation, or the compaction of its newest
      revisions into one. */
  datatype Step =
    | Edit(changes: Four<Changes>, author: Credential)
    | Squash(older: nat, author: Credential)

  ghost function MapsAfterStep(maps: Four<Entries>, step: Step): Four<Entries>
  {
    if step.Edit? then ApplyAll(maps, step.changes) else maps
  }

  /** What the steps do to four plain maps. */
  ghost function MapsAfter(maps: Four<Entries>, steps: seq<Step>): Four<Entries>
  {
    if steps == [] then maps else MapsAfterStep(MapsAfter(maps, steps[..|steps| - 1]), steps[|steps| - 1])
  }

  /** One more revision on the tip. */
  method EditTip(cfg: Config, tip: Cid, changes: Four<Changes>, author: Credential, store: BlockStore,
                 ghost keys: Four<set<Key>>)
    returns (tip': Cid)
    requires Healthy(cfg, store.held, tip, keys) && ChangesWithin(changes, keys)
    modifies store
    ensures Healthy(cfg, store.held, tip', keys) && tip'.block.parent == Some(tip)
    ensures old(store.held) <= store.held && AuthorOf(tip') == Some(author.did)
    ensures RevisionMaps(cfg, tip') == ApplyAll(RevisionMaps(cfg, tip), changes)
    ensures Numbered(tip) ==> Numbered(tip')
  {
    ghost var before := store.held;
    var mutation := new SphereMutation(author.did);
    mutation.changes := changes;
    HealthyTip(cfg, store.held, tip, keys);
    var r := ApplyAndSign(cfg, tip, mutation, author, store, keys);
    tip' := r.value;
    HealthyChild(cfg, before, store.held, tip, tip', keys);
    SignedOnNumbered(tip, author, tip');
  }

  lemma ReadyToCompact(cfg: Config, held: set<Cid>, tip: Cid, until: Cid, keys: Four<set<Key>>)
    requires Healthy(cfg, held, tip, keys) && until in Ancestry(tip) && until.block.MemoBlock?
    requires until.block.parent.Some?
    ensures RangeReady(cfg, held, Slice(tip, Some(until), false), keys) && WellFormed(cfg, until)
    ensures Healthy(cfg, held, until.block.parent.value, keys)
  {
    var items := Slice(tip, Some(until), false);
    SliceIsChain(tip, Some(until), false);
    IncludedPastIsFirst(tip, until);
    HealthyAncestor(cfg, held, tip, until, keys);
    AncestryEnds(until.block.parent.value);
    HealthyAncestor(cfg, held, until, until.block.parent.value, keys);
    HealthyTip(cfg, held, until.block.parent.value, keys);
    forall c | c in items
      ensures RevisionWithin(cfg, c, keys) && RevisionSparse(held, c)
    {
      assert Settled(cfg, held, c, keys);
      RevisionMonotone(held, held, c);
    }
  }

  /** The newest revisions, from `until` on, become one. */
  method CompactTip(cfg: Config, tip: Cid, until: Cid, author: Credential, store: BlockStore,
                    ghost keys: Four<set<Key>>)
    returns (tip': Cid)
    requires Healthy(cfg, store.held, tip, keys) && until in Ancestry(tip) && until.block.MemoBlock?
    requires until.block.parent.Some?
    modifies store
    ensures Healthy(cfg, store.held, tip', keys) && tip'.block.parent == until.block.parent
    ensures RevisionMaps(cfg, tip') == RevisionMaps(cfg, tip)
    ensures Numbered(tip) ==> Numbered(tip') && OrderAt(tip') == OrderAt(until)
  {
    ghost var before := store.held;
    ReadyToCompact(cfg, store.held, tip, until, keys);
    var r := Compact(cfg, tip, until, author, store, keys);
    tip' := r.value;
    HealthyChild(cfg, before, store.held, until.block.parent.value, tip', keys);
    if Numbered(tip) {
      NumberedAncestor(OrderAt, tip, until);
      SignedOnNumbered(until.block.parent.value, author, tip');
    }
  }

  /** A sphere that is edited and compacted in any order, by any authors, stays well formed
      and complete, and its maps are what the edits make of plain maps. */
  method Run(cfg: Config, tip: Cid, steps: seq<Step>, store: BlockStore, ghost keys: Four<set<Key>>) returns (tip': Cid)
    requires Healthy(cfg, store.held, tip, keys)
    requires forall i | 0 <= i < |steps| && steps[i].Edit? :: ChangesWithin(steps[i].changes, keys)
    modifies store
    ensures Healthy(cfg, store.held, tip', keys)
    ensures RevisionMaps(cfg, tip') == MapsAfter(RevisionMaps(cfg, tip), steps)
    ensures Numbered(tip) ==> Numbered(tip')
  {
    tip' := tip;
    for i := 0 to |steps|
      invariant Healthy(cfg, store.held, tip', keys)
      invariant RevisionMaps(cfg, tip') == MapsAfter(RevisionMaps(cfg, tip), steps[..i])
      invariant Numbered(tip) ==> Numbered(tip')
    {
      assert steps[..i + 1][..i] == steps[..i];
      match steps[i] {
        case Edit(changes, author) =>
          tip' := EditTip(cfg, tip', changes, author, store, keys);
        case Squash(older, author) =>
          var lineage := Ancestry(tip');
          if older + 1 < |lineage| {
            var until := lineage[|lineage| - 1 - older];
            HasParent(tip', |lineage| - 1 - older);
            tip' := CompactTip(cfg, tip', until, author, store, keys);
          }
      }
    }
    assert steps[..|steps|] == steps;
  }

  /** Every revision of a lineage but the first has a parent. */
  lemma HasParent(cid: Cid, i: nat)
    requires IsLineage(cid) && 0 < i < |Ancestry(cid)|
    ensures Ancestry(cid)[i].block.MemoBlock? && Ancestry(cid)[i].block.parent == Some(Ancestry(cid)[i - 1])
  {
    SliceFromGenesis(cid, None, true);
    SliceIsChain(cid, None, true);
    assert ChildOf(Ancestry(cid), i);
  }
}
