/** Revisions of a sphere: their bodies, the changes between them, and what of them a
    block store holds. */
module Histories {
  import opened Wrappers
  import opened Pairs
  import opened Blocks
  import opened Trie
  import opened Canonical
  import opened Mutations
  import opened HeaderEdits
  import opened Timelines
  import opened VersionedMaps

  // ----- Bodies -----

  predicate Skeleton(b: Cid)
  {
    && b.block.SphereBlock?
    && b.block.addressBook.block.AddressBookBlock?
    && b.block.authority.block.AuthorityBlock?
  }

  /** The CIDs of the four versioned maps of a body. */
  function MapCids(b: Cid): Four<Cid>
    requires Skeleton(b)
  {
    Four(b.block.content, b.block.addressBook.block.identities,
         b.block.authority.block.delegations, b.block.authority.block.revocations)
  }

  function BodyCid(identity: string, cids: Four<Cid>, private: Option<Cid>): Cid
  {
    Cid(SphereBlock(identity, cids.content, Cid(AddressBookBlock(cids.identities)),
                    Cid(AuthorityBlock(cids.delegations, cids.revocations)), private))
  }

  lemma BodyDetermined(b: Cid)
    requires Skeleton(b)
    ensures b == BodyCid(b.block.identity, MapCids(b), b.block.private)
  {}

  predicate BodyShape(b: Cid)
  {
    && Skeleton(b)
    && MapShape(b.block.content) && MapShape(b.block.addressBook.block.identities)
    && MapShape(b.block.authority.block.delegations) && MapShape(b.block.authority.block.revocations)
  }

  ghost predicate BodyDenotes(cfg: Config, b: Cid, maps: Four<Entries>)
  {
    Skeleton(b) && forall s :: MapDenotes(cfg, MapCids(b).At(s), maps.At(s))
  }

  lemma BodySections(cfg: Config, b: Cid, maps: Four<Entries>)
    requires BodyDenotes(cfg, b, maps)
    ensures MapDenotes(cfg, b.block.content, maps.content)
    ensures MapDenotes(cfg, b.block.addressBook.block.identities, maps.identities)
    ensures MapDenotes(cfg, b.block.authority.block.delegations, maps.delegations)
    ensures MapDenotes(cfg, b.block.authority.block.revocations, maps.revocations)
  {
    assert MapDenotes(cfg, MapCids(b).At(Content), maps.At(Content));
    assert MapDenotes(cfg, MapCids(b).At(Identities), maps.At(Identities));
    assert MapDenotes(cfg, MapCids(b).At(Delegations), maps.At(Delegations));
    assert MapDenotes(cfg, MapCids(b).At(Revocations), maps.At(Revocations));
  }

  lemma BodyMapsUnique(cfg: Config, b: Cid, maps: Four<Entries>, maps': Four<Entries>)
    requires BodyDenotes(cfg, b, maps) && BodyDenotes(cfg, b, maps')
    ensures maps == maps'
  {
    forall s
      ensures maps.At(s) == maps'.At(s)
    {
      MapEntriesUnique(cfg, MapCids(b).At(s), maps.At(s), MapCids(b).At(s), maps'.At(s));
    }
    maps.Extensional(maps');
  }

  // ----- Applying changes to a body -----

  ghost predicate AppliedSection(cfg: Config, c: Cid, m: Entries, did: string, ops: Changes, c': Cid)
  {
    if ops == [] then c' == c
    else MapDenotes(cfg, c', ApplyOps(m, ops)) && c' == MapCid(c'.block.hamt, Some(did), ops)
  }

  /** `b'` is what applying `changes` by `did` to `b` gives. */
  ghost predicate AppliedBody(cfg: Config, b: Cid, maps: Four<Entries>, did: string, changes: Four<Changes>, b': Cid)
    requires Skeleton(b)
  {
    && Skeleton(b')
    && b'.block.identity == b.block.identity && b'.block.private == b.block.private
    && forall s :: AppliedSection(cfg, MapCids(b).At(s), maps.At(s), did, changes.At(s), MapCids(b').At(s))
  }

  lemma AppliedBodyDenotes(cfg: Config, b: Cid, maps: Four<Entries>, did: string, changes: Four<Changes>, b': Cid)
    requires BodyDenotes(cfg, b, maps) && AppliedBody(cfg, b, maps, did, changes, b')
    ensures BodyDenotes(cfg, b', ApplyAll(maps, changes))
  {
    forall s
      ensures MapDenotes(cfg, MapCids(b').At(s), ApplyAll(maps, changes).At(s))
    {
      ApplyAllAt(maps, changes, s);
    }
  }

  /** The body after a mutation is determined, down to every block. */
  lemma AppliedBodyUnique(cfg: Config, b: Cid, maps: Four<Entries>, did: string, changes: Four<Changes>, x: Cid, y: Cid)
    requires Skeleton(b)
    requires AppliedBody(cfg, b, maps, did, changes, x) && AppliedBody(cfg, b, maps, did, changes, y)
    ensures x == y
  {
    forall s
      ensures MapCids(x).At(s) == MapCids(y).At(s)
    {
      var cx, cy := MapCids(x).At(s), MapCids(y).At(s);
      assert AppliedSection(cfg, MapCids(b).At(s), maps.At(s), did, changes.At(s), cx);
      assert AppliedSection(cfg, MapCids(b).At(s), maps.At(s), did, changes.At(s), cy);
      if changes.At(s) != [] {
        MapEntriesUnique(cfg, cx, ApplyOps(maps.At(s), changes.At(s)), cy, ApplyOps(maps.At(s), changes.At(s)));
      }
    }
    MapCids(x).Extensional(MapCids(y));
    BodyDetermined(x);
    BodyDetermined(y);
  }

  // ----- Deriving changes from a revision -----

  predicate RevisionShape(cid: Cid)
  {
    cid.block.MemoBlock? && BodyShape(cid.block.body)
  }

  function AuthorOf(cid: Cid): Option<string>
    requires cid.block.MemoBlock?
  {
    FirstHeader(cid.block.headers, Author)
  }

  /** A map that changed contributes its changelog; one that did not contributes nothing. */
  function DerivedOps(pc: Cid, c: Cid): Changes
    requires MapShape(c)
  {
    if c == pc then [] else c.block.changelog.block.changes
  }

  function DerivedChanges(p: Cid, b: Cid): Four<Changes>
    requires BodyShape(p) && BodyShape(b)
  {
    Four(DerivedOps(p.block.content, b.block.content),
         DerivedOps(p.block.addressBook.block.identities, b.block.addressBook.block.identities),
         DerivedOps(p.block.authority.block.delegations, b.block.authority.block.delegations),
         DerivedOps(p.block.authority.block.revocations, b.block.authority.block.revocations))
  }

  lemma DerivedAt(p: Cid, b: Cid, s: Section)
    requires BodyShape(p) && BodyShape(b)
    ensures DerivedChanges(p, b).At(s) == DerivedOps(MapCids(p).At(s), MapCids(b).At(s))
  {}

  /** Shape of a revision and its parent, if any. */
  predicate StepShape(cid: Cid)
  {
    RevisionShape(cid) && (cid.block.parent.Some? ==> RevisionShape(cid.block.parent.value))
  }

  /** The changes a revision made to its parent. */
  function Derived(cid: Cid): Four<Changes>
    requires StepShape(cid)
  {
    if cid.block.parent.None? then NO_CHANGES
    else DerivedChanges(cid.block.parent.value.block.body, cid.block.body)
  }

  /** A changed map names its author and says what changed. */
  predicate ExplainedBy(pc: Cid, c: Cid, author: string)
    requires MapShape(c)
  {
    c == pc || (c.block.changelog.block.did == Some(author) && c.block.changelog.block.changes != [])
  }

  ghost predicate BodyExplained(pb: Cid, b: Cid, author: string)
    requires BodyShape(pb) && BodyShape(b)
  {
    forall s {:trigger MapCids(b).At(s)} :: ExplainedBy(MapCids(pb).At(s), MapCids(b).At(s), author)
  }

  /** The condition under which a revision's mutation can be derived from it. */
  ghost predicate Derivable(cid: Cid)
    requires StepShape(cid)
  {
    && AuthorOf(cid).Some?
    && (cid.block.parent.Some? ==>
          BodyExplained(cid.block.parent.value.block.body, cid.block.body, AuthorOf(cid).value))
  }

  // ----- Well-formed histories -----

  /** A map without entries and with an empty, unsigned changelog. */
  ghost predicate EmptyMap(cfg: Config, c: Cid)
  {
    MapDenotes(cfg, c, map[]) && c == MapCid(c.block.hamt, None, [])
  }

  /** The body of a newly generated sphere. */
  ghost predicate EmptyBody(cfg: Config, b: Cid)
  {
    Skeleton(b) && b.block.private == None && forall s :: EmptyMap(cfg, MapCids(b).At(s))
  }

  lemma EmptyBodyUnique(cfg: Config, x: Cid, y: Cid)
    requires EmptyBody(cfg, x) && EmptyBody(cfg, y) && x.block.identity == y.block.identity
    ensures x == y
  {
    forall s
      ensures MapCids(x).At(s) == MapCids(y).At(s)
    {
      MapEntriesUnique(cfg, MapCids(x).At(s), map[], MapCids(y).At(s), map[]);
    }
    MapCids(x).Extensional(MapCids(y));
    BodyDetermined(x);
    BodyDetermined(y);
  }

  /** The entries of the four maps of a revision. */
  ghost function RevisionMaps(cfg: Config, cid: Cid): (maps: Four<Entries>)
    requires IsRevision(cfg, cid)
    ensures BodyDenotes(cfg, cid.block.body, maps)
  {
    var maps :| BodyDenotes(cfg, cid.block.body, maps);
    maps
  }

  ghost predicate IsRevision(cfg: Config, cid: Cid)
  {
    cid.block.MemoBlock? && exists maps :: BodyDenotes(cfg, cid.block.body, maps)
  }

  lemma RevisionHasShape(cfg: Config, cid: Cid)
    requires IsRevision(cfg, cid)
    ensures RevisionShape(cid)
  {
    var maps :| BodyDenotes(cfg, cid.block.body, maps);
    BodySections(cfg, cid.block.body, maps);
  }

  /** Two revisions of any two spheres have the same HAMT root in a map exactly when that map
      has the same entries in both, whatever led there. */
  lemma RootsCharacterizeEntries(cfg: Config, a: Cid, b: Cid, s: Section)
    requires IsRevision(cfg, a) && IsRevision(cfg, b)
    ensures Skeleton(a.block.body) && Skeleton(b.block.body)
    ensures MapCids(a.block.body).At(s).block.MapBlock? && MapCids(b.block.body).At(s).block.MapBlock?
    ensures MapCids(a.block.body).At(s).block.hamt == MapCids(b.block.body).At(s).block.hamt <==>
            RevisionMaps(cfg, a).At(s) == RevisionMaps(cfg, b).At(s)
  {
    MapEntriesUnique(cfg, MapCids(a.block.body).At(s), RevisionMaps(cfg, a).At(s),
                     MapCids(b.block.body).At(s), RevisionMaps(cfg, b).At(s));
  }

  /** A lineage that starts with an empty sphere and in which every revision is its
      parent changed by a mutation of the revision's author. */
  ghost predicate WellFormed(cfg: Config, cid: Cid)
  {
    && IsRevision(cfg, cid) && RevisionShape(cid)
    && match cid.block.parent
       case None => EmptyBody(cfg, cid.block.body) && AuthorOf(cid).Some?
       case Some(p) =>
         && WellFormed(cfg, p) && IsRevision(cfg, p) && RevisionShape(p)
         && Derivable(cid)
         && cid.block.body.block.identity == p.block.body.block.identity
         && cid.block.body.block.private == p.block.body.block.private
         && RevisionMaps(cfg, cid) == ApplyAll(RevisionMaps(cfg, p), Derived(cid))
  }

  lemma {:induction false} WellFormedLineage(cfg: Config, cid: Cid)
    requires WellFormed(cfg, cid)
    ensures IsLineage(cid) && forall c | c in Ancestry(cid) :: WellFormed(cfg, c)
  {
    if cid.block.parent.Some? {
      WellFormedLineage(cfg, cid.block.parent.value);
    }
  }

  lemma DerivedSection(cfg: Config, pc: Cid, pm: Entries, c: Cid, m: Entries, did: string)
    requires MapDenotes(cfg, pc, pm) && MapDenotes(cfg, c, m) && ExplainedBy(pc, c, did)
    requires m == ApplyOps(pm, DerivedOps(pc, c))
    ensures AppliedSection(cfg, pc, pm, did, DerivedOps(pc, c), c)
  {}

  /** Re-applying what a well-formed revision did to its parent gives its body. */
  lemma DerivedReproduces(cfg: Config, cid: Cid)
    requires WellFormed(cfg, cid) && cid.block.parent.Some?
    ensures var p := cid.block.parent.value;
      AppliedBody(cfg, p.block.body, RevisionMaps(cfg, p), AuthorOf(cid).value, Derived(cid), cid.block.body)
  {
    var p := cid.block.parent.value;
    BodyReproduces(cfg, p.block.body, RevisionMaps(cfg, p), cid.block.body, RevisionMaps(cfg, cid),
                   AuthorOf(cid).value);
  }

  lemma BodyReproduces(cfg: Config, pb: Cid, pm: Four<Entries>, b: Cid, m: Four<Entries>, did: string)
    requires BodyDenotes(cfg, pb, pm) && BodyDenotes(cfg, b, m) && BodyShape(pb) && BodyShape(b)
    requires BodyExplained(pb, b, did) && m == ApplyAll(pm, DerivedChanges(pb, b))
    requires b.block.identity == pb.block.identity && b.block.private == pb.block.private
    ensures AppliedBody(cfg, pb, pm, did, DerivedChanges(pb, b), b)
  {
    forall s
      ensures AppliedSection(cfg, MapCids(pb).At(s), pm.At(s), did, DerivedChanges(pb, b).At(s), MapCids(b).At(s))
    {
      DerivedAt(pb, b, s);
      ApplyAllAt(pm, DerivedChanges(pb, b), s);
      assert ExplainedBy(MapCids(pb).At(s), MapCids(b).At(s), did);
      DerivedSection(cfg, MapCids(pb).At(s), pm.At(s), MapCids(b).At(s), m.At(s), did);
    }
  }

  /** Deriving what was applied to one map: the same changes, or none exactly when the
      map's CID did not change. */
  lemma SectionRoundTrip(cfg: Config, pc: Cid, pm: Entries, did: string, ops: Changes, c: Cid)
    requires MapDenotes(cfg, pc, pm) && AppliedSection(cfg, pc, pm, did, ops, c)
    ensures MapDenotes(cfg, c, ApplyOps(pm, ops))
    ensures ExplainedBy(pc, c, did)
    ensures DerivedOps(pc, c) == if c == pc then [] else ops
    ensures ApplyOps(pm, DerivedOps(pc, c)) == ApplyOps(pm, ops)
  {
    if c == pc {
      MapEntriesUnique(cfg, c, ApplyOps(pm, ops), pc, pm);
    }
  }

  /** Apply, then derive, on the four sections together. */
  lemma BodyDerive(cfg: Config, pb: Cid, pm: Four<Entries>, did: string, changes: Four<Changes>, b: Cid)
    requires BodyDenotes(cfg, pb, pm) && BodyShape(pb) && BodyShape(b)
    requires AppliedBody(cfg, pb, pm, did, changes, b)
    ensures BodyExplained(pb, b, did)
    ensures forall s ::
              DerivedChanges(pb, b).At(s) == if MapCids(b).At(s) == MapCids(pb).At(s) then [] else changes.At(s)
    ensures ApplyAll(pm, DerivedChanges(pb, b)) == ApplyAll(pm, changes)
  {
    forall s
      ensures ExplainedBy(MapCids(pb).At(s), MapCids(b).At(s), did)
      ensures DerivedChanges(pb, b).At(s) == if MapCids(b).At(s) == MapCids(pb).At(s) then [] else changes.At(s)
      ensures ApplyAll(pm, DerivedChanges(pb, b)).At(s) == ApplyAll(pm, changes).At(s)
    {
      DerivedAt(pb, b, s);
      ApplyAllAt(pm, DerivedChanges(pb, b), s);
      ApplyAllAt(pm, changes, s);
      SectionRoundTrip(cfg, MapCids(pb).At(s), pm.At(s), did, changes.At(s), MapCids(b).At(s));
    }
    ApplyAll(pm, DerivedChanges(pb, b)).Extensional(ApplyAll(pm, changes));
  }

  /** The round trip: the derived changes are the applied ones section by section, except
      for sections whose CID did not change, and re-applying them gives the same body. */
  lemma ApplyDeriveRoundTrip(cfg: Config, pb: Cid, pm: Four<Entries>, did: string, changes: Four<Changes>, b: Cid,
                             b': Cid)
    requires BodyDenotes(cfg, pb, pm) && BodyShape(pb) && BodyShape(b)
    requires AppliedBody(cfg, pb, pm, did, changes, b)
    ensures forall s ::
              DerivedChanges(pb, b).At(s) == if MapCids(b).At(s) == MapCids(pb).At(s) then [] else changes.At(s)
    ensures AppliedBody(cfg, pb, pm, did, DerivedChanges(pb, b), b') <==> b' == b
  {
    BodyDerive(cfg, pb, pm, did, changes, b);
    AppliedBodyDenotes(cfg, pb, pm, did, changes, b);
    BodyReproduces(cfg, pb, pm, b, ApplyAll(pm, changes), did);
    if AppliedBody(cfg, pb, pm, did, DerivedChanges(pb, b), b') {
      AppliedBodyUnique(cfg, pb, pm, did, DerivedChanges(pb, b), b', b);
    }
  }

  /** A signed mutation of a well-formed revision is a well-formed revision. */
  lemma AppliedIsWellFormed(cfg: Config, p: Cid, did: string, changes: Four<Changes>, cid: Cid)
    requires WellFormed(cfg, p) && cid.block.MemoBlock? && cid.block.parent == Some(p)
    requires AuthorOf(cid) == Some(did)
    requires AppliedBody(cfg, p.block.body, RevisionMaps(cfg, p), did, changes, cid.block.body)
    ensures WellFormed(cfg, cid) && RevisionMaps(cfg, cid) == ApplyAll(RevisionMaps(cfg, p), changes)
    ensures forall s ::
              Derived(cid).At(s) ==
              if MapCids(cid.block.body).At(s) == MapCids(p.block.body).At(s) then [] else changes.At(s)
  {
    var pm := RevisionMaps(cfg, p);
    AppliedRevision(cfg, p.block.body, pm, did, changes, cid);
    BodyDerive(cfg, p.block.body, pm, did, changes, cid.block.body);
    assert Derivable(cid);
  }

  lemma AppliedRevision(cfg: Config, pb: Cid, pm: Four<Entries>, did: string, changes: Four<Changes>, cid: Cid)
    requires cid.block.MemoBlock? && BodyDenotes(cfg, pb, pm)
    requires AppliedBody(cfg, pb, pm, did, changes, cid.block.body)
    ensures IsRevision(cfg, cid) && RevisionShape(cid) && RevisionMaps(cfg, cid) == ApplyAll(pm, changes)
  {
    AppliedBodyDenotes(cfg, pb, pm, did, changes, cid.block.body);
    RevisionHasShape(cfg, cid);
    BodyMapsUnique(cfg, cid.block.body, RevisionMaps(cfg, cid), ApplyAll(pm, changes));
  }

  // ----- What a store holds of a revision -----

  /** The body, its address book and authority, and the map blocks with their changelogs. */
  ghost predicate BodySparse(held: set<Cid>, b: Cid)
    requires Skeleton(b)
  {
    && b in held && b.block.addressBook in held && b.block.authority in held
    && forall s :: MapSparse(held, MapCids(b).At(s))
  }

  /** The same and every HAMT node of the four maps. */
  ghost predicate BodyPresent(held: set<Cid>, b: Cid)
    requires Skeleton(b)
  {
    && b in held && b.block.addressBook in held && b.block.authority in held
    && forall s :: MapPresent(held, MapCids(b).At(s))
  }

  ghost predicate RevisionSparse(held: set<Cid>, cid: Cid)
    requires RevisionShape(cid)
  {
    cid in held && BodySparse(held, cid.block.body)
  }

  ghost predicate RevisionPresent(held: set<Cid>, cid: Cid)
    requires RevisionShape(cid)
  {
    cid in held && BodyPresent(held, cid.block.body)
  }

  lemma BodyMonotone(held: set<Cid>, more: set<Cid>, b: Cid)
    requires held <= more && Skeleton(b)
    ensures BodySparse(held, b) ==> BodySparse(more, b)
    ensures BodyPresent(held, b) ==> BodyPresent(more, b)
    ensures BodyPresent(held, b) ==> BodySparse(held, b)
  {
    forall s
      ensures MapSparse(held, MapCids(b).At(s)) ==> MapSparse(more, MapCids(b).At(s))
      ensures MapPresent(held, MapCids(b).At(s)) ==> MapPresent(more, MapCids(b).At(s))
      ensures MapPresent(held, MapCids(b).At(s)) ==> MapSparse(held, MapCids(b).At(s))
    {
      MapPresentMonotone(held, more, MapCids(b).At(s));
    }
  }

  lemma RevisionMonotone(held: set<Cid>, more: set<Cid>, cid: Cid)
    requires held <= more && RevisionShape(cid)
    ensures RevisionSparse(held, cid) ==> RevisionSparse(more, cid)
    ensures RevisionPresent(held, cid) ==> RevisionPresent(more, cid)
    ensures RevisionPresent(held, cid) ==> RevisionSparse(held, cid)
  {
    BodyMonotone(held, more, cid.block.body);
  }

  // ----- The keys of a history -----

  /** No four keys of one map share a whole hash. */
  ghost predicate SafeKeys(cfg: Config, keys: Four<set<Key>>)
  {
    forall s :: NoCollision(cfg, keys.At(s), 0)
  }

  ghost predicate MapsWithin(maps: Four<Entries>, keys: Four<set<Key>>)
  {
    forall s :: maps.At(s).Keys <= keys.At(s)
  }

  ghost predicate ChangesWithin(changes: Four<Changes>, keys: Four<set<Key>>)
  {
    forall s :: AddedKeys(changes.At(s)) <= keys.At(s)
  }

  /** The revision's entries and additions use the given keys. */
  ghost predicate RevisionWithin(cfg: Config, cid: Cid, keys: Four<set<Key>>)
  {
    && IsRevision(cfg, cid) && StepShape(cid)
    && MapsWithin(RevisionMaps(cfg, cid), keys) && ChangesWithin(Derived(cid), keys)
  }

  lemma SafeToApply(cfg: Config, maps: Four<Entries>, changes: Four<Changes>, keys: Four<set<Key>>, s: Section)
    requires SafeKeys(cfg, keys) && MapsWithin(maps, keys) && ChangesWithin(changes, keys)
    ensures NoCollision(cfg, maps.At(s).Keys + AddedKeys(changes.At(s)), 0)
  {
    assert NoCollision(cfg, keys.At(s), 0);
    assert maps.At(s).Keys <= keys.At(s) && AddedKeys(changes.At(s)) <= keys.At(s);
    FewerKeys(cfg, maps.At(s).Keys + AddedKeys(changes.At(s)), keys.At(s));
  }

  lemma {:induction false} KeysUpTo(m: Entries, ops: Changes, keys: set<Key>, n: nat)
    requires m.Keys <= keys && AddedKeys(ops) <= keys && n <= |ops|
    ensures ApplyUpTo(m, ops, n).Keys <= keys
    decreases n
  {
    if n > 0 {
      KeysUpTo(m, ops, keys, n - 1);
      KeysAfter(ApplyUpTo(m, ops, n - 1), ops, n - 1, keys);
    }
  }

  lemma AppliedWithin(maps: Four<Entries>, changes: Four<Changes>, keys: Four<set<Key>>)
    requires MapsWithin(maps, keys) && ChangesWithin(changes, keys)
    ensures MapsWithin(ApplyAll(maps, changes), keys)
  {
    forall s
      ensures ApplyAll(maps, changes).At(s).Keys <= keys.At(s)
    {
      ApplyAllAt(maps, changes, s);
      KeysUpTo(maps.At(s), changes.At(s), keys.At(s), |changes.At(s)|);
    }
  }
}
