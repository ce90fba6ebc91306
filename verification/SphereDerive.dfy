/** Deriving the mutation that produced a revision from its changelogs. */
module SphereDerive {
  import opened Wrappers
  import opened Blocks
  import opened Mutations
  import opened HeaderEdits
  import opened VersionedMaps
  import opened Histories

  /** Why a changed map does not explain itself. */
  function Unexplained(c: Cid): Error
    requires MapShape(c)
  {
    if c.block.changelog.block.changes == [] then EmptyChangelog
    else if c.block.changelog.block.did.None? then NoChangelogAuthor
    else UnexpectedAuthor
  }

  /** Why a mutation of `did` cannot be derived: the first map, in the order they are read,
      that changed without explaining itself. */
  function DeriveFault(pb: Cid, b: Cid, did: string): Option<Error>
    requires BodyShape(pb) && BodyShape(b)
  {
    var p, c := MapCids(pb), MapCids(b);
    if !ExplainedBy(p.content, c.content, did) then Some(Unexplained(c.content))
    else if !ExplainedBy(p.identities, c.identities, did) then Some(Unexplained(c.identities))
    else if !ExplainedBy(p.delegations, c.delegations, did) then Some(Unexplained(c.delegations))
    else if !ExplainedBy(p.revocations, c.revocations, did) then Some(Unexplained(c.revocations))
    else None
  }

  /** A map that changed can be read down to its changelog. */
  ghost predicate SectionRead(held: set<Cid>, pc: Cid, c: Cid)
  {
    c != pc ==> MapSparse(held, c)
  }

  /** A block that changed can be read, and so can the one it replaced. */
  ghost predicate BothRead(held: set<Cid>, pc: Cid, c: Cid)
  {
    c != pc ==> pc in held && c in held
  }

  /** The blocks that tell a body from its parent's: of the maps only those that changed. */
  ghost predicate BodyRead(held: set<Cid>, p: Cid, b: Cid)
    requires RevisionShape(p) && BodyShape(b)
  {
    var pb := p.block.body;
    && p in held && pb in held && b in held
    && BothRead(held, pb.block.addressBook, b.block.addressBook)
    && BothRead(held, pb.block.authority, b.block.authority)
    && forall s :: SectionRead(held, MapCids(pb).At(s), MapCids(b).At(s))
  }

  /** The blocks that deriving a revision's mutation reads. */
  ghost predicate StepRead(held: set<Cid>, cid: Cid)
    requires StepShape(cid)
  {
    cid in held && (cid.block.parent.Some? ==> BodyRead(held, cid.block.parent.value, cid.block.body))
  }

  lemma ReadSections(held: set<Cid>, pb: Cid, b: Cid)
    requires BodyShape(pb) && BodyShape(b)
    ensures (forall s :: SectionRead(held, MapCids(pb).At(s), MapCids(b).At(s))) <==>
            && SectionRead(held, pb.block.content, b.block.content)
            && SectionRead(held, pb.block.addressBook.block.identities, b.block.addressBook.block.identities)
            && SectionRead(held, pb.block.authority.block.delegations, b.block.authority.block.delegations)
            && SectionRead(held, pb.block.authority.block.revocations, b.block.authority.block.revocations)
  {
    if forall s :: SectionRead(held, MapCids(pb).At(s), MapCids(b).At(s)) {
      assert SectionRead(held, MapCids(pb).At(Content), MapCids(b).At(Content));
      assert SectionRead(held, MapCids(pb).At(Identities), MapCids(b).At(Identities));
      assert SectionRead(held, MapCids(pb).At(Delegations), MapCids(b).At(Delegations));
      assert SectionRead(held, MapCids(pb).At(Revocations), MapCids(b).At(Revocations));
    }
  }

  /** One map: nothing when its CID is the parent's, else its recorded changes. */
  method DeriveSection(mutation: SphereMutation, s: Section, pc: Cid, c: Cid, store: BlockStore) returns (r: Result<()>)
    requires MapShape(c)
    modifies mutation
    ensures r.Err? ==> DeriveError(r.error)
    ensures r.Ok? ==> ExplainedBy(pc, c, mutation.did)
    ensures r.Ok? ==>
              mutation.changes ==
              if c == pc then old(mutation.changes) else Put(old(mutation.changes), s, DerivedOps(pc, c))
    ensures r.Ok? <==> SectionRead(store.held, pc, c) && ExplainedBy(pc, c, mutation.did)
    ensures r.Err? ==> r.error == if SectionRead(store.held, pc, c) then Unexplained(c) else BlockNotFound
  {
    if c == pc {
      return Ok(());
    }
    var ipld := store.Load(c);
    if ipld.Err? {
      return Err(ipld.error);
    }
    var changelog := store.Load(ipld.value.changelog);
    if changelog.Err? {
      return Err(changelog.error);
    }
    if |changelog.value.changes| == 0 {
      return Err(EmptyChangelog);
    }
    r := mutation.ApplyChangelog(s, changelog.value.did, changelog.value.changes);
  }

  /** The blocks that lead to the CIDs of the four maps of a revision. */
  ghost predicate Outline(held: set<Cid>, cid: Cid)
    requires RevisionShape(cid)
  {
    var b := cid.block.body;
    cid in held && b in held && b.block.addressBook in held && b.block.authority in held
  }

  /** Everything needed to derive a revision's mutation is held. */
  ghost predicate StepSparse(held: set<Cid>, cid: Cid)
    requires StepShape(cid)
  {
    RevisionSparse(held, cid) && (cid.block.parent.Some? ==> Outline(held, cid.block.parent.value))
  }

  method LoadAll(cids: seq<Cid>, store: BlockStore) returns (r: Result<()>)
    ensures r.Ok? <==> forall c | c in cids :: c in store.held
    ensures r.Err? ==> r.error == BlockNotFound
  {
    for i := 0 to |cids|
      invariant forall j | 0 <= j < i :: cids[j] in store.held
    {
      var loaded := store.Load(cids[i]);
      if loaded.Err? {
        return Err(loaded.error);
      }
    }
    return Ok(());
  }

  /** A sparse revision on a parent whose maps can be found is more than deriving reads. */
  lemma SparseIsRead(held: set<Cid>, cid: Cid)
    requires StepShape(cid) && StepSparse(held, cid)
    ensures StepRead(held, cid)
  {
    if cid.block.parent.Some? {
      SparseSections(held, cid.block.body);
      ReadSections(held, cid.block.parent.value.block.body, cid.block.body);
    }
  }

  /** `Sphere::derive_mutation`. It succeeds exactly when the memo has an author, every changed
      map has a non-empty changelog by that author, and the blocks that say so are held. */
  method DeriveMutation(cid: Cid, store: BlockStore) returns (r: Result<SphereMutation>)
    requires StepShape(cid)
    ensures r.Err? ==> DeriveError(r.error)
    ensures r.Ok? ==> Derivable(cid)
    ensures r.Ok? ==> fresh(r.value) && Some(r.value.did) == AuthorOf(cid) && r.value.changes == Derived(cid)
    ensures r.Ok? <==> StepRead(store.held, cid) && Derivable(cid)
    ensures Derivable(cid) && r.Err? ==> r.error == BlockNotFound
    ensures StepSparse(store.held, cid) ==> StepRead(store.held, cid)
    ensures StepRead(store.held, cid) && r.Err? && AuthorOf(cid).Some? ==>
              && cid.block.parent.Some?
              && DeriveFault(cid.block.parent.value.block.body, cid.block.body, AuthorOf(cid).value) == Some(r.error)
    ensures cid in store.held && AuthorOf(cid).None? ==> r == Err(NoAuthor)
  {
    if StepSparse(store.held, cid) {
      SparseIsRead(store.held, cid);
    }
    var memo := store.Load(cid);
    if memo.Err? {
      return Err(memo.error);
    }
    var author := FirstHeader(memo.value.headers, Author);
    if author.None? {
      return Err(NoAuthor);
    }
    var mutation := new SphereMutation(author.value);
    if memo.value.parent.None? {
      return Ok(mutation);
    }
    var p := memo.value.parent.value;
    var derived := DeriveFromParent(mutation, p, memo.value.body, store);
    if derived.Err? {
      return Err(derived.error);
    }
    return Ok(mutation);
  }

  lemma ExplainedSections(pb: Cid, b: Cid, did: string)
    requires BodyShape(pb) && BodyShape(b)
    ensures BodyExplained(pb, b, did) <==>
            && ExplainedBy(pb.block.content, b.block.content, did)
            && ExplainedBy(pb.block.addressBook.block.identities, b.block.addressBook.block.identities, did)
            && ExplainedBy(pb.block.authority.block.delegations, b.block.authority.block.delegations, did)
            && ExplainedBy(pb.block.authority.block.revocations, b.block.authority.block.revocations, did)
  {
    if BodyExplained(pb, b, did) {
      assert ExplainedBy(MapCids(pb).At(Content), MapCids(b).At(Content), did);
      assert ExplainedBy(MapCids(pb).At(Identities), MapCids(b).At(Identities), did);
      assert ExplainedBy(MapCids(pb).At(Delegations), MapCids(b).At(Delegations), did);
      assert ExplainedBy(MapCids(pb).At(Revocations), MapCids(b).At(Revocations), did);
    }
  }

  lemma SparseSections(held: set<Cid>, b: Cid)
    requires Skeleton(b) && BodySparse(held, b)
    ensures MapSparse(held, b.block.content) && MapSparse(held, b.block.addressBook.block.identities)
    ensures MapSparse(held, b.block.authority.block.delegations) && MapSparse(held, b.block.authority.block.revocations)
  {
    assert MapSparse(held, MapCids(b).At(Content)) && MapSparse(held, MapCids(b).At(Identities));
    assert MapSparse(held, MapCids(b).At(Delegations)) && MapSparse(held, MapCids(b).At(Revocations));
  }

  method DeriveFromParent(mutation: SphereMutation, p: Cid, b: Cid, store: BlockStore) returns (r: Result<()>)
    requires RevisionShape(p) && BodyShape(b) && mutation.changes == NO_CHANGES
    modifies mutation
    ensures r.Err? ==> DeriveError(r.error)
    ensures r.Ok? ==> mutation.changes == DerivedChanges(p.block.body, b)
    ensures r.Ok? ==> BodyExplained(p.block.body, b, mutation.did)
    ensures r.Ok? <==> BodyRead(store.held, p, b) && BodyExplained(p.block.body, b, mutation.did)
    ensures BodyExplained(p.block.body, b, mutation.did) && r.Err? ==> r.error == BlockNotFound
    ensures BodyRead(store.held, p, b) && r.Err? ==> DeriveFault(p.block.body, b, mutation.did) == Some(r.error)
  {
    var pb := p.block.body;
    ExplainedSections(pb, b, mutation.did);
    ReadSections(store.held, pb, b);
    var bodies := LoadAll([p, pb, b], store);
    if bodies.Err? {
      return bodies;
    }
    r := DeriveSection(mutation, Content, pb.block.content, b.block.content, store);
    if r.Err? {
      return;
    }
    if b.block.addressBook != pb.block.addressBook {
      var books := LoadAll([pb.block.addressBook, b.block.addressBook], store);
      if books.Err? {
        return books;
      }
      r := DeriveSection(mutation, Identities, pb.block.addressBook.block.identities,
                         b.block.addressBook.block.identities, store);
      if r.Err? {
        return;
      }
    }
    r := DeriveAuthority(mutation, pb.block.authority, b.block.authority, store);
  }

  ghost predicate AuthorityRead(held: set<Cid>, pa: Cid, a: Cid)
    requires pa.block.AuthorityBlock? && a.block.AuthorityBlock?
  {
    && BothRead(held, pa, a)
    && SectionRead(held, pa.block.delegations, a.block.delegations)
    && SectionRead(held, pa.block.revocations, a.block.revocations)
  }

  method DeriveAuthority(mutation: SphereMutation, pa: Cid, a: Cid, store: BlockStore) returns (r: Result<()>)
    requires pa.block.AuthorityBlock? && a.block.AuthorityBlock?
    requires MapShape(a.block.delegations) && MapShape(a.block.revocations)
    requires mutation.changes.delegations == [] && mutation.changes.revocations == []
    modifies mutation
    ensures r.Err? ==> DeriveError(r.error)
    ensures r.Ok? ==>
              && ExplainedBy(pa.block.delegations, a.block.delegations, mutation.did)
              && ExplainedBy(pa.block.revocations, a.block.revocations, mutation.did)
              && mutation.changes.content == old(mutation.changes.content)
              && mutation.changes.identities == old(mutation.changes.identities)
              && mutation.changes.delegations == DerivedOps(pa.block.delegations, a.block.delegations)
              && mutation.changes.revocations == DerivedOps(pa.block.revocations, a.block.revocations)
    ensures r.Ok? <==>
            && AuthorityRead(store.held, pa, a)
            && ExplainedBy(pa.block.delegations, a.block.delegations, mutation.did)
            && ExplainedBy(pa.block.revocations, a.block.revocations, mutation.did)
    ensures && ExplainedBy(pa.block.delegations, a.block.delegations, mutation.did)
            && ExplainedBy(pa.block.revocations, a.block.revocations, mutation.did) ==>
              r.Ok? || r.error == BlockNotFound
    ensures AuthorityRead(store.held, pa, a) && r.Err? ==>
              r.error == if !ExplainedBy(pa.block.delegations, a.block.delegations, mutation.did)
                         then Unexplained(a.block.delegations) else Unexplained(a.block.revocations)
  {
    if a == pa {
      return Ok(());
    }
    r := LoadAll([pa, a], store);
    if r.Err? {
      return;
    }
    r := DeriveSection(mutation, Delegations, pa.block.delegations, a.block.delegations, store);
    if r.Err? {
      return;
    }
    r := DeriveSection(mutation, Revocations, pa.block.revocations, a.block.revocations, store);
  }
}
