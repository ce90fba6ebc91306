/** Applying a mutation to a sphere revision. */
module SphereApply {
  import opened Wrappers
  import opened Pairs
  import opened Blocks
  import opened Trie
  import opened Canonical
  import opened Mutations
  import opened Memos
  import opened VersionedMaps
  import opened Histories

  /** The blocks read to change a map and those written for the changed one are held. */
  ghost predicate SectionHeld(held: set<Cid>, c: Cid, ops: Changes, c': Cid)
  {
    ops != [] ==> MapRooted(held, c) && MapRooted(held, c')
  }

  /** Nothing stands in the way of changing a map: it is complete and no four keys collide. */
  ghost predicate CanChange(cfg: Config, held: set<Cid>, c: Cid, m: Entries, ops: Changes)
  {
    ops != [] ==> MapPresent(held, c) && NoCollision(cfg, m.Keys + AddedKeys(ops), 0)
  }

  lemma SectionMonotone(held: set<Cid>, more: set<Cid>, c: Cid, ops: Changes, c': Cid)
    requires held <= more && SectionHeld(held, c, ops, c')
    ensures SectionHeld(more, c, ops, c')
  {
    MapPresentMonotone(held, more, c);
    MapPresentMonotone(held, more, c');
  }

  /** Changes one map when there are changes for it. */
  method ApplySection(cfg: Config, c: Cid, did: string, ops: Changes, store: BlockStore, ghost m: Entries)
    returns (r: Result<Cid>)
    requires MapDenotes(cfg, c, m)
    modifies store
    ensures old(store.held) <= store.held
    ensures r.Err? ==> StorageError(r.error)
    ensures r.Ok? ==> AppliedSection(cfg, c, m, did, ops, r.value) && SectionHeld(store.held, c, ops, r.value)
    ensures CanChange(cfg, old(store.held), c, m, ops) ==> r.Ok?
    ensures MapPresent(old(store.held), c) && r.Ok? ==> MapPresent(store.held, r.value)
    ensures r.Ok? ==> OnlyNodesBut(old(store.held), store.held, MapWritten(ops, r.value))
  {
    if |ops| == 0 {
      return Ok(c);
    }
    r := ApplyWithCid(cfg, c, did, ops, store, m);
    if r.Ok? {
      MapPresentMonotone(old(store.held), store.held, c);
    }
  }

  ghost function AddressBookWritten(ops: Changes, ab: Cid): set<Cid>
    requires ab.block.AddressBookBlock?
  {
    MapWritten(ops, ab.block.identities) + if ops == [] then {} else {ab}
  }

  ghost function AuthorityWritten(delegations: Changes, revocations: Changes, auth: Cid): set<Cid>
    requires auth.block.AuthorityBlock?
  {
    MapWritten(delegations, auth.block.delegations) + MapWritten(revocations, auth.block.revocations)
    + if delegations == [] && revocations == [] then {} else {auth}
  }

  method ApplyAddressBook(cfg: Config, ab: Cid, did: string, ops: Changes, store: BlockStore, ghost m: Entries)
    returns (r: Result<Cid>)
    requires ab.block.AddressBookBlock? && MapDenotes(cfg, ab.block.identities, m)
    modifies store
    ensures old(store.held) <= store.held
    ensures r.Err? ==> StorageError(r.error)
    ensures r.Ok? ==> r.value.block.AddressBookBlock?
    ensures r.Ok? ==> AppliedSection(cfg, ab.block.identities, m, did, ops, r.value.block.identities)
    ensures r.Ok? ==> SectionHeld(store.held, ab.block.identities, ops, r.value.block.identities)
    ensures r.Ok? && ops != [] ==> ab in old(store.held) && r.value in store.held
    ensures CanChange(cfg, old(store.held), ab.block.identities, m, ops) && (ops != [] ==> ab in old(store.held)) ==>
              r.Ok?
    ensures ab in old(store.held) && MapPresent(old(store.held), ab.block.identities) && r.Ok? ==>
              r.value in store.held && MapPresent(store.held, r.value.block.identities)
    ensures r.Ok? ==> OnlyNodesBut(old(store.held), store.held, AddressBookWritten(ops, r.value))
  {
    if |ops| == 0 {
      return Ok(ab);
    }
    var addressBook := store.Load(ab);
    if addressBook.Err? {
      return Err(addressBook.error);
    }
    var identities := ApplySection(cfg, addressBook.value.identities, did, ops, store, m);
    if identities.Err? {
      return identities;
    }
    ghost var held := store.held;
    var cid := store.Save(AddressBookBlock(identities.value));
    OnlyNodesTogether(old(store.held), held, store.held, MapWritten(ops, identities.value), {cid});
    MapPresentMonotone(held, store.held, identities.value);
    SectionMonotone(held, store.held, ab.block.identities, ops, identities.value);
    return Ok(cid);
  }

  method ApplyAuthority(cfg: Config, auth: Cid, did: string, delegations: Changes, revocations: Changes,
                        store: BlockStore, ghost dm: Entries, ghost rm: Entries)
    returns (r: Result<Cid>)
    requires auth.block.AuthorityBlock?
    requires MapDenotes(cfg, auth.block.delegations, dm) && MapDenotes(cfg, auth.block.revocations, rm)
    modifies store
    ensures old(store.held) <= store.held
    ensures r.Err? ==> StorageError(r.error)
    ensures r.Ok? ==> r.value.block.AuthorityBlock?
    ensures r.Ok? ==> AppliedSection(cfg, auth.block.delegations, dm, did, delegations, r.value.block.delegations)
    ensures r.Ok? ==> AppliedSection(cfg, auth.block.revocations, rm, did, revocations, r.value.block.revocations)
    ensures r.Ok? ==> SectionHeld(store.held, auth.block.delegations, delegations, r.value.block.delegations)
    ensures r.Ok? ==> SectionHeld(store.held, auth.block.revocations, revocations, r.value.block.revocations)
    ensures r.Ok? && (delegations != [] || revocations != []) ==> auth in old(store.held) && r.value in store.held
    ensures && CanChange(cfg, old(store.held), auth.block.delegations, dm, delegations)
            && CanChange(cfg, old(store.held), auth.block.revocations, rm, revocations)
            && (delegations != [] || revocations != [] ==> auth in old(store.held)) ==>
              r.Ok?
    ensures && auth in old(store.held)
            && MapPresent(old(store.held), auth.block.delegations)
            && MapPresent(old(store.held), auth.block.revocations) && r.Ok? ==>
              && r.value in store.held
              && MapPresent(store.held, r.value.block.delegations) && MapPresent(store.held, r.value.block.revocations)
    ensures r.Ok? ==>
              OnlyNodesBut(old(store.held), store.held, AuthorityWritten(delegations, revocations, r.value))
  {
    if |delegations| == 0 && |revocations| == 0 {
      return Ok(auth);
    }
    var authority := store.Load(auth);
    if authority.Err? {
      return Err(authority.error);
    }
    var d := ApplySection(cfg, authority.value.delegations, did, delegations, store, dm);
    if d.Err? {
      return d;
    }
    ghost var held := store.held;
    MapPresentMonotone(old(store.held), held, auth.block.revocations);
    var v := ApplySection(cfg, authority.value.revocations, did, revocations, store, rm);
    if v.Err? {
      return v;
    }
    ghost var held' := store.held;
    var cid := store.Save(AuthorityBlock(d.value, v.value));
    OnlyNodesTogether(old(store.held), held, held', MapWritten(delegations, d.value), MapWritten(revocations, v.value));
    OnlyNodesTogether(old(store.held), held', store.held,
                      MapWritten(delegations, d.value) + MapWritten(revocations, v.value), {cid});
    MapPresentMonotone(held, store.held, d.value);
    MapPresentMonotone(held', store.held, v.value);
    SectionMonotone(held, store.held, auth.block.delegations, delegations, d.value);
    SectionMonotone(held', store.held, auth.block.revocations, revocations, v.value);
    return Ok(cid);
  }

  lemma AssembledBody(cfg: Config, b: Cid, maps: Four<Entries>, did: string, changes: Four<Changes>, b': Cid)
    requires Skeleton(b) && Skeleton(b')
    requires b'.block.identity == b.block.identity && b'.block.private == b.block.private
    requires AppliedSection(cfg, b.block.content, maps.content, did, changes.content, b'.block.content)
    requires AppliedSection(cfg, b.block.addressBook.block.identities, maps.identities, did, changes.identities,
                            b'.block.addressBook.block.identities)
    requires AppliedSection(cfg, b.block.authority.block.delegations, maps.delegations, did, changes.delegations,
                            b'.block.authority.block.delegations)
    requires AppliedSection(cfg, b.block.authority.block.revocations, maps.revocations, did, changes.revocations,
                            b'.block.authority.block.revocations)
    ensures AppliedBody(cfg, b, maps, did, changes, b')
  {
    forall s
      ensures AppliedSection(cfg, MapCids(b).At(s), maps.At(s), did, changes.At(s), MapCids(b').At(s))
    {
      match s {
        case Content =>
        case Identities =>
        case Delegations =>
        case Revocations =>
      }
    }
  }

  lemma AssembledPresence(held: set<Cid>, b: Cid)
    requires Skeleton(b) && b in held && b.block.addressBook in held && b.block.authority in held
    requires MapPresent(held, b.block.content) && MapPresent(held, b.block.addressBook.block.identities)
    requires MapPresent(held, b.block.authority.block.delegations)
    requires MapPresent(held, b.block.authority.block.revocations)
    ensures BodyPresent(held, b)
  {
    forall s
      ensures MapPresent(held, MapCids(b).At(s))
    {
      match s {
        case Content =>
        case Identities =>
        case Delegations =>
        case Revocations =>
      }
    }
  }

  lemma PresentSections(held: set<Cid>, b: Cid)
    requires Skeleton(b) && BodyPresent(held, b)
    ensures MapPresent(held, b.block.content) && MapPresent(held, b.block.addressBook.block.identities)
    ensures MapPresent(held, b.block.authority.block.delegations)
    ensures MapPresent(held, b.block.authority.block.revocations)
  {
    assert MapPresent(held, MapCids(b).At(Content)) && MapPresent(held, MapCids(b).At(Identities));
    assert MapPresent(held, MapCids(b).At(Delegations)) && MapPresent(held, MapCids(b).At(Revocations));
  }

  /** The blocks that lead to the maps that change. */
  ghost predicate LeadsHeld(held: set<Cid>, b: Cid, changes: Four<Changes>)
    requires Skeleton(b)
  {
    && b in held
    && (changes.identities != [] ==> b.block.addressBook in held)
    && (changes.delegations != [] || changes.revocations != [] ==> b.block.authority in held)
  }

  /** Nothing stands in the way of applying `changes`: the maps they change are complete and no
      four keys would collide. */
  ghost predicate CanApply(cfg: Config, held: set<Cid>, b: Cid, maps: Four<Entries>, changes: Four<Changes>)
    requires Skeleton(b)
  {
    LeadsHeld(held, b, changes) && forall s :: CanChange(cfg, held, MapCids(b).At(s), maps.At(s), changes.At(s))
  }

  lemma ChangeableSections(cfg: Config, held: set<Cid>, b: Cid, maps: Four<Entries>, changes: Four<Changes>)
    requires Skeleton(b) && CanApply(cfg, held, b, maps, changes)
    ensures CanChange(cfg, held, b.block.content, maps.content, changes.content)
    ensures CanChange(cfg, held, b.block.addressBook.block.identities, maps.identities, changes.identities)
    ensures CanChange(cfg, held, b.block.authority.block.delegations, maps.delegations, changes.delegations)
    ensures CanChange(cfg, held, b.block.authority.block.revocations, maps.revocations, changes.revocations)
  {
    assert CanChange(cfg, held, MapCids(b).At(Content), maps.At(Content), changes.At(Content));
    assert CanChange(cfg, held, MapCids(b).At(Identities), maps.At(Identities), changes.At(Identities));
    assert CanChange(cfg, held, MapCids(b).At(Delegations), maps.At(Delegations), changes.At(Delegations));
    assert CanChange(cfg, held, MapCids(b).At(Revocations), maps.At(Revocations), changes.At(Revocations));
  }

  lemma StillChangeable(cfg: Config, held: set<Cid>, more: set<Cid>, c: Cid, m: Entries, ops: Changes)
    requires held <= more && CanChange(cfg, held, c, m, ops)
    ensures CanChange(cfg, more, c, m, ops)
  {
    MapPresentMonotone(held, more, c);
  }

  /** What applying changes has read and written is held: of the old body and the new one the
      blocks that lead to the changed maps, and those maps down to their HAMT roots. */
  ghost predicate AppliedHeld(held: set<Cid>, b: Cid, changes: Four<Changes>, b': Cid)
    requires Skeleton(b) && Skeleton(b')
  {
    && LeadsHeld(held, b, changes) && LeadsHeld(held, b', changes)
    && forall s :: SectionHeld(held, MapCids(b).At(s), changes.At(s), MapCids(b').At(s))
  }

  lemma AppliedHeldMonotone(held: set<Cid>, more: set<Cid>, b: Cid, changes: Four<Changes>, b': Cid)
    requires held <= more && Skeleton(b) && Skeleton(b') && AppliedHeld(held, b, changes, b')
    ensures AppliedHeld(more, b, changes, b')
  {
    forall s
      ensures SectionHeld(more, MapCids(b).At(s), changes.At(s), MapCids(b').At(s))
    {
      SectionMonotone(held, more, MapCids(b).At(s), changes.At(s), MapCids(b').At(s));
    }
  }

  lemma AssembledHeld(held: set<Cid>, b: Cid, changes: Four<Changes>, b': Cid)
    requires Skeleton(b) && Skeleton(b') && LeadsHeld(held, b, changes) && LeadsHeld(held, b', changes)
    requires SectionHeld(held, b.block.content, changes.content, b'.block.content)
    requires SectionHeld(held, b.block.addressBook.block.identities, changes.identities,
                         b'.block.addressBook.block.identities)
    requires SectionHeld(held, b.block.authority.block.delegations, changes.delegations,
                         b'.block.authority.block.delegations)
    requires SectionHeld(held, b.block.authority.block.revocations, changes.revocations,
                         b'.block.authority.block.revocations)
    ensures AppliedHeld(held, b, changes, b')
  {
    forall s
      ensures SectionHeld(held, MapCids(b).At(s), changes.At(s), MapCids(b').At(s))
    {
      match s {
        case Content =>
        case Identities =>
        case Delegations =>
        case Revocations =>
      }
    }
  }

  /** The blocks written for a changed body, besides HAMT nodes and itself. */
  ghost function BodyWritten(changes: Four<Changes>, b: Cid): set<Cid>
    requires Skeleton(b)
  {
    MapWritten(changes.content, b.block.content) + AddressBookWritten(changes.identities, b.block.addressBook)
    + AuthorityWritten(changes.delegations, changes.revocations, b.block.authority)
  }

  /** The new sphere block, before it is saved. */
  method ApplyToBody(cfg: Config, b: Cid, did: string, changes: Four<Changes>, store: BlockStore,
                     ghost maps: Four<Entries>)
    returns (r: Result<Block>)
    requires BodyDenotes(cfg, b, maps)
    modifies store
    ensures old(store.held) <= store.held
    ensures r.Err? ==> StorageError(r.error)
    ensures r.Ok? ==> b in old(store.held) && AppliedBody(cfg, b, maps, did, changes, Cid(r.value))
    ensures r.Ok? ==> AppliedHeld(store.held + {Cid(r.value)}, b, changes, Cid(r.value))
    ensures CanApply(cfg, old(store.held), b, maps, changes) ==> r.Ok?
    ensures BodyPresent(old(store.held), b) && r.Ok? ==> BodyPresent(store.held + {Cid(r.value)}, Cid(r.value))
    ensures r.Ok? ==> OnlyNodesBut(old(store.held), store.held, BodyWritten(changes, Cid(r.value)))
  {
    var loaded := store.Load(b);
    if loaded.Err? {
      return loaded;
    }
    var sphere := loaded.value;
    BodySections(cfg, b, maps);
    ghost var can := CanApply(cfg, store.held, b, maps, changes);
    ghost var present := BodyPresent(store.held, b);
    if can {
      ChangeableSections(cfg, store.held, b, maps, changes);
    }
    if present {
      PresentSections(store.held, b);
    }
    var content := ApplySection(cfg, sphere.content, did, changes.content, store, maps.content);
    if content.Err? {
      return Err(content.error);
    }
    ghost var held1 := store.held;
    if can {
      StillChangeable(cfg, old(store.held), held1, sphere.addressBook.block.identities, maps.identities,
                      changes.identities);
    }
    MapPresentMonotone(old(store.held), held1, sphere.addressBook.block.identities);
    var addressBook := ApplyAddressBook(cfg, sphere.addressBook, did, changes.identities, store, maps.identities);
    if addressBook.Err? {
      return Err(addressBook.error);
    }
    ghost var held2 := store.held;
    if can {
      StillChangeable(cfg, old(store.held), held2, sphere.authority.block.delegations, maps.delegations,
                      changes.delegations);
      StillChangeable(cfg, old(store.held), held2, sphere.authority.block.revocations, maps.revocations,
                      changes.revocations);
    }
    MapPresentMonotone(old(store.held), held2, sphere.authority.block.delegations);
    MapPresentMonotone(old(store.held), held2, sphere.authority.block.revocations);
    var authority := ApplyAuthority(cfg, sphere.authority, did, changes.delegations, changes.revocations, store,
                                    maps.delegations, maps.revocations);
    if authority.Err? {
      return Err(authority.error);
    }
    r := Ok(SphereBlock(sphere.identity, content.value, addressBook.value, authority.value, sphere.private));
    AssembledBody(cfg, b, maps, did, changes, Cid(r.value));
    ghost var all := store.held + {Cid(r.value)};
    SectionMonotone(held1, all, b.block.content, changes.content, content.value);
    SectionMonotone(held2, all, b.block.addressBook.block.identities, changes.identities,
                    addressBook.value.block.identities);
    SectionMonotone(store.held, all, b.block.authority.block.delegations, changes.delegations,
                    authority.value.block.delegations);
    SectionMonotone(store.held, all, b.block.authority.block.revocations, changes.revocations,
                    authority.value.block.revocations);
    AssembledHeld(all, b, changes, Cid(r.value));
    OnlyNodesTogether(old(store.held), held1, held2, MapWritten(changes.content, content.value),
                      AddressBookWritten(changes.identities, addressBook.value));
    OnlyNodesTogether(old(store.held), held2, store.held,
                      MapWritten(changes.content, content.value)
                      + AddressBookWritten(changes.identities, addressBook.value),
                      AuthorityWritten(changes.delegations, changes.revocations, authority.value));
    if present {
      MapPresentMonotone(held1, all, content.value);
      MapPresentMonotone(held2, all, addressBook.value.block.identities);
      MapPresentMonotone(store.held, all, authority.value.block.delegations);
      MapPresentMonotone(store.held, all, authority.value.block.revocations);
      AssembledPresence(all, Cid(r.value));
    }
  }

  /** `Sphere::apply_mutation_with_cid`: a new unsigned memo on top of `cid` whose body is
      the changed sphere. */
  method ApplyMutation(cfg: Config, cid: Cid, mutation: SphereMutation, store: BlockStore, ghost maps: Four<Entries>)
    returns (r: Result<Memo>)
    requires cid.block.MemoBlock? && BodyDenotes(cfg, cid.block.body, maps)
    modifies store
    ensures old(store.held) <= store.held
    ensures r.Err? ==> StorageError(r.error)
    ensures r.Ok? ==> fresh(r.value) && r.value.parent == Some(cid)
    ensures r.Ok? ==> AppliedBody(cfg, cid.block.body, maps, mutation.did, mutation.changes, r.value.body)
    ensures r.Ok? ==> r.value.headers == BranchedHeaders(cid.block.headers)
    ensures r.Ok? ==> cid in old(store.held) && cid.block.body in old(store.held)
    ensures r.Ok? ==> AppliedHeld(store.held, cid.block.body, mutation.changes, r.value.body)
    ensures cid in old(store.held) && CanApply(cfg, old(store.held), cid.block.body, maps, mutation.changes) ==> r.Ok?
    ensures BodyPresent(old(store.held), cid.block.body) && r.Ok? ==> BodyPresent(store.held, r.value.body)
    ensures r.Ok? ==>
              OnlyNodesBut(old(store.held), store.held, BodyWritten(mutation.changes, r.value.body) + {r.value.body})
  {
    r := Memo.BranchFrom(cid, store);
    if r.Err? {
      return;
    }
    var memo := r.value;
    var sphere := ApplyToBody(cfg, memo.body, mutation.did, mutation.changes, store, maps);
    if sphere.Err? {
      return Err(sphere.error);
    }
    memo.body := store.Save(sphere.value);
  }

  /** `SphereRevision::sign`: signs the memo and saves it as a revision. */
  method SignRevision(memo: Memo, credential: Credential, store: BlockStore) returns (cid: Cid)
    modifies memo, store
    ensures cid.block.MemoBlock? && cid.block.parent == old(memo.parent) && cid.block.body == old(memo.body)
    ensures cid.block.headers == SignedBy(old(memo.headers), credential, cid.block.body)
    ensures SignerHeaders(cid.block.headers, credential, cid.block.body)
    ensures AuthorOf(cid) == Some(credential.did)
    ensures store.held == old(store.held) + {cid}
  {
    SignedAuthor(memo.headers, credential, memo.body);
    memo.Sign(credential);
    cid := store.Save(memo.Block());
  }
}
