/** Histories in which a rebase, as it is written, loses a change or a mutation. */
module RebaseFailures {
  import opened Wrappers
  import opened Pairs
  import opened Blocks
  import opened Trie
  import opened Canonical
  import Nodes
  import opened Mutations
  import opened Memos
  import opened Timelines
  import opened VersionedMaps
  import opened Histories
  import opened SphereDerive
  import opened SphereHydrate
  import opened Rebases
  import opened SphereRebase
  import opened SphereRuns

  /** One addition to the content map. */
  function SetContent(k: Key, v: Value): Four<Changes>
  {
    Put(NO_CHANGES, Content, [Add(k, v)])
  }

  lemma ContentSet(maps: Four<Entries>, k: Key, v: Value, keys: Four<set<Key>>)
    requires k in keys.content
    ensures ApplyAll(maps, SetContent(k, v)).content == maps.content[k := v]
    ensures ChangesWithin(SetContent(k, v), keys)
  {
    var ops := [Add(k, v)];
    assert ApplyUpTo(maps.content, ops, 0) == maps.content;
    forall s
      ensures AddedKeys(SetContent(k, v).At(s)) <= keys.At(s)
    {}
  }

  lemma ContentReset(maps: Four<Entries>, k: Key, v: Value, w: Value, keys: Four<set<Key>>)
    requires k in keys.content && maps.content == map[k := v]
    ensures ApplyAll(maps, SetContent(k, w)).content == map[k := w]
    ensures ChangesWithin(SetContent(k, w), keys)
  {
    ContentSet(maps, k, w, keys);
    assert map[k := v][k := w] == map[k := w];
  }

  ghost function KeysOf(k: Key, l: Key, delegation: Key): Four<set<Key>>
  {
    Four({k, l}, {}, {delegation}, {})
  }

  lemma KeysAreSafe(cfg: Config, k: Key, l: Key, delegation: Key)
    ensures SafeKeys(cfg, KeysOf(k, l, delegation))
  {
    forall s
      ensures NoCollision(cfg, KeysOf(k, l, delegation).At(s), 0)
    {
      Nodes.FewKeysDoNotCollide(cfg, KeysOf(k, l, delegation).At(s), 0);
    }
  }

  lemma StaysHealthy(cfg: Config, held: set<Cid>, more: set<Cid>, tip: Cid, keys: Four<set<Key>>)
    requires Healthy(cfg, held, tip, keys) && held <= more
    ensures Healthy(cfg, more, tip, keys)
  {
    forall c | c in Ancestry(tip)
      ensures Settled(cfg, more, c, keys)
    {
      assert Settled(cfg, held, c, keys);
      RevisionMonotone(held, more, c);
    }
  }

  /** One revision on a healthy one can be rebased, and rebased onto. */
  lemma OneRevisionIsReady(cfg: Config, held: set<Cid>, tip: Cid, past: Cid, keys: Four<set<Key>>)
    requires Healthy(cfg, held, tip, keys) && tip.block.parent.Some? && (past == tip || tip.block.parent == Some(past))
    ensures Slice(tip, Some(past), true) == [tip] && RangeReady(cfg, held, [tip], keys)
  {
    var parent := tip.block.parent.value;
    AncestryEnds(tip);
    AncestryEnds(parent);
    HealthyAncestor(cfg, held, tip, parent, keys);
    HealthyTip(cfg, held, parent, keys);
    assert Settled(cfg, held, tip, keys);
    RevisionMonotone(held, held, tip);
  }

  /** A key with a new value is touched, and the last operation on it gives that value. */
  lemma NewValueIsTouched(cfg: Config, cid: Cid, k: Key, v: Value)
    requires WellFormed(cfg, cid) && cid.block.parent.Some?
    requires Lookup(RevisionMaps(cfg, cid).content, k) == Some(v)
    requires Lookup(RevisionMaps(cfg, cid.block.parent.value).content, k) != Some(v)
    ensures Touches(Derived(cid).content, k) && LastEffect(Derived(cid).content, k) == Some(v)
  {
    LastOperationWins(RevisionMaps(cfg, cid.block.parent.value).content, Derived(cid).content, k);
  }

  lemma OneRebased(cfg: Config, newBase: Cid, item: Cid, did: string, outs: seq<Cid>)
    requires IsRevision(cfg, newBase) && Rebased(cfg, newBase, [item], did, outs)
    ensures |outs| == 1 && RebaseStep(cfg, newBase, item, did, outs[0]) && IsRevision(cfg, outs[0])
    ensures RevisionMaps(cfg, outs[0]) == ApplyAll(RevisionMaps(cfg, newBase), Derived(item))
  {
    assert StepAt(cfg, newBase, [item], did, outs, 0);
    StepMaps(cfg, newBase, item, did, outs[0]);
  }

  /** Another author's new value for `k` is kept, and its revision cannot be derived. */
  lemma ForeignValue(cfg: Config, newBase: Cid, item: Cid, did: string, out: Cid, k: Key, v: Value)
    requires RebaseStep(cfg, newBase, item, did, out) && AuthorOf(item).value != did
    requires Touches(Derived(item).content, k) && LastEffect(Derived(item).content, k) == Some(v)
    requires k !in RevisionMaps(cfg, newBase).content
    ensures IsRevision(cfg, out) && Lookup(RevisionMaps(cfg, out).content, k) == Some(v)
    ensures StepShape(out) && !Derivable(out)
    ensures DeriveFault(newBase.block.body, out.block.body, did) == Some(UnexpectedAuthor)
  {
    StepMaps(cfg, newBase, item, did, out);
    LastOperationWins(RevisionMaps(cfg, newBase).content, Derived(item).content, k);
    ForeignChangeIsNotDerivable(cfg, newBase, item, did, out, Content, k);
    ForeignFault(cfg, newBase, item, did, out);
  }

  lemma CompleteIsSparse(cfg: Config, held: set<Cid>, base: Cid, out: Cid, keys: Four<set<Key>>)
    requires Healthy(cfg, held, base, keys) && ParentComplete(cfg, held, out, keys) && out.block.parent == Some(base)
    ensures StepShape(out) && StepSparse(held, out)
  {
    HealthyTip(cfg, held, base, keys);
    RevisionMonotone(held, held, out);
  }

  /** Two authors change a sphere side by side. The owner rebases the other's revision onto
      their own: the rebase succeeds and keeps the change, and after it the mutation of the
      rebased revision is refused. */
  method ForeignRevisionIsRefused(cfg: Config, owner: Credential, other: Credential, delegation: Key, jwt: Value,
                                  k: Key, v: Value, l: Key, w: Value, store: BlockStore)
    returns (rebased: Cid, derived: Result<SphereMutation>)
    requires owner.did != other.did && k != l
    modifies store
    ensures IsRevision(cfg, rebased) && Lookup(RevisionMaps(cfg, rebased).content, k) == Some(v)
    ensures derived == Err(UnexpectedAuthor)
  {
    ghost var keys := KeysOf(k, l, delegation);
    KeysAreSafe(cfg, k, l, delegation);
    var base := Generate(cfg, owner, delegation, jwt, store, keys);
    ghost var maps := RevisionMaps(cfg, base.value);
    ContentSet(maps, k, v, keys);
    ContentSet(maps, l, w, keys);
    ghost var held := store.held;
    var local := EditTip(cfg, base.value, SetContent(k, v), other, store, keys);
    StaysHealthy(cfg, held, store.held, base.value, keys);
    held := store.held;
    var remote := EditTip(cfg, base.value, SetContent(l, w), owner, store, keys);
    StaysHealthy(cfg, held, store.held, local, keys);
    OneRevisionIsReady(cfg, store.held, local, base.value, keys);
    OneRevisionIsReady(cfg, store.held, remote, base.value, keys);
    held := store.held;
    ghost var outs;
    var r;
    LocalRange(cfg, remote, base.value);
    SoundIsGrounded(cfg, Slice(remote, Some(base.value), true));
    r, outs := Rebase(cfg, local, base.value, remote, owner, store, keys);
    rebased := r.value;
    StaysHealthy(cfg, held, store.held, remote, keys);
    OneRebased(cfg, remote, local, owner.did, outs);
    NewValueIsTouched(cfg, local, k, v);
    ForeignValue(cfg, remote, local, owner.did, rebased, k, v);
    CompleteIsSparse(cfg, store.held, remote, rebased, keys);
    derived := DeriveMutation(rebased, store);
  }

  /** A new sphere in which `k` gets a value. */
  method OneValue(cfg: Config, owner: Credential, delegation: Key, jwt: Value, k: Key, v: Value, store: BlockStore)
    returns (first: Cid)
    modifies store
    ensures Healthy(cfg, store.held, first, KeysOf(k, k, delegation)) && AuthorOf(first) == Some(owner.did)
    ensures first.block.parent.Some? && IsRevision(cfg, first.block.parent.value)
    ensures RevisionMaps(cfg, first.block.parent.value).content == map[]
    ensures RevisionMaps(cfg, first).content == map[k := v]
  {
    ghost var keys := KeysOf(k, k, delegation);
    KeysAreSafe(cfg, k, k, delegation);
    var base := Generate(cfg, owner, delegation, jwt, store, keys);
    ContentSet(RevisionMaps(cfg, base.value), k, v, keys);
    first := EditTip(cfg, base.value, SetContent(k, v), owner, store, keys);
  }

  /** A sphere in which `k` gets one value and then another. */
  method TwoValues(cfg: Config, owner: Credential, delegation: Key, jwt: Value, k: Key, v: Value, w: Value,
                   store: BlockStore)
    returns (first: Cid, second: Cid)
    modifies store
    ensures Healthy(cfg, store.held, first, KeysOf(k, k, delegation))
    ensures Healthy(cfg, store.held, second, KeysOf(k, k, delegation))
    ensures first.block.parent.Some? && IsRevision(cfg, first.block.parent.value) && second.block.parent == Some(first)
    ensures AuthorOf(first) == Some(owner.did)
    ensures RevisionMaps(cfg, first.block.parent.value).content == map[]
    ensures RevisionMaps(cfg, first).content == map[k := v] && RevisionMaps(cfg, second).content == map[k := w]
  {
    ghost var keys := KeysOf(k, k, delegation);
    first := OneValue(cfg, owner, delegation, jwt, k, v, store);
    ContentReset(RevisionMaps(cfg, first), k, v, w, keys);
    ghost var held := store.held;
    second := EditTip(cfg, first, SetContent(k, w), owner, store, keys);
    StaysHealthy(cfg, held, store.held, first, keys);
  }

  /** An owner without local revisions rebases onto a later remote value: the revision both
      sides share is applied once more and its older value comes back. */
  method LaterValueIsOverwritten(cfg: Config, owner: Credential, delegation: Key, jwt: Value, k: Key, v: Value,
                                 w: Value, store: BlockStore)
    returns (remote: Cid, rebased: Cid)
    requires v != w
    modifies store
    ensures IsRevision(cfg, remote) && RevisionMaps(cfg, remote).content == map[k := w]
    ensures IsRevision(cfg, rebased) && rebased.block.parent == Some(remote)
    ensures Lookup(RevisionMaps(cfg, rebased).content, k) == Some(v)
  {
    ghost var keys := KeysOf(k, k, delegation);
    var shared;
    shared, remote := TwoValues(cfg, owner, delegation, jwt, k, v, w, store);
    OneRevisionIsReady(cfg, store.held, shared, shared, keys);
    OneRevisionIsReady(cfg, store.held, remote, shared, keys);
    ghost var outs;
    var r;
    LocalRange(cfg, remote, shared);
    SoundIsGrounded(cfg, Slice(remote, Some(shared), true));
    r, outs := Rebase(cfg, shared, shared, remote, owner, store, keys);
    rebased := r.value;
    OneRebased(cfg, remote, shared, owner.did, outs);
    NewValueIsTouched(cfg, shared, k, v);
    LastOperationWins(RevisionMaps(cfg, remote).content, Derived(shared).content, k);
  }
}
