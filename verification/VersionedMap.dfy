/** Versioned maps: a HAMT root paired with the changelog that produced it. */
module VersionedMaps {
  import opened Wrappers
  import opened Pairs
  import opened Blocks
  import opened Trie
  import opened Canonical
  import opened Nodes
  import opened NodeFlush
  import opened Hamts
  import opened Mutations

  /** The CID of a map with the given HAMT root and changelog. */
  function MapCid(hamt: Cid, did: Option<string>, ops: Changes): Cid
  {
    Cid(MapBlock(hamt, Cid(ChangelogBlock(did, ops))))
  }

  predicate MapShape(c: Cid)
  {
    c.block.MapBlock? && c.block.changelog.block.ChangelogBlock?
  }

  /** The CID names a versioned map with entries `m`. */
  ghost predicate MapDenotes(cfg: Config, c: Cid, m: Entries)
  {
    MapShape(c) && RootDenotes(cfg, c.block.hamt, m)
  }

  /** The map block and its changelog are held. */
  ghost predicate MapSparse(held: set<Cid>, c: Cid)
  {
    c in held && (c.block.MapBlock? ==> c.block.changelog in held)
  }

  /** The map block, its changelog and every HAMT node are held. */
  ghost predicate MapPresent(held: set<Cid>, c: Cid)
  {
    MapSparse(held, c) && (c.block.MapBlock? ==> CidPresent(held, c.block.hamt))
  }

  /** The map block, its changelog and the root of its HAMT are held. */
  ghost predicate MapRooted(held: set<Cid>, c: Cid)
  {
    c.block.MapBlock? && MapSparse(held, c) && c.block.hamt in held
  }

  /** All that came in are HAMT nodes and the blocks named. */
  ghost predicate OnlyNodesBut(held: set<Cid>, more: set<Cid>, named: set<Cid>)
  {
    forall c | c in more && c !in held :: c.block.NodeBlock? || c in named
  }

  lemma OnlyNodesTogether(held: set<Cid>, more: set<Cid>, most: set<Cid>, first: set<Cid>, second: set<Cid>)
    requires OnlyNodesBut(held, more, first) && OnlyNodesBut(more, most, second)
    ensures OnlyNodesBut(held, most, first + second)
  {}

  /** The blocks written for a changed map, besides HAMT nodes. */
  ghost function MapWritten(ops: Changes, c: Cid): set<Cid>
  {
    if ops == [] then {} else if c.block.MapBlock? then {c, c.block.changelog} else {c}
  }

  lemma MapPresentMonotone(held: set<Cid>, more: set<Cid>, c: Cid)
    requires held <= more
    ensures MapSparse(held, c) ==> MapSparse(more, c)
    ensures MapPresent(held, c) ==> MapPresent(more, c)
  {
    if MapPresent(held, c) && c.block.MapBlock? {
      CidPresentMonotone(held, more, c.block.hamt);
    }
  }

  lemma MapEntriesUnique(cfg: Config, c: Cid, m: Entries, c': Cid, m': Entries)
    requires MapDenotes(cfg, c, m) && MapDenotes(cfg, c', m')
    ensures c.block.hamt == c'.block.hamt <==> m == m'
  {
    RootCidCharacterizesMap(cfg, c.block.hamt, m, c'.block.hamt, m');
  }

  ghost function AddedKeys(ops: Changes): set<Key>
  {
    set i | 0 <= i < |ops| && ops[i].Add? :: ops[i].key
  }

  /** `VersionedMapIpld::empty`, saved. */
  method Empty(cfg: Config, store: BlockStore) returns (cid: Cid)
    modifies store
    ensures old(store.held) <= store.held
    ensures cid.block.MapBlock? && cid == MapCid(cid.block.hamt, None, [])
    ensures MapDenotes(cfg, cid, map[]) && MapPresent(store.held, cid)
  {
    var hamt := new Hamt(store, cfg);
    ghost var before := store.held;
    var changelogCid := store.Save(ChangelogBlock(None, []));
    NodePresentMonotone(before, store.held, hamt.root);
    var hamtCid := hamt.Flush();
    ghost var held := store.held;
    cid := store.Save(MapBlock(hamtCid.value, changelogCid));
    CidPresentMonotone(held, store.held, hamtCid.value);
  }

  /** Performs one recorded change on a HAMT. */
  method Change(h: Hamt, op: MapOperation) returns (r: Result<()>)
    requires h.Denotes()
    modifies h
    ensures r.Ok? ==> h.Denotes() && h.contents == ApplyOp(old(h.contents), op)
    ensures r.Ok? && old(h.Complete()) ==> h.Complete()
    ensures r.Err? ==> StorageError(r.error)
    ensures old(h.Complete()) && (op.Add? ==> NoCollision(h.cfg, old(h.contents).Keys + {op.key}, 0)) ==> r.Ok?
  {
    match op {
      case Add(key, value) =>
        var out := h.Insert(key, value, true);
        if out.Err? {
          return Err(out.error);
        }
      case Remove(key) =>
        var out := h.Delete(key);
        if out.Err? {
          return Err(out.error);
        }
    }
    return Ok(());
  }

  lemma KeysAfter(m: Entries, ops: Changes, i: nat, keys: set<Key>)
    requires i < |ops| && m.Keys <= keys && AddedKeys(ops) <= keys
    ensures ApplyOp(m, ops[i]).Keys <= keys
    ensures ops[i].Add? ==> m.Keys + {ops[i].key} <= keys
  {
    if ops[i].Add? {
      assert ops[i].key in AddedKeys(ops);
    }
  }

  /** Replays changes on a HAMT, one at a time. */
  method Replay(h: Hamt, ops: Changes) returns (r: Result<()>)
    requires h.Denotes()
    modifies h
    ensures r.Ok? ==> h.Denotes() && h.contents == ApplyOps(old(h.contents), ops)
    ensures r.Ok? && old(h.Complete()) ==> h.Complete()
    ensures r.Err? ==> StorageError(r.error)
    ensures old(h.Complete()) && NoCollision(h.cfg, old(h.contents).Keys + AddedKeys(ops), 0) ==> r.Ok?
  {
    ghost var m := h.contents;
    ghost var keys := m.Keys + AddedKeys(ops);
    for i := 0 to |ops|
      invariant h.Denotes() && h.contents == ApplyUpTo(m, ops, i) && h.contents.Keys <= keys
      invariant old(h.Complete()) ==> h.Complete()
    {
      KeysAfter(h.contents, ops, i, keys);
      if ops[i].Add? && NoCollision(h.cfg, keys, 0) {
        FewerKeys(h.cfg, h.contents.Keys + {ops[i].key}, keys);
      }
      var done := Change(h, ops[i]);
      if done.Err? {
        return done;
      }
    }
    return Ok(());
  }

  /** `VersionedMap::apply_with_cid`: the new map block has the changed entries and a
      changelog with exactly these changes and their author. */
  method ApplyWithCid(cfg: Config, cid: Cid, did: string, ops: Changes, store: BlockStore, ghost m: Entries)
    returns (r: Result<Cid>)
    requires MapDenotes(cfg, cid, m)
    modifies store
    ensures old(store.held) <= store.held
    ensures r.Ok? ==> r.value.block.MapBlock? && r.value == MapCid(r.value.block.hamt, Some(did), ops)
    ensures r.Ok? ==> MapDenotes(cfg, r.value, ApplyOps(m, ops))
    ensures r.Err? ==> StorageError(r.error)
    ensures r.Ok? ==> MapRooted(old(store.held), cid) && MapRooted(store.held, r.value)
    ensures MapPresent(old(store.held), cid) && NoCollision(cfg, m.Keys + AddedKeys(ops), 0) ==> r.Ok?
    ensures MapPresent(old(store.held), cid) && r.Ok? ==> MapPresent(store.held, r.value)
    ensures r.Ok? ==> OnlyNodesBut(old(store.held), store.held, {r.value, r.value.block.changelog})
  {
    var ipld := store.Load(cid);
    if ipld.Err? {
      return Err(ipld.error);
    }
    var changelog := store.Load(ipld.value.changelog);
    if changelog.Err? {
      return Err(changelog.error);
    }
    var loaded := Hamt.Load(ipld.value.hamt, store, cfg, m);
    if loaded.Err? {
      return Err(loaded.error);
    }
    var hamt := loaded.value;
    var replayed := Replay(hamt, ops);
    if replayed.Err? {
      return Err(replayed.error);
    }
    ghost var complete := hamt.Complete();
    ghost var before := store.held;
    var changelogCid := store.Save(ChangelogBlock(Some(did), ops));
    if complete {
      NodePresentMonotone(before, store.held, hamt.root);
    }
    ghost var dirty := DirtyCids(hamt.root);
    forall c | c in dirty
      ensures c.block.NodeBlock?
    {
      DirtyAreNodes(hamt.root, c);
    }
    var hamtCid := hamt.Flush();
    ghost var held := store.held;
    var mapCid := store.Save(MapBlock(hamtCid.value, changelogCid));
    if complete {
      CidPresentMonotone(held, store.held, hamtCid.value);
    }
    return Ok(mapCid);
  }
}
