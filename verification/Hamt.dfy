/** The HAMT object: a root node over a shared block store, refining a plain map. */
module Hamts {
  import opened Wrappers
  import opened HashBitReader
  import opened Pairs
  import opened Blocks
  import opened Trie
  import opened Canonical
  import opened Nodes
  import opened NodeRemoval
  import opened NodeFlush
  import opened NodeStreams
  import opened SetFailure

  class Hamt {
    var root: Node
    const store: BlockStore
    const cfg: Config
    /** The map the root denotes. */
    ghost var contents: Entries

    ghost predicate Denotes()
      reads this
    {
      NodeDenotes(cfg, root, contents, 0)
    }

    /** Every linked block is in the store. */
    ghost predicate Complete()
      reads this, store
    {
      NodePresent(store.held, root)
    }

    ghost predicate Valid()
      reads this, store
    {
      Denotes() && Complete()
    }

    constructor (store: BlockStore, cfg: Config)
      ensures Valid() && contents == map[]
      ensures this.store == store && this.cfg == cfg
    {
      this.store := store;
      this.cfg := cfg;
      root := EMPTY_NODE;
      contents := map[];
      new;
      EmptyDenotes(cfg, 0);
    }

    /** `Hamt::load_with_bit_width`. */
    static method Load(cid: Cid, store: BlockStore, cfg: Config, ghost m: Entries) returns (r: Result<Hamt>)
      ensures r.Ok? <==> cid in store.held && Decodable(cid.block)
      ensures r.Err? ==> r.error == if cid in store.held then UnexpectedBlock else BlockNotFound
      ensures r.Err? && RootDenotes(cfg, cid, m) ==> r.error == BlockNotFound
      ensures r.Ok? ==> fresh(r.value) && r.value.store == store && r.value.cfg == cfg
      ensures r.Ok? && RootDenotes(cfg, cid, m) ==> r.value.Denotes() && r.value.contents == m
      ensures r.Ok? && RootDenotes(cfg, cid, m) && CidPresent(store.held, cid) ==> r.value.Complete()
    {
      if RootDenotes(cfg, cid, m) {
        OpenRoot(cfg, cid, m);
      }
      var block := store.Load(cid);
      if block.Err? {
        return Err(block.error);
      }
      if !Decodable(block.value) {
        return Err(UnexpectedBlock);
      }
      var h := new Hamt(store, cfg);
      h.root := Deserialized(block.value);
      h.contents := m;
      if RootDenotes(cfg, cid, m) && CidPresent(store.held, cid) {
        LoadedPresent(store.held, cid, h.root);
      }
      return Ok(h);
    }

    /** `Hamt::set_root`. */
    method SetRoot(cid: Cid, ghost m: Entries) returns (r: Result<()>)
      modifies this
      ensures r.Ok? <==> cid in store.held && Decodable(cid.block)
      ensures r.Err? ==> root == old(root) && contents == old(contents)
      ensures r.Ok? && RootDenotes(cfg, cid, m) ==> Denotes() && contents == m
      ensures r.Ok? && RootDenotes(cfg, cid, m) && CidPresent(store.held, cid) ==> Complete()
    {
      if RootDenotes(cfg, cid, m) {
        OpenRoot(cfg, cid, m);
      }
      var block := store.Load(cid);
      if block.Err? {
        return Err(block.error);
      }
      if !Decodable(block.value) {
        return Err(UnexpectedBlock);
      }
      root := Deserialized(block.value);
      contents := m;
      if RootDenotes(cfg, cid, m) && CidPresent(store.held, cid) {
        LoadedPresent(store.held, cid, root);
      }
      return Ok(());
    }

    /** The shared part of `set` and `set_if_absent`: `Node::set`. */
    method Insert(key: Key, value: Value, overwrite: bool) returns (r: Outcome)
      requires Denotes()
      modifies this
      ensures r.Ok? ==> Denotes() && contents == Updated(old(contents), key, value, overwrite)
      ensures r.Ok? ==> r.value == Report(old(contents), key, value, overwrite)
      ensures r.Ok? ==> (r.value.1 <==> contents != old(contents))
      ensures r.Ok? && old(Complete()) ==> Complete()
      ensures r.Ok? ==> NoCollision(cfg, old(contents).Keys + {key}, 0)
      ensures r.Err? ==> contents == old(contents) && (r.error == BlockNotFound || r.error == MaximumDepth)
      ensures r == Err(BlockNotFound) ==> Denotes() && !old(Complete())
      ensures r == Err(MaximumDepth) ==> !NoCollision(cfg, contents.Keys + {key}, 0)
      ensures r == Err(MaximumDepth) ==> FailedInsertion(cfg, old(root), root, contents, key, store.held)
    {
      var n;
      n, r := ModifyValue(cfg, root, New(cfg.hash(key)), key, value, store, overwrite, contents, 0);
      root := n;
      if r.Ok? {
        contents := Updated(contents, key, value, overwrite);
        DenotedHasNoCollision(cfg, root, contents, 0);
        assert contents.Keys == old(contents).Keys + {key};
      } else if r.error == MaximumDepth {
        FailureExplained(cfg, old(root), root, contents, key, store.held);
      }
    }

    /** Inserts or replaces, returning the previous value; with all blocks at hand it fails
        exactly when four keys would share a whole hash. */
    method Set(key: Key, value: Value) returns (r: Result<Option<Value>>)
      requires Denotes()
      modifies this
      ensures r.Ok? ==> Denotes() && contents == old(contents)[key := value] && r.value == Lookup(old(contents), key)
      ensures r.Ok? && old(Complete()) ==> Complete()
      ensures old(Complete()) ==> (r.Ok? <==> NoCollision(cfg, old(contents).Keys + {key}, 0))
      ensures r.Err? ==> contents == old(contents) && (r.error == BlockNotFound || r.error == MaximumDepth)
      ensures r == Err(BlockNotFound) ==> Denotes() && !old(Complete())
      ensures r == Err(MaximumDepth) ==> !NoCollision(cfg, contents.Keys + {key}, 0)
      ensures r == Err(MaximumDepth) ==> FailedInsertion(cfg, old(root), root, contents, key, store.held)
    {
      var out := Insert(key, value, true);
      r := match out case Ok((previous, _)) => Ok(previous) case Err(e) => Err(e);
    }

    /** Inserts only when absent, reporting whether it did; the same failures. */
    method SetIfAbsent(key: Key, value: Value) returns (r: Result<bool>)
      requires Denotes()
      modifies this
      ensures r.Ok? ==> Denotes() && (r.value <==> key !in old(contents))
      ensures r.Ok? ==> contents == if r.value then old(contents)[key := value] else old(contents)
      ensures r.Ok? && old(Complete()) ==> Complete()
      ensures old(Complete()) ==> (r.Ok? <==> NoCollision(cfg, old(contents).Keys + {key}, 0))
      ensures r.Err? ==> contents == old(contents) && (r.error == BlockNotFound || r.error == MaximumDepth)
      ensures r == Err(BlockNotFound) ==> Denotes() && !old(Complete())
      ensures r == Err(MaximumDepth) ==> !NoCollision(cfg, contents.Keys + {key}, 0)
      ensures r == Err(MaximumDepth) ==> FailedInsertion(cfg, old(root), root, contents, key, store.held)
    {
      var out := Insert(key, value, false);
      r := match out case Ok((_, modified)) => Ok(modified) case Err(e) => Err(e);
    }

    method Get(key: Key) returns (r: Result<Option<Value>>)
      requires Denotes()
      modifies this
      ensures Denotes() && contents == old(contents) && (old(Complete()) ==> Complete())
      ensures r.Ok? ==> r.value == Lookup(contents, key)
      ensures r.Err? ==> r.error == BlockNotFound && !old(Complete())
    {
      var n, found := GetValue(cfg, root, New(cfg.hash(key)), key, store, contents, 0);
      root := n;
      r := match found
        case Ok(Some(kv)) => Ok(Some(kv.value))
        case Ok(None) => Ok(None)
        case Err(e) => Err(e);
    }

    method ContainsKey(key: Key) returns (r: Result<bool>)
      requires Denotes()
      modifies this
      ensures Denotes() && contents == old(contents) && (old(Complete()) ==> Complete())
      ensures r.Ok? ==> (r.value <==> key in contents)
      ensures r.Err? ==> r.error == BlockNotFound && !old(Complete())
    {
      var v := Get(key);
      r := if v.Ok? then Ok(v.value.Some?) else Err(v.error);
    }

    /** Removes a key, returning the removed pair. */
    method Delete(key: Key) returns (r: Result<Option<KeyValue>>)
      requires Denotes()
      modifies this
      ensures Denotes() && (old(Complete()) ==> Complete())
      ensures r.Ok? ==> contents == old(contents) - {key}
      ensures r.Ok? ==> r.value == if key in old(contents) then Some(KeyValue(key, old(contents)[key])) else None
      ensures r.Err? ==> r.error == BlockNotFound && contents == old(contents) && !old(Complete())
    {
      var n;
      n, r := RmValue(cfg, root, New(cfg.hash(key)), key, store, contents, 0);
      root := n;
      if r.Ok? {
        contents := contents - {key};
      }
    }

    /** Saves every dirty node and the root, in any state, returning the CID of what the root
        freezes to. For a root that denotes a map it is the CID of that map. */
    method Flush() returns (r: Result<Cid>)
      modifies this, store
      ensures r.Ok? && r.value == Cid(Frozen(old(root))) && Clean(root) && contents == old(contents)
      ensures old(Denotes()) ==> Denotes() && RootDenotes(cfg, r.value, contents)
      ensures store.held == old(store.held) + DirtyCids(old(root)) + {r.value}
      ensures old(Complete()) ==> Complete() && CidPresent(store.held, r.value)
    {
      var n, flushed := NodeFlush.Flush(cfg, root, store);
      root := n;
      var block := Serialize(root);
      ghost var held := store.held;
      var cid := store.Save(block.value);
      ForgottenCaches(cfg, root);
      if NodePresent(held, root) {
        NodePresentMonotone(held, store.held, root);
        SavedPresent(store.held, root);
      }
      r := Ok(cid);
    }

    /** True exactly when there are no entries. */
    method IsEmpty() returns (r: bool)
      requires Denotes()
      ensures r <==> contents == map[]
    {
      NoPointersIffEmpty(cfg, root, contents, 0);
      r := root.pointers == [];
    }

    /** Every entry once, or the part of the listing before the first missing block. */
    method Stream() returns (out: seq<KeyValue>, r: Result<()>)
      requires Denotes()
      modifies this
      ensures Denotes() && contents == old(contents) && (old(Complete()) ==> Complete())
      ensures YieldsUntilGap(store.held, VisitAll(InOrder, old(root).pointers), out, r)
      ensures r.Ok? ==> Enumerates(out, contents)
      ensures r.Err? ==> !old(Complete())
    {
      ghost var n := root;
      var n';
      n', out, r := NodeStreams.Stream(cfg, root, store, contents, 0);
      root := n';
      StreamResult(cfg, n, contents, InOrder, store.held, out, r);
    }

    method IntoStream() returns (out: seq<KeyValue>, r: Result<()>)
      requires Denotes()
      ensures YieldsUntilGap(store.held, VisitAll(Popped, root.pointers), out, r)
      ensures r.Ok? ==> Enumerates(out, contents)
      ensures r.Err? ==> !Complete()
    {
      out, r := NodeStreams.IntoStream(cfg, root, store, contents);
      StreamResult(cfg, root, contents, Popped, store.held, out, r);
    }
  }

  /** A stream that ends has listed every entry exactly once, and one over a complete HAMT
      ends. */
  lemma StreamResult(cfg: Config, n: Node, m: Entries, order: Order, held: set<Cid>, out: seq<KeyValue>, r: Result<()>)
    requires NodeDenotes(cfg, n, m, 0) && YieldsUntilGap(held, VisitAll(order, n.pointers), out, r)
    ensures r.Ok? ==> Enumerates(out, m)
    ensures NodePresent(held, n) ==> r.Ok?
  {
    YieldedWhole(held, VisitAll(order, n.pointers), out, r);
    NodeListing(cfg, n, m, 0);
    PoppedListing(cfg, n, m, 0);
    if NodePresent(held, n) {
      PresentVisits(cfg, held, order, n, m, 0, |n.pointers|);
    }
  }

  /** Adding a key to a complete HAMT with at most two others cannot fail. */
  method SetFew(h: Hamt, key: Key, value: Value)
    requires h.Valid() && |h.contents.Keys + {key}| <= MAX_ARRAY_WIDTH
    modifies h
    ensures h.Valid() && h.contents == old(h.contents)[key := value]
  {
    FewKeysDoNotCollide(h.cfg, h.contents.Keys + {key}, 0);
    var previous := h.Set(key, value);
  }

  /** Three keys and a fourth with one hash: the fourth `set` fails, the other three are no
      longer found, and a flush would not save the map that was there. */
  method LossExample(value: Value) returns (h: Hamt, saved: Result<Cid>, fourth: Result<Option<Value>>)
    ensures fresh(h) && h.contents == map[Key("a") := value, Key("b") := value, Key("c") := value]
    ensures saved.Ok? && RootDenotes(h.cfg, saved.value, h.contents)
    ensures fourth == Err(MaximumDepth) && forall k :: Find(h.cfg, h.root, k, 0) == None
    ensures Cid(Frozen(h.root)) != saved.value
  {
    var store := new BlockStore();
    h := new Hamt(store, Config(ZeroHash, 8));
    SetFew(h, Key("a"), value);
    SetFew(h, Key("b"), value);
    SetFew(h, Key("c"), value);
    ghost var m := map[Key("a") := value, Key("b") := value, Key("c") := value];
    assert h.contents == m;
    ghost var unsaved := h.root;
    saved := h.Flush();
    TrieUnique(h.cfg, unsaved, h.root, m, 0);
    FourKeysOfOneHash(h.cfg, value);
    SmallSub(h.cfg, m, Key("d"));
    BucketsAreNotShielded(h.cfg, h.root, m, Key("d"), 0);
    fourth := h.Set(Key("d"), value);
    assert forall k | k !in m :: Lookup(m, k) == None;
  }

  lemma SmallSub(cfg: Config, m: Entries, key: Key)
    requires |m| <= MAX_ARRAY_WIDTH
    ensures |Sub(cfg, m, 0, Digit(cfg, key, 0))| <= MAX_ARRAY_WIDTH
  {
    SubSize(cfg, m, 0, Digit(cfg, key, 0));
  }
}
