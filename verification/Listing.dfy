/** Listing a node's entries pointer by pointer lists its map exactly once. */
module Listings {
  import opened Bitfields
  import opened Pairs
  import opened Trie

  function Concat(lists: seq<seq<KeyValue>>): seq<KeyValue>
  {
    if lists == [] then [] else Concat(lists[..|lists| - 1]) + lists[|lists| - 1]
  }

  /** The entries of `m` whose digit at depth `d` is below `i`. */
  ghost function Below(cfg: Config, m: Entries, d: nat, i: nat): Entries
    requires d < Levels(cfg)
  {
    map k | k in m && Digit(cfg, k, d) < i :: m[k]
  }

  lemma UnionEnumerated(a: seq<KeyValue>, b: seq<KeyValue>, m: Entries, n: Entries)
    requires Enumerates(a, m) && Enumerates(b, n) && m.Keys !! n.Keys
    ensures Enumerates(a + b, m + n)
  {
    UnionPairs(a, b, m, n);
    UnionDistinct(a, b, m, n);
    forall k | k in m + n
      ensures HasKey(a + b, k)
    {
      if k in m {
        var i :| 0 <= i < |a| && a[i].key == k;
        assert (a + b)[i].key == k;
      } else {
        var i :| 0 <= i < |b| && b[i].key == k;
        assert (a + b)[|a| + i].key == k;
      }
    }
  }

  lemma UnionPairs(a: seq<KeyValue>, b: seq<KeyValue>, m: Entries, n: Entries)
    requires Enumerates(a, m) && Enumerates(b, n) && m.Keys !! n.Keys
    ensures forall i | 0 <= i < |a + b| :: (a + b)[i].key in m + n && (m + n)[(a + b)[i].key] == (a + b)[i].value
  {
    forall i | 0 <= i < |a + b|
      ensures (a + b)[i].key in m + n && (m + n)[(a + b)[i].key] == (a + b)[i].value
    {
      assert (a + b)[i] == if i < |a| then a[i] else b[i - |a|];
    }
  }

  lemma UnionDistinct(a: seq<KeyValue>, b: seq<KeyValue>, m: Entries, n: Entries)
    requires Enumerates(a, m) && Enumerates(b, n) && m.Keys !! n.Keys
    ensures forall i, j | 0 <= i < j < |a + b| :: (a + b)[i].key != (a + b)[j].key
  {
    forall i, j | 0 <= i < j < |a + b|
      ensures (a + b)[i].key != (a + b)[j].key
    {
      assert (a + b)[i] == if i < |a| then a[i] else b[i - |a|];
      assert (a + b)[j] == if j < |a| then a[j] else b[j - |a|];
    }
  }

  /** Digit `i` is used exactly when entries of `m` have it, and its list enumerates them. */
  ghost predicate ListsChild(cfg: Config, b: Bitfield, lists: seq<seq<KeyValue>>, m: Entries, d: nat, i: nat)
    requires d < Levels(cfg) && i < 256
  {
    && (Has(b, i) <==> Sub(cfg, m, d, i) != map[])
    && (Has(b, i) ==> Rank(b, i) < |lists| && Enumerates(lists[Rank(b, i)], Sub(cfg, m, d, i)))
  }

  /** `lists[j]` enumerates the entries behind pointer `j` of a node for `m`. */
  ghost predicate ListsChildren(cfg: Config, b: Bitfield, lists: seq<seq<KeyValue>>, m: Entries, d: nat)
    requires d < Levels(cfg)
  {
    |lists| == Rank(b, 256) && forall i: nat | i < 256 :: ListsChild(cfg, b, lists, m, d, i)
  }

  ghost predicate PrefixListed(cfg: Config, b: Bitfield, lists: seq<seq<KeyValue>>, m: Entries, d: nat, i: nat)
    requires d < Levels(cfg) && i <= 256
  {
    Rank(b, i) <= |lists| && Enumerates(Concat(lists[..Rank(b, i)]), Below(cfg, m, d, i))
  }

  lemma {:induction false} PrefixEnumerated(cfg: Config, b: Bitfield, lists: seq<seq<KeyValue>>, m: Entries, d: nat,
                                            i: nat)
    requires d < Levels(cfg) && i <= 256 && ListsChildren(cfg, b, lists, m, d)
    ensures PrefixListed(cfg, b, lists, m, d, i)
  {
    if i == 0 {
      assert Below(cfg, m, d, 0) == map[];
      assert lists[..0] == [];
      NothingEnumerated();
    } else {
      PrefixEnumerated(cfg, b, lists, m, d, i - 1);
      PrefixStep(cfg, b, lists, m, d, i - 1);
    }
  }

  lemma PrefixStep(cfg: Config, b: Bitfield, lists: seq<seq<KeyValue>>, m: Entries, d: nat, i: nat)
    requires d < Levels(cfg) && i < 256 && ListsChildren(cfg, b, lists, m, d) && PrefixListed(cfg, b, lists, m, d, i)
    ensures PrefixListed(cfg, b, lists, m, d, i + 1)
  {
    var r := Rank(b, i);
    BelowSplits(cfg, m, d, i);
    assert ListsChild(cfg, b, lists, m, d, i);
    if Has(b, i) {
      UnionEnumerated(Concat(lists[..r]), lists[r], Below(cfg, m, d, i), Sub(cfg, m, d, i));
      ConcatStep(lists, r);
    } else {
      assert Below(cfg, m, d, i + 1) == Below(cfg, m, d, i);
    }
  }

  lemma NothingEnumerated()
    ensures Enumerates([], map[])
  {}

  lemma ConcatStep(lists: seq<seq<KeyValue>>, r: nat)
    requires r < |lists|
    ensures Concat(lists[..r + 1]) == Concat(lists[..r]) + lists[r]
  {
    assert lists[..r + 1][..r] == lists[..r];
  }

  lemma BelowSplits(cfg: Config, m: Entries, d: nat, i: nat)
    requires d < Levels(cfg)
    ensures Below(cfg, m, d, i + 1) == Below(cfg, m, d, i) + Sub(cfg, m, d, i)
    ensures Below(cfg, m, d, i).Keys !! Sub(cfg, m, d, i).Keys
  {}

  lemma AllEnumerated(cfg: Config, b: Bitfield, lists: seq<seq<KeyValue>>, m: Entries, d: nat)
    requires d < Levels(cfg) && ListsChildren(cfg, b, lists, m, d)
    ensures Enumerates(Concat(lists), m)
  {
    PrefixEnumerated(cfg, b, lists, m, d, 256);
    assert lists[..|lists|] == lists;
    assert Below(cfg, m, d, 256) == m;
  }

  lemma {:induction false} ConcatNonEmpty(lists: seq<seq<KeyValue>>)
    requires forall j | 0 <= j < |lists| :: lists[j] != []
    ensures |Concat(lists)| >= |lists|
  {
    if lists != [] {
      ConcatNonEmpty(lists[..|lists| - 1]);
    }
  }
}
