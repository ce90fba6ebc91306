/** Walking a lineage of memos backwards and slicing it. */
module Timelines {
  import opened Wrappers
  import opened Blocks

  /** Every memo up to the first is a memo. Memos cannot form a cycle: a CID contains
      what it names. */
  predicate IsLineage(cid: Cid)
  {
    cid.block.MemoBlock? && (cid.block.parent.Some? ==> IsLineage(cid.block.parent.value))
  }

  /** The lineage of a revision in chronological order, from genesis to the revision. */
  function Ancestry(cid: Cid): seq<Cid>
    requires IsLineage(cid)
  {
    if cid.block.parent.None? then [cid] else Ancestry(cid.block.parent.value) + [cid]
  }

  /** What a slice of a lineage yields, in chronological order. */
  ghost function Slice(future: Cid, past: Option<Cid>, excludePast: bool): seq<Cid>
    requires IsLineage(future)
  {
    var parent := future.block.parent;
    if parent.None? || past == Some(future) || (excludePast && past == parent) then [future]
    else Slice(parent.value, past, excludePast) + [future]
  }

  /** The unfold step of `Timeline::stream` after yielding `memo` at `from`. */
  function NextFrom(from: Cid, to: Option<Cid>, excludePast: bool): Option<Cid>
    requires from.block.MemoBlock?
  {
    if to == Some(from) then None
    else if excludePast && to == from.block.parent then None
    else from.block.parent
  }

  /** What is still to be yielded from `from` on. */
  ghost function Rest(from: Option<Cid>, past: Option<Cid>, excludePast: bool): seq<Cid>
    requires from.Some? ==> IsLineage(from.value)
  {
    if from.Some? then Slice(from.value, past, excludePast) else []
  }

  lemma Unfold(cid: Cid, past: Option<Cid>, excludePast: bool, later: seq<Cid>)
    requires IsLineage(cid)
    ensures var next := NextFrom(cid, past, excludePast);
      && (next.Some? ==> IsLineage(next.value) && |Ancestry(next.value)| < |Ancestry(cid)|)
      && Slice(cid, past, excludePast) + later == Rest(next, past, excludePast) + ([cid] + later)
      && cid in Slice(cid, past, excludePast)
  {}

  /** `Timeslice::to_chronological`. It loads the memos of the slice and no others. */
  method ToChronological(future: Cid, past: Option<Cid>, excludePast: bool, store: BlockStore)
    returns (r: Result<seq<Cid>>)
    requires IsLineage(future)
    ensures r.Ok? ==> r.value == Slice(future, past, excludePast)
    ensures r.Ok? <==> forall c | c in Slice(future, past, excludePast) :: c in store.held
    ensures r.Err? ==> r.error == BlockNotFound
  {
    var chronological := [];
    var from := Some(future);
    ghost var whole := Slice(future, past, excludePast);
    while from.Some?
      invariant from.Some? ==> IsLineage(from.value)
      invariant whole == Rest(from, past, excludePast) + chronological
      invariant forall c | c in chronological :: c in store.held
      decreases if from.Some? then |Ancestry(from.value)| else 0
    {
      var cid := from.value;
      Unfold(cid, past, excludePast, chronological);
      var memo := store.Load(cid);
      if memo.Err? {
        return Err(memo.error);
      }
      chronological := [cid] + chronological;
      from := NextFrom(cid, past, excludePast);
    }
    return Ok(chronological);
  }

  /** The revision at `i` is a child of the one before. */
  ghost predicate ChildOf(items: seq<Cid>, i: nat)
    requires 0 < i < |items|
  {
    items[i].block.MemoBlock? && items[i].block.parent == Some(items[i - 1])
  }

  /** Consecutive revisions are parent and child. */
  ghost predicate Chain(items: seq<Cid>)
  {
    forall i | 0 < i < |items| :: ChildOf(items, i)
  }

  lemma ChainGrows(items: seq<Cid>, cid: Cid)
    requires items != [] && Chain(items) && cid.block.MemoBlock? && cid.block.parent == Some(items[|items| - 1])
    ensures Chain(items + [cid])
  {
    var more := items + [cid];
    forall i | 0 < i < |more|
      ensures ChildOf(more, i)
    {
      assert i < |items| ==> ChildOf(items, i);
    }
  }

  lemma {:induction false} SliceIsChain(future: Cid, past: Option<Cid>, excludePast: bool)
    requires IsLineage(future)
    ensures var items := Slice(future, past, excludePast);
      && items != [] && items[|items| - 1] == future && Chain(items)
      && forall c | c in items :: c in Ancestry(future)
  {
    AncestryEnds(future);
    var parent := future.block.parent;
    if !(parent.None? || past == Some(future) || (excludePast && past == parent)) {
      SliceIsChain(parent.value, past, excludePast);
      ChainGrows(Slice(parent.value, past, excludePast), future);
    }
  }

  // ----- Exactness -----

  lemma {:induction false} AncestryEnds(cid: Cid)
    requires IsLineage(cid)
    ensures Ancestry(cid) != [] && Ancestry(cid)[|Ancestry(cid)| - 1] == cid
    ensures forall c | c in Ancestry(cid) :: IsLineage(c) && Ancestry(c) <= Ancestry(cid)
  {
    if cid.block.parent.Some? {
      AncestryEnds(cid.block.parent.value);
    }
  }

  /** No revision is its own strict ancestor. */
  lemma {:induction false} AncestorsAreOlder(cid: Cid, c: Cid)
    requires IsLineage(cid) && c in Ancestry(cid)
    ensures IsLineage(c) && (c == cid || |Ancestry(c)| < |Ancestry(cid)|)
  {
    if c != cid {
      AncestorsAreOlder(cid.block.parent.value, c);
    }
  }

  /** When `past` is a strict ancestor, the slice is exactly the path from it to `future`,
      without `past` itself when it is excluded. */
  lemma {:induction false} SliceFromAncestor(future: Cid, past: Cid, excludePast: bool)
    requires IsLineage(future) && past in Ancestry(future) && past != future
    ensures IsLineage(past) && 1 <= |Ancestry(past)| < |Ancestry(future)|
    ensures Slice(future, Some(past), excludePast) ==
            Ancestry(future)[|Ancestry(past)| - (if excludePast then 0 else 1)..]
  {
    AncestorsAreOlder(future, past);
    AncestryEnds(past);
    var parent := future.block.parent.value;
    var k := |Ancestry(past)| - (if excludePast then 0 else 1);
    if parent == past {
      SuffixPush(Ancestry(past), k, future);
      AncestryTail(past);
    } else {
      AncestorsAreOlder(parent, past);
      SliceFromAncestor(parent, past, excludePast);
      SuffixPush(Ancestry(parent), k, future);
    }
  }

  lemma SuffixPush(s: seq<Cid>, k: nat, c: Cid)
    requires k <= |s|
    ensures (s + [c])[k..] == s[k..] + [c]
  {}

  lemma AncestryTail(cid: Cid)
    requires IsLineage(cid) && Ancestry(cid) != [] && Ancestry(cid)[|Ancestry(cid)| - 1] == cid
    ensures Ancestry(cid)[|Ancestry(cid)|..] == [] && Ancestry(cid)[|Ancestry(cid)| - 1..] == [cid]
  {}

  /** A slice that includes its past starts with it. */
  lemma {:induction false} IncludedPastIsFirst(future: Cid, past: Cid)
    requires IsLineage(future) && past in Ancestry(future)
    ensures past.block.MemoBlock?
    ensures Slice(future, Some(past), false) != [] && Slice(future, Some(past), false)[0] == past
  {
    if past != future {
      IncludedPastIsFirst(future.block.parent.value, past);
    }
  }

  /** When `past` is not in the lineage, or absent, the slice is the whole lineage. */
  lemma {:induction false} SliceFromGenesis(future: Cid, past: Option<Cid>, excludePast: bool)
    requires IsLineage(future) && (past.Some? ==> past.value !in Ancestry(future))
    ensures Slice(future, past, excludePast) == Ancestry(future)
  {
    if future.block.parent.Some? {
      AncestryEnds(future.block.parent.value);
      SliceFromGenesis(future.block.parent.value, past, excludePast);
    }
  }

  /** An excluded past is left out of the slice exactly when it is not the future itself:
      a slice from a revision to itself yields that revision even when it is excluded. */
  lemma ExcludedPastIsYieldedIff(future: Cid, past: Cid)
    requires IsLineage(future)
    ensures past in Slice(future, Some(past), true) <==> past == future
  {
    if past == future {
      assert Slice(future, Some(past), true) == [future];
    } else if past in Ancestry(future) {
      SliceFromAncestor(future, past, true);
      var k := |Ancestry(past)|;
      if past in Ancestry(future)[k..] {
        AncestryEnds(past);
        AncestryEnds(future);
        NoRepeats(future, past, k);
      }
    } else {
      SliceFromGenesis(future, Some(past), true);
    }
  }

  /** A revision stands at one place of a lineage: after its own ancestry. */
  lemma {:induction false} NoRepeats(cid: Cid, c: Cid, k: nat)
    requires IsLineage(cid) && IsLineage(c) && k == |Ancestry(c)| <= |Ancestry(cid)|
    ensures c !in Ancestry(cid)[k..]
  {
    AncestryEnds(cid);
    if |Ancestry(cid)| > k {
      AncestorsAreOlder(cid, cid);
      if cid == c {
        assert false;
      }
      NoRepeats(cid.block.parent.value, c, k);
      assert Ancestry(cid)[k..] == Ancestry(cid.block.parent.value)[k..] + [cid];
    }
  }
}
