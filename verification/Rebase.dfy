/** What a rebase means: local changes, in order, on top of another base. */
module Rebases {
  import opened Wrappers
  import opened Pairs
  import opened Blocks
  import opened Trie
  import opened Mutations
  import opened Timelines
  import opened VersionedMaps
  import opened Histories

  /** `out` is the mutation of `item` applied to `base` and signed as `did`. The changelogs
      it writes are those of the author of `item`. */
  ghost predicate RebaseStep(cfg: Config, base: Cid, item: Cid, did: string, out: Cid)
  {
    && IsRevision(cfg, base) && RevisionShape(base) && StepShape(item) && AuthorOf(item).Some?
    && out.block.MemoBlock? && out.block.parent == Some(base) && AuthorOf(out) == Some(did)
    && AppliedBody(cfg, base.block.body, RevisionMaps(cfg, base), AuthorOf(item).value, Derived(item), out.block.body)
  }

  /** The revision before position `i` of some revisions made on `base`. */
  function Before(base: Cid, outs: seq<Cid>, i: nat): Cid
    requires i <= |outs|
  {
    if i == 0 then base else outs[i - 1]
  }

  /** The newest of some revisions made on `base`. */
  function Newest(base: Cid, outs: seq<Cid>): Cid
  {
    Before(base, outs, |outs|)
  }

  ghost predicate StepAt(cfg: Config, newBase: Cid, items: seq<Cid>, did: string, outs: seq<Cid>, i: nat)
    requires i < |items| == |outs|
  {
    RebaseStep(cfg, Before(newBase, outs, i), items[i], did, outs[i])
  }

  /** `outs` are the revisions `items`, rebased one after another onto `newBase`. */
  ghost predicate Rebased(cfg: Config, newBase: Cid, items: seq<Cid>, did: string, outs: seq<Cid>)
  {
    |outs| == |items| && forall i | 0 <= i < |items| :: StepAt(cfg, newBase, items, did, outs, i)
  }

  /** The changes of a revision to one map. */
  function OwnChanges(cid: Cid, s: Section): Changes
  {
    if StepShape(cid) then Derived(cid).At(s) else []
  }

  /** The changes to one map made by the first `n` revisions of a range, in order. */
  ghost function ChangesUpTo(items: seq<Cid>, s: Section, n: nat): Changes
    requires n <= |items|
  {
    if n == 0 then [] else ChangesUpTo(items, s, n - 1) + OwnChanges(items[n - 1], s)
  }

  /** All changes to one map made by a range of revisions, in order. */
  ghost function ChangesOf(items: seq<Cid>, s: Section): Changes
  {
    ChangesUpTo(items, s, |items|)
  }

  lemma StepMaps(cfg: Config, base: Cid, item: Cid, did: string, out: Cid)
    requires RebaseStep(cfg, base, item, did, out)
    ensures IsRevision(cfg, out) && RevisionShape(out)
    ensures RevisionMaps(cfg, out) == ApplyAll(RevisionMaps(cfg, base), Derived(item))
  {
    AppliedRevision(cfg, base.block.body, RevisionMaps(cfg, base), AuthorOf(item).value, Derived(item), out);
  }

  lemma {:induction false} RebasedUpTo(cfg: Config, newBase: Cid, items: seq<Cid>, did: string, outs: seq<Cid>,
                                       s: Section, n: nat)
    requires Rebased(cfg, newBase, items, did, outs) && IsRevision(cfg, newBase) && n <= |items|
    ensures IsRevision(cfg, Before(newBase, outs, n))
    ensures RevisionMaps(cfg, Before(newBase, outs, n)).At(s) ==
              ApplyOps(RevisionMaps(cfg, newBase).At(s), ChangesUpTo(items, s, n))
    decreases n
  {
    if n > 0 {
      RebasedUpTo(cfg, newBase, items, did, outs, s, n - 1);
      var base, item := Before(newBase, outs, n - 1), items[n - 1];
      assert StepAt(cfg, newBase, items, did, outs, n - 1);
      StepMaps(cfg, base, item, did, outs[n - 1]);
      ApplyAllAt(RevisionMaps(cfg, base), Derived(item), s);
      ApplyOpsAppend(RevisionMaps(cfg, newBase).At(s), ChangesUpTo(items, s, n - 1), OwnChanges(item, s));
    }
  }

  /** The maps after a rebase: the local changes in order on the new base. */
  lemma RebasedMaps(cfg: Config, newBase: Cid, items: seq<Cid>, did: string, outs: seq<Cid>, s: Section)
    requires Rebased(cfg, newBase, items, did, outs) && IsRevision(cfg, newBase)
    ensures IsRevision(cfg, Newest(newBase, outs))
    ensures RevisionMaps(cfg, Newest(newBase, outs)).At(s) ==
              ApplyOps(RevisionMaps(cfg, newBase).At(s), ChangesOf(items, s))
  {
    RebasedUpTo(cfg, newBase, items, did, outs, s, |items|);
  }

  /** Keys that local revisions touched take the last local operation; all others keep the
      value of the new base. */
  lemma RebasedKey(cfg: Config, newBase: Cid, items: seq<Cid>, did: string, outs: seq<Cid>, s: Section, k: Key)
    requires Rebased(cfg, newBase, items, did, outs) && IsRevision(cfg, newBase)
    ensures IsRevision(cfg, Newest(newBase, outs))
    ensures Lookup(RevisionMaps(cfg, Newest(newBase, outs)).At(s), k) ==
            var ops := ChangesOf(items, s);
            if Touches(ops, k) then LastEffect(ops, k) else Lookup(RevisionMaps(cfg, newBase).At(s), k)
  {
    RebasedMaps(cfg, newBase, items, did, outs, s);
    LastOperationWins(RevisionMaps(cfg, newBase).At(s), ChangesOf(items, s), k);
  }

  /** The local changes have no effect on one map of the new base. */
  ghost predicate NoEffect(m: Entries, ops: Changes)
  {
    forall k | Touches(ops, k) :: LastEffect(ops, k) == Lookup(m, k)
  }

  lemma NoEffectIff(m: Entries, ops: Changes)
    ensures ApplyOps(m, ops) == m <==> NoEffect(m, ops)
  {
    var m' := ApplyOps(m, ops);
    forall k
      ensures Lookup(m', k) == if Touches(ops, k) then LastEffect(ops, k) else Lookup(m, k)
    {
      LastOperationWins(m, ops, k);
    }
    if NoEffect(m, ops) {
      SameLookups(m', m);
    }
  }

  lemma SameLookups(a: Entries, b: Entries)
    requires forall k :: Lookup(a, k) == Lookup(b, k)
    ensures a == b
  {
    forall k
      ensures k in a <==> k in b
      ensures k in a ==> a[k] == b[k]
    {
      assert Lookup(a, k) == Lookup(b, k);
    }
  }

  lemma {:induction false} OnTopLineage(cfg: Config, newBase: Cid, items: seq<Cid>, did: string, outs: seq<Cid>, n: nat)
    requires Rebased(cfg, newBase, items, did, outs) && IsLineage(newBase) && n <= |outs|
    ensures IsLineage(Before(newBase, outs, n)) && Ancestry(Before(newBase, outs, n)) == Ancestry(newBase) + outs[..n]
    decreases n
  {
    if n > 0 {
      OnTopLineage(cfg, newBase, items, did, outs, n - 1);
      assert StepAt(cfg, newBase, items, did, outs, n - 1);
      assert outs[..n] == outs[..n - 1] + [outs[n - 1]];
    }
  }

  /** The lineage of the new base is kept and grows by the rebased revisions. */
  lemma RebasedLineage(cfg: Config, newBase: Cid, items: seq<Cid>, did: string, outs: seq<Cid>)
    requires Rebased(cfg, newBase, items, did, outs) && IsLineage(newBase)
    ensures IsLineage(Newest(newBase, outs)) && Ancestry(Newest(newBase, outs)) == Ancestry(newBase) + outs
  {
    OnTopLineage(cfg, newBase, items, did, outs, |outs|);
    assert outs[..|outs|] == outs;
  }

  /** The lineage grows by the distance from the old base to the tip, except when the tip is
      the old base: then that revision's own change is applied once more. */
  lemma RebasedGrowth(tip: Cid, oldBase: Cid)
    requires IsLineage(tip) && oldBase in Ancestry(tip)
    ensures IsLineage(oldBase)
    ensures |Slice(tip, Some(oldBase), true)| == |Ancestry(tip)| - |Ancestry(oldBase)| <==> tip != oldBase
    ensures tip == oldBase ==> Slice(tip, Some(oldBase), true) == [oldBase]
  {
    if tip != oldBase {
      SliceFromAncestor(tip, oldBase, true);
    }
  }

  /** Without local revisions a rebase still adds one, and it leaves a map of the new base as
      it is exactly when every key that the old base changed still has the value it gave. */
  lemma SecondApplication(cfg: Config, oldBase: Cid, newBase: Cid, did: string, outs: seq<Cid>, s: Section)
    requires IsLineage(oldBase) && IsLineage(newBase) && IsRevision(cfg, newBase) && StepShape(oldBase)
    requires Rebased(cfg, newBase, Slice(oldBase, Some(oldBase), true), did, outs)
    ensures |outs| == 1 && IsRevision(cfg, Newest(newBase, outs))
    ensures IsLineage(Newest(newBase, outs)) && |Ancestry(Newest(newBase, outs))| == |Ancestry(newBase)| + 1
    ensures RevisionMaps(cfg, Newest(newBase, outs)).At(s) == RevisionMaps(cfg, newBase).At(s) <==>
            NoEffect(RevisionMaps(cfg, newBase).At(s), Derived(oldBase).At(s))
    ensures forall k | Touches(Derived(oldBase).At(s), k) ::
              Lookup(RevisionMaps(cfg, Newest(newBase, outs)).At(s), k) == LastEffect(Derived(oldBase).At(s), k)
  {
    var items := Slice(oldBase, Some(oldBase), true);
    assert items == [oldBase];
    RebasedLineage(cfg, newBase, items, did, outs);
    RebasedMaps(cfg, newBase, items, did, outs, s);
    var m, ops := RevisionMaps(cfg, newBase).At(s), Derived(oldBase).At(s);
    OneChange(items, s);
    NoEffectIff(m, ops);
    forall k | Touches(ops, k)
      ensures Lookup(ApplyOps(m, ops), k) == LastEffect(ops, k)
    {
      LastOperationWins(m, ops, k);
    }
  }

  lemma OneChange(items: seq<Cid>, s: Section)
    requires |items| == 1 && StepShape(items[0])
    ensures ChangesOf(items, s) == Derived(items[0]).At(s)
  {
    assert ChangesUpTo(items, s, 0) == [];
    assert ChangesUpTo(items, s, 1) == [] + OwnChanges(items[0], s);
  }

  // ----- When a rebased lineage is well formed -----

  /** Applying `ops` writes nothing new: there are none, or the map already ends with
      these very changes by the same author and they have no further effect. */
  predicate Repeats(c: Cid, m: Entries, author: string, ops: Changes)
  {
    ops == [] || (c.block.MapBlock? && c.block.changelog == Cid(ChangelogBlock(Some(author), ops))
                  && ApplyOps(m, ops) == m)
  }

  lemma UnchangedIffRepeats(cfg: Config, c: Cid, m: Entries, author: string, ops: Changes, c': Cid)
    requires MapDenotes(cfg, c, m) && AppliedSection(cfg, c, m, author, ops, c')
    ensures c' == c <==> Repeats(c, m, author, ops)
  {
    if ops != [] {
      MapEntriesUnique(cfg, c, m, c', ApplyOps(m, ops));
    }
  }

  /** Every section of the local revision only repeats what the base already records. */
  ghost predicate RepeatsAll(cfg: Config, base: Cid, item: Cid)
    requires IsRevision(cfg, base) && RevisionShape(base) && StepShape(item) && AuthorOf(item).Some?
  {
    forall s :: Repeats(MapCids(base.block.body).At(s), RevisionMaps(cfg, base).At(s), AuthorOf(item).value,
                        Derived(item).At(s))
  }

  /** The mutation of a rebased revision can be derived from it exactly when the signer
      wrote the local revision or that revision changes nothing on the new base. */
  lemma StepDerivableIff(cfg: Config, base: Cid, item: Cid, did: string, out: Cid)
    requires RebaseStep(cfg, base, item, did, out)
    ensures StepShape(out) && (Derivable(out) <==> AuthorOf(item).value == did || RepeatsAll(cfg, base, item))
  {
    StepMaps(cfg, base, item, did, out);
    var author, maps := AuthorOf(item).value, RevisionMaps(cfg, base);
    if author == did {
      BodyDerive(cfg, base.block.body, maps, did, Derived(item), out.block.body);
    } else {
      forall s
        ensures Repeats(MapCids(base.block.body).At(s), maps.At(s), author, Derived(item).At(s)) <==>
                ExplainedBy(MapCids(base.block.body).At(s), MapCids(out.block.body).At(s), did)
      {
        UnchangedIffRepeats(cfg, MapCids(base.block.body).At(s), maps.At(s), author, Derived(item).At(s),
                            MapCids(out.block.body).At(s));
      }
    }
  }

  /** The same decides whether one rebased revision is well formed. */
  lemma StepWellFormedIff(cfg: Config, base: Cid, item: Cid, did: string, out: Cid)
    requires RebaseStep(cfg, base, item, did, out) && WellFormed(cfg, base)
    ensures WellFormed(cfg, out) <==> AuthorOf(item).value == did || RepeatsAll(cfg, base, item)
    ensures StepShape(out) && (WellFormed(cfg, out) <==> Derivable(out))
  {
    StepDerivableIff(cfg, base, item, did, out);
    if AuthorOf(item).value == did {
      AppliedIsWellFormed(cfg, base, did, Derived(item), out);
    } else if RepeatsAll(cfg, base, item) {
      NothingNew(cfg, base, item, did, out);
    }
  }

  /** A local revision of another author that gives some key a new value on the new base
      leaves a revision whose own mutation cannot be derived. */
  lemma ForeignChangeIsNotDerivable(cfg: Config, base: Cid, item: Cid, did: string, out: Cid, s: Section, k: Key)
    requires RebaseStep(cfg, base, item, did, out) && AuthorOf(item).value != did
    requires Touches(Derived(item).At(s), k)
    requires LastEffect(Derived(item).At(s), k) != Lookup(RevisionMaps(cfg, base).At(s), k)
    ensures StepShape(out) && !Derivable(out) && !WellFormed(cfg, out)
  {
    LastOperationWins(RevisionMaps(cfg, base).At(s), Derived(item).At(s), k);
    assert !Repeats(MapCids(base.block.body).At(s), RevisionMaps(cfg, base).At(s), AuthorOf(item).value,
                    Derived(item).At(s));
    StepDerivableIff(cfg, base, item, did, out);
  }

  lemma NothingNew(cfg: Config, base: Cid, item: Cid, did: string, out: Cid)
    requires RebaseStep(cfg, base, item, did, out) && WellFormed(cfg, base) && RepeatsAll(cfg, base, item)
    ensures WellFormed(cfg, out)
  {
    var author, maps := AuthorOf(item).value, RevisionMaps(cfg, base);
    forall s
      ensures AppliedSection(cfg, MapCids(base.block.body).At(s), maps.At(s), did, NO_CHANGES.At(s),
                             MapCids(out.block.body).At(s))
    {
      assert NO_CHANGES.At(s) == [];
      UnchangedIffRepeats(cfg, MapCids(base.block.body).At(s), maps.At(s), author, Derived(item).At(s),
                          MapCids(out.block.body).At(s));
    }
    AppliedIsWellFormed(cfg, base, did, NO_CHANGES, out);
  }

  /** A local revision is the signer's or changes nothing at its new place. */
  ghost predicate SafelySignedAt(cfg: Config, newBase: Cid, items: seq<Cid>, did: string, outs: seq<Cid>, i: nat)
    requires i < |items| == |outs| && StepAt(cfg, newBase, items, did, outs, i)
  {
    AuthorOf(items[i]).value == did || RepeatsAll(cfg, Before(newBase, outs, i), items[i])
  }

  ghost predicate SafelySigned(cfg: Config, newBase: Cid, items: seq<Cid>, did: string, outs: seq<Cid>)
    requires Rebased(cfg, newBase, items, did, outs)
  {
    forall i | 0 <= i < |items| :: SafelySignedAt(cfg, newBase, items, did, outs, i)
  }

  lemma WellFormedStep(cfg: Config, newBase: Cid, items: seq<Cid>, did: string, outs: seq<Cid>, i: nat)
    requires i < |items| == |outs| && StepAt(cfg, newBase, items, did, outs, i)
    ensures WellFormed(cfg, outs[i]) <==>
              WellFormed(cfg, Before(newBase, outs, i)) && SafelySignedAt(cfg, newBase, items, did, outs, i)
  {
    if WellFormed(cfg, Before(newBase, outs, i)) {
      StepWellFormedIff(cfg, Before(newBase, outs, i), items[i], did, outs[i]);
    }
  }

  /** What starts out good and stays so exactly at safe steps. */
  lemma {:induction false} GoodUpTo(good: seq<bool>, safe: seq<bool>, n: nat)
    requires |good| == |safe| + 1 && good[0] && n <= |safe|
    requires forall i | 0 <= i < |safe| :: good[i + 1] <==> good[i] && safe[i]
    ensures good[n] <==> forall i | 0 <= i < n :: safe[i]
    decreases n
  {
    if n > 0 {
      GoodUpTo(good, safe, n - 1);
    }
  }

  /** Which of the revisions, from the new base on, are well formed. */
  ghost function Formed(cfg: Config, newBase: Cid, outs: seq<Cid>): (r: seq<bool>)
    ensures |r| == |outs| + 1 && forall i | 0 <= i <= |outs| :: r[i] == WellFormed(cfg, Before(newBase, outs, i))
  {
    seq(|outs| + 1, i requires 0 <= i <= |outs| => WellFormed(cfg, Before(newBase, outs, i)))
  }

  /** Which of the steps are safely signed. */
  ghost function Signed(cfg: Config, newBase: Cid, items: seq<Cid>, did: string, outs: seq<Cid>): (r: seq<bool>)
    requires Rebased(cfg, newBase, items, did, outs)
    ensures |r| == |items| && forall i | 0 <= i < |items| :: r[i] == SafelySignedAt(cfg, newBase, items, did, outs, i)
  {
    seq(|items|, i requires 0 <= i < |items| == |outs| && StepAt(cfg, newBase, items, did, outs, i) =>
          SafelySignedAt(cfg, newBase, items, did, outs, i))
  }

  lemma FormedStep(cfg: Config, newBase: Cid, items: seq<Cid>, did: string, outs: seq<Cid>, i: nat)
    requires Rebased(cfg, newBase, items, did, outs) && i < |items|
    ensures Formed(cfg, newBase, outs)[i + 1] <==>
              Formed(cfg, newBase, outs)[i] && Signed(cfg, newBase, items, did, outs)[i]
  {
    assert StepAt(cfg, newBase, items, did, outs, i);
    WellFormedStep(cfg, newBase, items, did, outs, i);
  }

  /** The rebased lineage is well formed exactly when every local revision is the signer's or
      changes nothing at its new place. */
  lemma RebasedWellFormedIff(cfg: Config, newBase: Cid, items: seq<Cid>, did: string, outs: seq<Cid>)
    requires Rebased(cfg, newBase, items, did, outs) && WellFormed(cfg, newBase)
    ensures WellFormed(cfg, Newest(newBase, outs)) <==> SafelySigned(cfg, newBase, items, did, outs)
  {
    var good, safe := Formed(cfg, newBase, outs), Signed(cfg, newBase, items, did, outs);
    forall i | 0 <= i < |items|
      ensures good[i + 1] <==> good[i] && safe[i]
    {
      FormedStep(cfg, newBase, items, did, outs, i);
    }
    GoodUpTo(good, safe, |items|);
  }
}
