/** History and changelog streams, as the sequences they yield. */
module SphereStreams {
  import opened Wrappers
  import opened Pairs
  import opened Blocks
  import opened Trie
  import opened Mutations
  import opened Timelines
  import opened VersionedMaps
  import opened Histories
  import opened SphereDerive
  import opened SphereHydrate
  import opened Rebases

  /** The revisions of a lineage after `since`, in chronological order. */
  ghost function HistorySince(tip: Cid, since: Option<Cid>): seq<Cid>
    requires IsLineage(tip)
  {
    if since == Some(tip) then [] else Slice(tip, since, true)
  }

  /** `history` lists the same revisions newest first. */
  ghost predicate NewestFirst(history: seq<Cid>, chronological: seq<Cid>)
  {
    && |history| == |chronological|
    && forall i | 0 <= i < |history| :: history[i] == chronological[|history| - 1 - i]
  }

  lemma OneMore(whole: seq<Cid>, rest: seq<Cid>, cid: Cid, history: seq<Cid>)
    requires rest + [cid] <= whole && NewestFirst(history, whole[|rest + [cid]|..])
    ensures rest <= whole && NewestFirst(history + [cid], whole[|rest|..])
    ensures forall c | c in rest + [cid] :: c in whole
  {
    assert whole[..|rest|] == rest && whole[|rest|..] == [cid] + whole[|rest| + 1..];
  }

  /** The part of the history that is still to come. */
  ghost function Remaining(from: Option<Cid>, since: Option<Cid>): seq<Cid>
    requires from.Some? ==> IsLineage(from.value)
  {
    if from.Some? then HistorySince(from.value, since) else []
  }

  lemma HistoryStep(cid: Cid, since: Option<Cid>)
    requires IsLineage(cid) && since != Some(cid)
    ensures var next := NextFrom(cid, since, true);
      && (next.Some? ==> IsLineage(next.value) && next.value in HistorySince(cid, since))
      && (next.Some? ==> |Ancestry(next.value)| < |Ancestry(cid)|)
      && HistorySince(cid, since) == Remaining(next, since) + [cid]
  {
    var next := NextFrom(cid, since, true);
    if next.Some? {
      SliceIsChain(next.value, since, true);
    }
  }

  /** The stream has yielded `history` and goes on at `from`. */
  ghost predicate Streaming(tip: Cid, since: Option<Cid>, from: Option<Cid>, history: seq<Cid>)
    requires IsLineage(tip)
  {
    && (from.Some? ==> IsLineage(from.value) && (from.value == tip || from.value in HistorySince(tip, since)))
    && Remaining(from, since) <= HistorySince(tip, since)
    && NewestFirst(history, HistorySince(tip, since)[|Remaining(from, since)|..])
  }

  lemma StreamingStep(tip: Cid, since: Option<Cid>, cid: Cid, history: seq<Cid>)
    requires IsLineage(tip) && Streaming(tip, since, Some(cid), history) && since != Some(cid)
    ensures Streaming(tip, since, NextFrom(cid, since, true), history + [cid])
    ensures var next := NextFrom(cid, since, true); next.Some? ==> |Ancestry(next.value)| < |Ancestry(cid)|
  {
    HistoryStep(cid, since);
    var next := NextFrom(cid, since, true);
    OneMore(HistorySince(tip, since), Remaining(next, since), cid, history);
  }

  ghost predicate Listed(items: seq<Cid>, history: seq<Cid>, held: set<Cid>)
  {
    && |history| <= |items|
    && forall i | 0 <= i < |history| :: history[i] == items[|items| - 1 - i] && history[i] in held
  }

  /** The next revision to be loaded is missing. */
  ghost predicate GapInHistory(tip: Cid, items: seq<Cid>, history: seq<Cid>, held: set<Cid>)
  {
    if |history| < |items| then items[|items| - 1 - |history|] !in held else items == [] && tip !in held
  }

  lemma SuffixListed(items: seq<Cid>, k: nat, history: seq<Cid>, held: set<Cid>)
    requires k <= |items| && NewestFirst(history, items[k..]) && forall c | c in history :: c in held
    ensures Listed(items, history, held) && |history| == |items| - k
  {
    forall i | 0 <= i < |history|
      ensures history[i] == items[|items| - 1 - i] && history[i] in held
    {
      assert items[k..][|history| - 1 - i] == items[|items| - 1 - i] && history[i] in history;
    }
  }

  lemma StreamingGap(tip: Cid, since: Option<Cid>, from: Cid, history: seq<Cid>, held: set<Cid>)
    requires IsLineage(tip) && Streaming(tip, since, Some(from), history) && (from == tip ==> history == [])
    requires from !in held && |history| == |HistorySince(tip, since)| - |Remaining(Some(from), since)|
    ensures GapInHistory(tip, HistorySince(tip, since), history, held)
  {
    var items, rest := HistorySince(tip, since), Remaining(Some(from), since);
    SinceIsExcluded(tip, from);
    if since != Some(from) {
      HistoryStep(from, since);
      assert items[|rest| - 1] == rest[|rest| - 1] == from;
    }
  }

  ghost predicate Seen(history: seq<Cid>)
  {
    true
  }

  /** The stream has loaded and yielded `history` and goes on at `from`. */
  ghost predicate Positioned(tip: Cid, since: Option<Cid>, from: Option<Cid>, history: seq<Cid>, held: set<Cid>)
    requires IsLineage(tip)
  {
    && (from.Some? ==> IsLineage(from.value))
    && forall h {:trigger Seen(h)} | Seen(h) && h == history ::
         && Streaming(tip, since, from, h) && (forall c | c in h :: c in held)
         && if from == Some(tip) then h == [] else tip in held
  }

  lemma StartPosition(tip: Cid, since: Option<Cid>, held: set<Cid>)
    requires IsLineage(tip)
    ensures Positioned(tip, since, Some(tip), [], held)
  {}

  /** One more revision is loaded and yielded. */
  lemma NextPosition(tip: Cid, since: Option<Cid>, cid: Cid, history: seq<Cid>, held: set<Cid>)
    requires IsLineage(tip) && Positioned(tip, since, Some(cid), history, held) && since != Some(cid) && cid in held
    ensures Positioned(tip, since, NextFrom(cid, since, true), history + [cid], held)
    ensures var next := NextFrom(cid, since, true); next.Some? ==> |Ancestry(next.value)| < |Ancestry(cid)|
  {
    assert Seen(history);
    StreamingStep(tip, since, cid, history);
    var next := NextFrom(cid, since, true);
    AncestryEnds(tip);
    if next == Some(tip) {
      AncestorsAreOlder(tip, cid);
      assert false;
    }
  }

  /** The next revision is missing. */
  lemma MissingPosition(tip: Cid, since: Option<Cid>, cid: Cid, history: seq<Cid>, held: set<Cid>)
    requires IsLineage(tip) && Positioned(tip, since, Some(cid), history, held) && cid !in held
    ensures Listed(HistorySince(tip, since), history, held)
    ensures GapInHistory(tip, HistorySince(tip, since), history, held)
  {
    assert Seen(history);
    SuffixListed(HistorySince(tip, since), |Remaining(Some(cid), since)|, history, held);
    StreamingGap(tip, since, cid, history, held);
  }

  /** Nothing is left, or only the excluded revision. */
  lemma EndPosition(tip: Cid, since: Option<Cid>, from: Option<Cid>, history: seq<Cid>, held: set<Cid>)
    requires IsLineage(tip) && Positioned(tip, since, from, history, held)
    requires from.Some? ==> since == from && from.value in held
    ensures Listed(HistorySince(tip, since), history, held) && NewestFirst(history, HistorySince(tip, since))
    ensures tip in held
  {
    assert Seen(history);
    SuffixListed(HistorySince(tip, since), 0, history, held);
  }

  lemma GapIsMissing(tip: Cid, items: seq<Cid>, history: seq<Cid>, held: set<Cid>)
    requires GapInHistory(tip, items, history, held)
    ensures !(tip in held && forall c | c in items :: c in held)
  {
    if |history| < |items| {
      assert items[|items| - 1 - |history|] in items;
    }
  }

  /** `Sphere::into_history_stream`, newest first, up to the first missing memo. */
  method HistoryStream(tip: Cid, since: Option<Cid>, store: BlockStore) returns (history: seq<Cid>, r: Result<()>)
    requires IsLineage(tip)
    ensures Listed(HistorySince(tip, since), history, store.held)
    ensures r.Ok? ==> NewestFirst(history, HistorySince(tip, since)) && tip in store.held
    ensures r.Err? ==> r.error == BlockNotFound && GapInHistory(tip, HistorySince(tip, since), history, store.held)
    ensures tip in store.held && (forall c | c in HistorySince(tip, since) :: c in store.held) ==> r.Ok?
  {
    history := [];
    var from := Some(tip);
    StartPosition(tip, since, store.held);
    while from.Some?
      invariant Positioned(tip, since, from, history, store.held)
      decreases if from.Some? then |Ancestry(from.value)| else 0
    {
      var cid := from.value;
      var memo := store.Load(cid);
      if memo.Err? {
        MissingPosition(tip, since, cid, history, store.held);
        GapIsMissing(tip, HistorySince(tip, since), history, store.held);
        return history, Err(memo.error);
      }
      if since == Some(cid) {
        break;
      }
      NextPosition(tip, since, cid, history, store.held);
      history := history + [cid];
      from := NextFrom(cid, since, true);
    }
    EndPosition(tip, since, from, history, store.held);
    return history, Ok(());
  }

  /** The excluded revision is not in the history after it. */
  lemma SinceIsExcluded(tip: Cid, since: Cid)
    requires IsLineage(tip)
    ensures since !in HistorySince(tip, Some(since))
  {
    ExcludedPastIsYieldedIff(tip, since);
  }

  // ----- Changelogs -----

  /** One yielded changelog: the revision, the recorded author and the operations. */
  datatype Yielded = Yielded(cid: Cid, author: Option<string>, changes: Changes)

  /** The changelogs of one map over the first `n` revisions of a range: those of revisions
      that changed it. */
  ghost function ChangelogsUpTo(items: seq<Cid>, s: Section, n: nat): seq<Yielded>
    requires n <= |items|
  {
    if n == 0 then [] else ChangelogsUpTo(items, s, n - 1) + OwnChangelog(items[n - 1], s)
  }

  ghost function Changelogs(items: seq<Cid>, s: Section): seq<Yielded>
  {
    ChangelogsUpTo(items, s, |items|)
  }

  function OwnChangelog(cid: Cid, s: Section): seq<Yielded>
  {
    if OwnChanges(cid, s) == [] then [] else [Yielded(cid, AuthorOf(cid), OwnChanges(cid, s))]
  }

  function OperationsUpTo(ys: seq<Yielded>, n: nat): Changes
    requires n <= |ys|
  {
    if n == 0 then [] else OperationsUpTo(ys, n - 1) + ys[n - 1].changes
  }

  /** All yielded operations, in order. */
  function Operations(ys: seq<Yielded>): Changes
  {
    OperationsUpTo(ys, |ys|)
  }

  lemma {:induction false} OperationsPrefix(ys: seq<Yielded>, more: seq<Yielded>, n: nat)
    requires n <= |ys|
    ensures OperationsUpTo(ys + more, n) == OperationsUpTo(ys, n)
    decreases n
  {
    if n > 0 {
      OperationsPrefix(ys, more, n - 1);
    }
  }

  lemma OwnOperations(ys: seq<Yielded>, cid: Cid, s: Section)
    ensures Operations(ys + OwnChangelog(cid, s)) == Operations(ys) + OwnChanges(cid, s)
  {
    var own := OwnChangelog(cid, s);
    OperationsPrefix(ys, own, |ys|);
    if own == [] {
      assert Operations(ys) + [] == Operations(ys);
    }
  }

  lemma {:induction false} ChangesAreYielded(items: seq<Cid>, s: Section, n: nat)
    requires n <= |items|
    ensures Operations(ChangelogsUpTo(items, s, n)) == ChangesUpTo(items, s, n)
    decreases n
  {
    if n > 0 {
      ChangesAreYielded(items, s, n - 1);
      OwnOperations(ChangelogsUpTo(items, s, n - 1), items[n - 1], s);
    }
  }

  lemma {:induction false} YieldedRevisions(items: seq<Cid>, s: Section, n: nat)
    requires n <= |items|
    ensures forall y | y in ChangelogsUpTo(items, s, n) :: y.cid in items
    decreases n
  {
    if n > 0 {
      YieldedRevisions(items, s, n - 1);
    }
  }

  lemma ChangelogsHoldAllChanges(items: seq<Cid>, s: Section)
    ensures Operations(Changelogs(items, s)) == ChangesOf(items, s)
    ensures forall y | y in Changelogs(items, s) :: y.cid in items
  {
    ChangesAreYielded(items, s, |items|);
    YieldedRevisions(items, s, |items|);
  }

  /** The blocks that lead to the CID of the content or identities map are held. */
  ghost predicate MapNamed(held: set<Cid>, cid: Cid, s: Section)
    requires RevisionShape(cid)
  {
    cid in held && cid.block.body in held && (s == Content || cid.block.body.block.addressBook in held)
  }

  /** The CID of the content or identities map of a revision. */
  method MapOf(cid: Cid, s: Section, store: BlockStore) returns (r: Result<Cid>)
    requires RevisionShape(cid) && (s == Content || s == Identities)
    ensures r.Ok? ==> r.value == MapCids(cid.block.body).At(s)
    ensures r.Ok? <==> MapNamed(store.held, cid, s)
    ensures r.Err? ==> r.error == BlockNotFound
  {
    var memo := store.Load(cid);
    if memo.Err? {
      return Err(memo.error);
    }
    var body := store.Load(memo.value.body);
    if body.Err? {
      return Err(body.error);
    }
    if s == Content {
      return Ok(body.value.content);
    }
    var book := store.Load(body.value.addressBook);
    if book.Err? {
      return Err(book.error);
    }
    return Ok(book.value.identities);
  }

  /** `VersionedMap::load_changelog`. */
  method LoadChangelog(c: Cid, store: BlockStore) returns (r: Result<Block>)
    requires MapShape(c)
    ensures r.Ok? ==> r.value == c.block.changelog.block
    ensures r.Ok? <==> c in store.held && c.block.changelog in store.held
    ensures r.Err? ==> r.error == BlockNotFound
  {
    var ipld := store.Load(c);
    if ipld.Err? {
      return Err(ipld.error);
    }
    var changelog := store.Load(ipld.value.changelog);
    if changelog.Err? {
      return Err(changelog.error);
    }
    return changelog;
  }

  /** The changelog of a revision, unless the map kept its CID or nothing is recorded. */
  function ChangelogSince(cid: Cid, parent: Option<Cid>, s: Section): seq<Yielded>
    requires RevisionShape(cid) && (parent.Some? ==> RevisionShape(parent.value))
    requires MapShape(MapCids(cid.block.body).At(s))
  {
    var c := MapCids(cid.block.body).At(s);
    var changelog := c.block.changelog.block;
    if (parent.Some? && MapCids(parent.value.block.body).At(s) == c) || changelog.changes == [] then []
    else [Yielded(cid, changelog.did, changelog.changes)]
  }

  /** The blocks read for the changelog of a revision are held. */
  ghost predicate ChangelogHeld(held: set<Cid>, cid: Cid, parent: Option<Cid>, s: Section)
    requires RevisionShape(cid) && (parent.Some? ==> RevisionShape(parent.value))
    requires MapShape(MapCids(cid.block.body).At(s))
  {
    var c := MapCids(cid.block.body).At(s);
    && MapNamed(held, cid, s) && (parent.Some? ==> MapNamed(held, parent.value, s))
    && ((parent.Some? && MapCids(parent.value.block.body).At(s) == c) || (c in held && c.block.changelog in held))
  }

  /** What one revision yields: nothing when the map kept its CID or its changelog is empty. */
  method ChangelogOf(cid: Cid, parent: Option<Cid>, s: Section, store: BlockStore) returns (r: Result<seq<Yielded>>)
    requires RevisionShape(cid) && (parent.Some? ==> RevisionShape(parent.value)) && (s == Content || s == Identities)
    ensures MapShape(MapCids(cid.block.body).At(s))
    ensures r.Ok? ==> r.value == ChangelogSince(cid, parent, s)
    ensures r.Ok? <==> ChangelogHeld(store.held, cid, parent, s)
    ensures r.Err? ==> r.error == BlockNotFound
  {
    var current := MapOf(cid, s, store);
    if current.Err? {
      return Err(current.error);
    }
    if parent.Some? {
      var previous := MapOf(parent.value, s, store);
      if previous.Err? {
        return Err(previous.error);
      }
      if previous.value == current.value {
        return Ok([]);
      }
    }
    var changelog := LoadChangelog(current.value, store);
    if changelog.Err? {
      return Err(changelog.error);
    }
    if changelog.value.changes == [] {
      return Ok([]);
    }
    return Ok([Yielded(cid, changelog.value.did, changelog.value.changes)]);
  }

  /** In a well-formed history a revision yields its changes to the map, if any. */
  lemma YieldsDerived(cfg: Config, cid: Cid, s: Section)
    requires WellFormed(cfg, cid)
    ensures StepShape(cid) && MapShape(MapCids(cid.block.body).At(s))
    ensures ChangelogSince(cid, cid.block.parent, s) == OwnChangelog(cid, s)
  {
    var c := MapCids(cid.block.body).At(s);
    if cid.block.parent.Some? {
      var pb := cid.block.parent.value.block.body;
      DerivedAt(pb, cid.block.body, s);
      assert ExplainedBy(MapCids(pb).At(s), c, AuthorOf(cid).value);
    } else {
      assert c == MapCid(c.block.hamt, None, []);
      assert NO_CHANGES.At(s) == [];
    }
  }

  /** The changelog of a revision can be read. */
  ghost predicate Readable(held: set<Cid>, cid: Cid, s: Section)
  {
    StepShape(cid) && MapShape(MapCids(cid.block.body).At(s)) && ChangelogHeld(held, cid, cid.block.parent, s)
  }

  /** A sparse revision on an outlined one is readable. */
  lemma SparseIsReadable(held: set<Cid>, cid: Cid, s: Section)
    requires StepShape(cid) && StepSparse(held, cid) && (s == Content || s == Identities)
    ensures cid in held && Readable(held, cid, s)
  {
    SparseSections(held, cid.block.body);
  }

  /** `out` are the changelogs up to the first revision whose changelog cannot be read, and
      `r` says whether there is one. */
  ghost predicate ReadsUntilGap(held: set<Cid>, items: seq<Cid>, s: Section, out: seq<Yielded>, r: Result<()>)
  {
    && (r.Ok? || r == Err(BlockNotFound))
    && exists j: nat :: ReadUpTo(held, items, s, j, out) && (r.Ok? <==> j == |items|)
                        && (j < |items| ==> !Readable(held, items[j], s))
  }

  ghost predicate Perused(out: seq<Yielded>)
  {
    true
  }

  ghost predicate ReadUpTo(held: set<Cid>, items: seq<Cid>, s: Section, j: nat, out: seq<Yielded>)
  {
    && j <= |items|
    && forall ys {:trigger Perused(ys)} | Perused(ys) && ys == out ::
         ys == ChangelogsUpTo(items, s, j) && forall i | 0 <= i < j :: Readable(held, items[i], s)
  }

  lemma OpenRead(held: set<Cid>, items: seq<Cid>, s: Section, j: nat, out: seq<Yielded>)
    requires ReadUpTo(held, items, s, j, out)
    ensures j <= |items| && out == ChangelogsUpTo(items, s, j) && forall i | 0 <= i < j :: Readable(held, items[i], s)
  {
    assert Perused(out);
  }

  lemma GapAt(held: set<Cid>, items: seq<Cid>, s: Section, j: nat, out: seq<Yielded>)
    requires ReadUpTo(held, items, s, j, out) && j < |items| && !Readable(held, items[j], s)
    ensures ReadsUntilGap(held, items, s, out, Err(BlockNotFound))
  {}

  lemma ReadWhole(held: set<Cid>, items: seq<Cid>, s: Section, out: seq<Yielded>)
    requires ReadUpTo(held, items, s, |items|, out)
    ensures out == Changelogs(items, s) && ReadsUntilGap(held, items, s, out, Ok(()))
  {
    OpenRead(held, items, s, |items|, out);
  }

  ghost predicate SparseStep(held: set<Cid>, cid: Cid)
  {
    StepShape(cid) && StepSparse(held, cid)
  }

  ghost predicate AllSparse(held: set<Cid>, items: seq<Cid>)
  {
    forall c {:trigger SparseStep(held, c)} | c in items :: SparseStep(held, c)
  }

  lemma SparseIsHeld(held: set<Cid>, items: seq<Cid>)
    requires AllSparse(held, items)
    ensures forall c | c in items :: c in held
  {
    forall c | c in items
      ensures c in held
    {
      assert SparseStep(held, c);
    }
  }

  /** When every revision of the range is sparse there is no gap. */
  lemma NoGap(held: set<Cid>, items: seq<Cid>, s: Section, out: seq<Yielded>, r: Result<()>)
    requires ReadsUntilGap(held, items, s, out, r) && (s == Content || s == Identities)
    requires AllSparse(held, items)
    ensures r.Ok?
  {
    var j: nat :| ReadUpTo(held, items, s, j, out) && (r.Ok? <==> j == |items|)
                  && (j < |items| ==> !Readable(held, items[j], s));
    if j < |items| {
      assert items[j] in items && SparseStep(held, items[j]);
      SparseIsReadable(held, items[j], s);
    }
  }

  ghost predicate Sound(cfg: Config, cid: Cid)
  {
    WellFormed(cfg, cid) && StepShape(cid)
  }

  ghost predicate AllWellFormed(cfg: Config, items: seq<Cid>)
  {
    forall i {:trigger Sound(cfg, items[i])} | 0 <= i < |items| :: Sound(cfg, items[i])
  }

  /** `Sphere::into_content_changelog_stream` and `into_identities_changelog_stream`: the
      changelogs of the revisions after `since` that changed the map, oldest first. The
      history is collected first, and nothing is yielded when a memo of it is missing. */
  method ChangelogStream(cfg: Config, tip: Cid, since: Option<Cid>, s: Section, store: BlockStore)
    returns (out: seq<Yielded>, r: Result<()>)
    requires WellFormed(cfg, tip) && IsLineage(tip) && (s == Content || s == Identities)
    ensures r.Ok? ==> out == Changelogs(HistorySince(tip, since), s)
    ensures if tip in store.held && forall c | c in HistorySince(tip, since) :: c in store.held
            then ReadsUntilGap(store.held, HistorySince(tip, since), s, out, r)
            else out == [] && r == Err(BlockNotFound)
    ensures tip in store.held && AllSparse(store.held, HistorySince(tip, since)) ==> r.Ok?
  {
    ghost var items := HistorySince(tip, since);
    HistoryWellFormed(cfg, tip, since);
    HistoryIsChain(tip, since);
    var history, collected := HistoryStream(tip, since, store);
    HistoryGap(tip, items, history, store.held, collected);
    if collected.Err? {
      if AllSparse(store.held, items) {
        SparseIsHeld(store.held, items);
      }
      return [], Err(collected.error);
    }
    HistoryRecorded(cfg, items, s);
    ReversedIsChronological(history, items);
    out, r := ChangelogsOf(history, s, store);
    if AllSparse(store.held, items) {
      NoGap(store.held, items, s, out, r);
    }
  }

  /** A collected history is whole exactly when every memo it loads is held. */
  lemma HistoryGap(tip: Cid, items: seq<Cid>, history: seq<Cid>, held: set<Cid>, r: Result<()>)
    requires Listed(items, history, held) && (r.Ok? ==> NewestFirst(history, items) && tip in held)
    requires r.Err? ==> GapInHistory(tip, items, history, held)
    ensures r.Ok? <==> tip in held && forall c | c in items :: c in held
  {
    if r.Ok? {
      forall c | c in items
        ensures c in held
      {
        var i :| 0 <= i < |items| && items[i] == c;
        assert history[|items| - 1 - i] == c;
      }
    } else {
      GapIsMissing(tip, items, history, held);
    }
  }

  /** `into_iter().rev()` */
  function Reversed(history: seq<Cid>): (items: seq<Cid>)
    ensures |items| == |history|
  {
    seq(|history|, i requires 0 <= i < |history| => history[|history| - 1 - i])
  }

  lemma ReversedIsChronological(history: seq<Cid>, items: seq<Cid>)
    requires NewestFirst(history, items)
    ensures Reversed(history) == items
  {
    forall i | 0 <= i < |items|
      ensures Reversed(history)[i] == items[i]
    {
      assert history[|items| - 1 - i] == items[i];
    }
  }

  /** One revision, compared with the one before, or with its parent at the start. */
  method NextChangelog(items: seq<Cid>, i: nat, parent: Option<Cid>, s: Section, store: BlockStore, ys: seq<Yielded>)
    returns (r: Result<seq<Yielded>>)
    requires Chain(items) && Recorded(items, s) && (s == Content || s == Identities)
    requires i < |items| && parent == (if i == 0 then None else Some(items[i - 1]))
    requires ReadUpTo(store.held, items, s, i, ys)
    ensures r.Ok? ==> ReadUpTo(store.held, items, s, i + 1, r.value)
    ensures r.Err? ==> r.error == BlockNotFound && !Readable(store.held, items[i], s)
  {
    RecordedNext(items, i, s);
    var next := ChangelogOf(items[i], if parent.Some? then parent else items[i].block.parent, s, store);
    if next.Err? {
      return Err(next.error);
    }
    ReadMore(store.held, items, s, i, ys);
    return Ok(ys + next.value);
  }

  lemma RecordedNext(items: seq<Cid>, i: nat, s: Section)
    requires Chain(items) && Recorded(items, s) && i < |items|
    ensures RecordedIn(items[i], s) && (i > 0 ==> items[i].block.parent == Some(items[i - 1]))
  {
    assert i > 0 ==> ChildOf(items, i);
  }

  lemma ReadMore(held: set<Cid>, items: seq<Cid>, s: Section, i: nat, ys: seq<Yielded>)
    requires i < |items| && ReadUpTo(held, items, s, i, ys) && RecordedIn(items[i], s) && Readable(held, items[i], s)
    ensures ReadUpTo(held, items, s, i + 1, ys + ChangelogSince(items[i], items[i].block.parent, s))
  {
    OpenRead(held, items, s, i, ys);
  }

  /** Goes through a collected history in reverse, comparing each revision with the one
      before. */
  method ChangelogsOf(history: seq<Cid>, s: Section, store: BlockStore) returns (ys: seq<Yielded>, r: Result<()>)
    requires Chain(Reversed(history)) && Recorded(Reversed(history), s) && (s == Content || s == Identities)
    ensures r.Ok? ==> ys == Changelogs(Reversed(history), s)
    ensures ReadsUntilGap(store.held, Reversed(history), s, ys, r)
  {
    var items := Reversed(history);
    var parent: Option<Cid> := None;
    ys := [];
    for i := 0 to |items|
      invariant ReadUpTo(store.held, items, s, i, ys)
      invariant parent == if i == 0 then None else Some(items[i - 1])
    {
      var next := NextChangelog(items, i, parent, s, store, ys);
      if next.Err? {
        GapAt(store.held, items, s, i, ys);
        return ys, Err(next.error);
      }
      ys := next.value;
      parent := Some(items[i]);
    }
    ReadWhole(store.held, items, s, ys);
    return ys, Ok(());
  }

  /** A revision records what it did to the map. */
  ghost predicate RecordedIn(cid: Cid, s: Section)
  {
    && StepShape(cid) && MapShape(MapCids(cid.block.body).At(s))
    && ChangelogSince(cid, cid.block.parent, s) == OwnChangelog(cid, s)
  }

  ghost predicate Recorded(items: seq<Cid>, s: Section)
  {
    forall i {:trigger RecordedIn(items[i], s)} | 0 <= i < |items| :: RecordedIn(items[i], s)
  }

  lemma HistoryRecorded(cfg: Config, items: seq<Cid>, s: Section)
    requires AllWellFormed(cfg, items)
    ensures Recorded(items, s)
  {
    forall i | 0 <= i < |items|
      ensures RecordedIn(items[i], s)
    {
      assert Sound(cfg, items[i]);
      YieldsDerived(cfg, items[i], s);
    }
  }

  lemma HistoryIsChain(tip: Cid, since: Option<Cid>)
    requires IsLineage(tip)
    ensures Chain(HistorySince(tip, since))
  {
    SliceIsChain(tip, since, true);
  }

  // ----- Replay -----

  /** The entries of one map of a revision, or none before the first revision. */
  ghost function EntriesOf(cfg: Config, cid: Option<Cid>, s: Section): Entries
  {
    if cid.Some? && IsRevision(cfg, cid.value) then RevisionMaps(cfg, cid.value).At(s) else map[]
  }

  ghost function EntriesBefore(cfg: Config, cid: Cid, s: Section): Entries
  {
    if cid.block.MemoBlock? then EntriesOf(cfg, cid.block.parent, s) else map[]
  }

  /** The changes of a revision lead from its parent's entries to its own. */
  ghost predicate Replays(cfg: Config, cid: Cid, s: Section)
  {
    EntriesOf(cfg, Some(cid), s) == ApplyOps(EntriesBefore(cfg, cid, s), OwnChanges(cid, s))
  }

  lemma WellFormedReplays(cfg: Config, cid: Cid, s: Section)
    requires WellFormed(cfg, cid)
    ensures Replays(cfg, cid, s)
  {
    if cid.block.parent.None? {
      EmptyBodyDenotes(cfg, cid.block.body);
      BodyMapsUnique(cfg, cid.block.body, RevisionMaps(cfg, cid), EMPTY_MAPS);
      assert EMPTY_MAPS.At(s) == map[] && NO_CHANGES.At(s) == [];
    } else {
      ApplyAllAt(RevisionMaps(cfg, cid.block.parent.value), Derived(cid), s);
    }
  }

  lemma {:induction false} ReplayUpTo(cfg: Config, items: seq<Cid>, s: Section, n: nat)
    requires Chain(items) && 0 < n <= |items| && forall i | 0 <= i < |items| :: Replays(cfg, items[i], s)
    ensures EntriesOf(cfg, Some(items[n - 1]), s) == ApplyOps(EntriesBefore(cfg, items[0], s), ChangesUpTo(items, s, n))
    decreases n
  {
    var own := OwnChanges(items[n - 1], s);
    if n == 1 {
      assert ChangesUpTo(items, s, 0) == [];
      assert ChangesUpTo(items, s, 1) == [] + own && [] + own == own;
    } else {
      ReplayUpTo(cfg, items, s, n - 1);
      assert ChildOf(items, n - 1);
      ApplyOpsAppend(EntriesBefore(cfg, items[0], s), ChangesUpTo(items, s, n - 1), own);
    }
  }

  /** Replaying the changes of a range of revisions in order. */
  lemma RangeReplay(cfg: Config, items: seq<Cid>, s: Section)
    requires items != [] && Chain(items) && AllWellFormed(cfg, items)
    ensures EntriesOf(cfg, Some(items[|items| - 1]), s) ==
              ApplyOps(EntriesBefore(cfg, items[0], s), ChangesOf(items, s))
  {
    forall i | 0 <= i < |items|
      ensures Replays(cfg, items[i], s)
    {
      assert Sound(cfg, items[i]);
      WellFormedReplays(cfg, items[i], s);
    }
    ReplayUpTo(cfg, items, s, |items|);
  }

  lemma {:induction false} AncestryStarts(cid: Cid)
    requires IsLineage(cid)
    ensures Ancestry(cid) != [] && Ancestry(cid)[0].block.MemoBlock? && Ancestry(cid)[0].block.parent.None?
  {
    if cid.block.parent.Some? {
      AncestryStarts(cid.block.parent.value);
    }
  }

  lemma {:induction false} AncestryIsChain(cid: Cid)
    requires IsLineage(cid)
    ensures Chain(Ancestry(cid))
  {
    SliceFromGenesis(cid, None, true);
    SliceIsChain(cid, None, true);
  }

  /** The history after a strict ancestor starts with that ancestor's child. */
  lemma HistoryStartsAfter(tip: Cid, since: Cid)
    requires IsLineage(tip) && since in Ancestry(tip) && since != tip
    ensures var items := HistorySince(tip, Some(since));
      items != [] && items[0].block.MemoBlock? && items[0].block.parent == Some(since)
  {
    SliceFromAncestor(tip, since, true);
    AncestryEnds(tip);
    AncestryEnds(since);
    AncestryIsChain(tip);
    var all, k := Ancestry(tip), |Ancestry(since)|;
    assert all[..k] == Ancestry(since) && all[k - 1] == Ancestry(since)[k - 1] && ChildOf(all, k);
    assert HistorySince(tip, Some(since)) == all[k..];
  }

  lemma HistoryStartsAtGenesis(tip: Cid, since: Option<Cid>)
    requires IsLineage(tip) && (since.Some? ==> since.value !in Ancestry(tip))
    ensures var items := HistorySince(tip, since);
      items != [] && items[0].block.MemoBlock? && items[0].block.parent.None?
  {
    SliceFromGenesis(tip, since, true);
    AncestryStarts(tip);
    AncestryEnds(tip);
  }

  lemma HistoryWellFormed(cfg: Config, tip: Cid, since: Option<Cid>)
    requires WellFormed(cfg, tip) && IsLineage(tip)
    ensures AllWellFormed(cfg, HistorySince(tip, since))
  {
    SliceWellFormed(cfg, tip, since, true);
  }

  lemma SliceWellFormed(cfg: Config, tip: Cid, past: Option<Cid>, excludePast: bool)
    requires WellFormed(cfg, tip) && IsLineage(tip)
    ensures Chain(Slice(tip, past, excludePast)) && AllWellFormed(cfg, Slice(tip, past, excludePast))
  {
    WellFormedLineage(cfg, tip);
    SliceIsChain(tip, past, excludePast);
    var items := Slice(tip, past, excludePast);
    forall i | 0 <= i < |items|
      ensures Sound(cfg, items[i])
    {
      assert items[i] in items;
    }
  }

  /** The operations a changelog stream yields for one map. */
  ghost function Replayed(tip: Cid, since: Option<Cid>, s: Section): Changes
    requires IsLineage(tip)
  {
    Operations(Changelogs(HistorySince(tip, since), s))
  }

  lemma HistoryReplay(cfg: Config, tip: Cid, since: Option<Cid>, s: Section)
    requires WellFormed(cfg, tip) && IsLineage(tip) && since != Some(tip)
    ensures HistorySince(tip, since) != []
    ensures RevisionMaps(cfg, tip).At(s) ==
            ApplyOps(EntriesBefore(cfg, HistorySince(tip, since)[0], s), Replayed(tip, since, s))
  {
    var items := HistorySince(tip, since);
    HistoryWellFormed(cfg, tip, since);
    ChangelogsHoldAllChanges(items, s);
    SliceIsChain(tip, since, true);
    RangeReplay(cfg, items, s);
  }

  /** Replaying the yielded changelogs on the map at `since` gives the tip's map. */
  lemma ReplaySince(cfg: Config, tip: Cid, since: Cid, s: Section)
    requires WellFormed(cfg, tip) && IsLineage(tip) && since in Ancestry(tip)
    ensures IsRevision(cfg, since)
    ensures RevisionMaps(cfg, tip).At(s) == ApplyOps(RevisionMaps(cfg, since).At(s), Replayed(tip, Some(since), s))
  {
    if since != tip {
      HistoryReplay(cfg, tip, Some(since), s);
      HistoryStartsAfter(tip, since);
    }
  }

  /** From the beginning, or from a revision outside the lineage, they give the tip's map
      out of nothing. */
  lemma ReplayFromGenesis(cfg: Config, tip: Cid, since: Option<Cid>, s: Section)
    requires WellFormed(cfg, tip) && IsLineage(tip) && (since.Some? ==> since.value !in Ancestry(tip))
    ensures RevisionMaps(cfg, tip).At(s) == ApplyOps(map[], Replayed(tip, since, s))
  {
    AncestryEnds(tip);
    HistoryReplay(cfg, tip, since, s);
    HistoryStartsAtGenesis(tip, since);
  }

  /** The changelog of `since` is never among the yielded ones. */
  lemma SinceIsNotYielded(tip: Cid, since: Cid, s: Section)
    requires IsLineage(tip)
    ensures forall y | y in Changelogs(HistorySince(tip, Some(since)), s) :: y.cid != since
  {
    ChangelogsHoldAllChanges(HistorySince(tip, Some(since)), s);
    SinceIsExcluded(tip, since);
  }
}
