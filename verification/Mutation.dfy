/** Mutations of the four versioned maps of a sphere and their composition. */
module Mutations {
  import opened Wrappers
  import opened Pairs
  import opened Blocks

  type Changes = seq<MapOperation>

  /** The four versioned maps of a sphere. */
  datatype Section = Content | Identities | Delegations | Revocations

  /** One value for each of the four maps. */
  datatype Four<+T> = Four(content: T, identities: T, delegations: T, revocations: T) {
    function At(s: Section): T {
      match s
      case Content => content
      case Identities => identities
      case Delegations => delegations
      case Revocations => revocations
    }

    lemma Extensional(other: Four<T>)
      requires forall s :: At(s) == other.At(s)
      ensures this == other
    {
      assert At(Content) == other.At(Content) && At(Identities) == other.At(Identities);
      assert At(Delegations) == other.At(Delegations) && At(Revocations) == other.At(Revocations);
    }
  }

  function Put<T>(f: Four<T>, s: Section, v: T): (r: Four<T>)
    ensures r.At(s) == v && forall t | t != s :: r.At(t) == f.At(t)
  {
    match s
    case Content => f.(content := v)
    case Identities => f.(identities := v)
    case Delegations => f.(delegations := v)
    case Revocations => f.(revocations := v)
  }

  const NO_CHANGES: Four<Changes> := Four([], [], [], [])

  // ----- The meaning of a list of changes -----

  function ApplyOp(m: Entries, op: MapOperation): Entries
  {
    match op
    case Add(k, v) => m[k := v]
    case Remove(k) => m - {k}
  }

  function ApplyUpTo(m: Entries, ops: Changes, n: nat): Entries
    requires n <= |ops|
  {
    if n == 0 then m else ApplyOp(ApplyUpTo(m, ops, n - 1), ops[n - 1])
  }

  /** All operations in order. */
  function ApplyOps(m: Entries, ops: Changes): Entries
  {
    ApplyUpTo(m, ops, |ops|)
  }

  function ApplyAll(maps: Four<Entries>, changes: Four<Changes>): Four<Entries>
  {
    Four(ApplyOps(maps.content, changes.content), ApplyOps(maps.identities, changes.identities),
         ApplyOps(maps.delegations, changes.delegations), ApplyOps(maps.revocations, changes.revocations))
  }

  lemma ApplyAllAt(maps: Four<Entries>, changes: Four<Changes>, s: Section)
    ensures ApplyAll(maps, changes).At(s) == ApplyOps(maps.At(s), changes.At(s))
  {}

  lemma {:induction false} ApplyPrefix(m: Entries, a: Changes, b: Changes, n: nat)
    requires n <= |a|
    ensures ApplyUpTo(m, a + b, n) == ApplyUpTo(m, a, n)
    decreases n
  {
    if n > 0 {
      ApplyPrefix(m, a, b, n - 1);
    }
  }

  lemma ApplyPush(m: Entries, a: Changes, op: MapOperation)
    ensures ApplyOps(m, a + [op]) == ApplyOp(ApplyOps(m, a), op)
  {
    ApplyPrefix(m, a, [op], |a|);
  }

  lemma {:induction false} ApplyRest(m: Entries, a: Changes, b: Changes, n: nat)
    requires n <= |b|
    ensures ApplyUpTo(m, a + b, |a| + n) == ApplyUpTo(ApplyOps(m, a), b, n)
    decreases n
  {
    if n == 0 {
      ApplyPrefix(m, a, b, |a|);
    } else {
      ApplyRest(m, a, b, n - 1);
    }
  }

  lemma ApplyOpsAppend(m: Entries, a: Changes, b: Changes)
    ensures ApplyOps(m, a + b) == ApplyOps(ApplyOps(m, a), b)
  {
    ApplyRest(m, a, b, |b|);
  }

  ghost predicate TouchesUpTo(ops: Changes, k: Key, n: nat)
    requires n <= |ops|
  {
    exists i :: 0 <= i < n && ops[i].key == k
  }

  ghost predicate Touches(ops: Changes, k: Key)
  {
    TouchesUpTo(ops, k, |ops|)
  }

  function EffectOf(op: MapOperation): Option<Value>
  {
    match op
    case Add(_, v) => Some(v)
    case Remove(_) => None
  }

  function LastUpTo(ops: Changes, k: Key, n: nat): Option<Value>
    requires n <= |ops|
  {
    if n == 0 then None
    else if ops[n - 1].key == k then EffectOf(ops[n - 1])
    else LastUpTo(ops, k, n - 1)
  }

  /** What the last operation on `k` in `ops` leaves there. */
  ghost function LastEffect(ops: Changes, k: Key): Option<Value>
    requires Touches(ops, k)
  {
    LastUpTo(ops, k, |ops|)
  }

  lemma {:induction false} LastWinsUpTo(m: Entries, ops: Changes, k: Key, n: nat)
    requires n <= |ops|
    ensures Lookup(ApplyUpTo(m, ops, n), k) == if TouchesUpTo(ops, k, n) then LastUpTo(ops, k, n) else Lookup(m, k)
    decreases n
  {
    if n > 0 {
      LastWinsUpTo(m, ops, k, n - 1);
      if ops[n - 1].key != k {
        assert TouchesUpTo(ops, k, n) <==> TouchesUpTo(ops, k, n - 1);
      }
    }
  }

  /** Touched keys take the last operation, untouched keys keep the base's value. */
  lemma LastOperationWins(m: Entries, ops: Changes, k: Key)
    ensures Lookup(ApplyOps(m, ops), k) == if Touches(ops, k) then LastEffect(ops, k) else Lookup(m, k)
  {
    LastWinsUpTo(m, ops, k, |ops|);
  }

  // ----- append_changes -----

  ghost predicate OncePerKey(ops: Changes)
  {
    forall i, j | 0 <= i < j < |ops| :: ops[i].key != ops[j].key
  }

  function Without(ops: Changes, k: Key): Changes
  {
    if ops == [] then []
    else Without(ops[..|ops| - 1], k) + if ops[|ops| - 1].key == k then [] else [ops[|ops| - 1]]
  }

  lemma {:induction false} WithoutKeeps(m: Entries, ops: Changes, k: Key, op: MapOperation)
    requires op.key == k
    ensures ApplyOp(ApplyOps(m, Without(ops, k)), op) == ApplyOp(ApplyOps(m, ops), op)
    decreases |ops|
  {
    if ops != [] {
      var init, last := ops[..|ops| - 1], ops[|ops| - 1];
      WithoutKeeps(m, init, k, op);
      assert ops == init + [last];
      ApplyPush(m, init, last);
      if last.key != k {
        ApplyPush(m, Without(init, k), last);
        CommuteDistinct(ApplyOps(m, Without(init, k)), last, op);
        CommuteDistinct(ApplyOps(m, init), last, op);
      } else {
        assert Without(ops, k) == Without(init, k);
        Overwrites(ApplyOps(m, init), last, op);
      }
    }
  }

  lemma CommuteDistinct(m: Entries, a: MapOperation, b: MapOperation)
    requires a.key != b.key
    ensures ApplyOp(ApplyOp(m, a), b) == ApplyOp(ApplyOp(m, b), a)
  {}

  lemma Overwrites(m: Entries, a: MapOperation, b: MapOperation)
    requires a.key == b.key
    ensures ApplyOp(ApplyOp(m, a), b) == ApplyOp(m, b)
  {}

  lemma {:induction false} WithoutKey(ops: Changes, k: Key)
    ensures forall i | 0 <= i < |Without(ops, k)| :: Without(ops, k)[i].key != k && Without(ops, k)[i] in ops
    ensures OncePerKey(ops) ==> OncePerKey(Without(ops, k))
    ensures forall op | op in ops && op.key != k :: op in Without(ops, k)
    decreases |ops|
  {
    if ops != [] {
      var init, last := ops[..|ops| - 1], ops[|ops| - 1];
      WithoutKey(init, k);
      assert ops == init + [last];
      assert forall op :: op in ops <==> op in init || op == last;
      if OncePerKey(ops) {
        assert OncePerKey(init);
        forall i | 0 <= i < |Without(init, k)|
          ensures Without(init, k)[i].key != last.key
        {
          var j :| 0 <= j < |init| && init[j] == Without(init, k)[i];
          assert ops[j].key != ops[|ops| - 1].key;
        }
      }
    }
  }

  /** `destination.retain(|op| op.key != key)` */
  method Retain(destination: Changes, key: Key) returns (kept: Changes)
    ensures kept == Without(destination, key)
  {
    kept := [];
    for i := 0 to |destination|
      invariant kept == Without(destination[..i], key)
    {
      assert destination[..i + 1][..i] == destination[..i];
      if destination[i].key != key {
        kept := kept + [destination[i]];
      }
    }
    assert destination[..|destination|] == destination;
  }

  /** Folds later changes into earlier ones, keeping one operation per key. */
  method AppendChanges(destination: Changes, source: Changes) returns (result: Changes)
    ensures forall m: Entries :: ApplyOps(m, result) == ApplyOps(ApplyOps(m, destination), source)
    ensures OncePerKey(destination) ==> OncePerKey(result)
    ensures forall op :: op in result ==> op in destination || op in source
    ensures forall op | op in source :: Touches(result, op.key)
    ensures destination + source == [] <==> result == []
  {
    result := destination;
    for i := 0 to |source|
      invariant Composes(destination, source, i, result)
      invariant OncePerKey(destination) ==> OncePerKey(result)
      invariant forall op :: op in result ==> op in destination || op in source
      invariant forall j | 0 <= j < i :: Touches(result, source[j].key)
      invariant i == 0 ==> result == destination
      invariant i > 0 ==> result != []
    {
      var change := source[i];
      var kept := Retain(result, change.key);
      ComposesMore(destination, source, i, result);
      FoldOnce(result, change);
      TouchesMore(source, i, result);
      result := kept + [change];
    }
  }

  /** One change folded in: it replaces any earlier operation on its key. */
  function Fold(ops: Changes, change: MapOperation): Changes
  {
    Without(ops, change.key) + [change]
  }

  lemma FoldApplies(m: Entries, ops: Changes, change: MapOperation)
    ensures ApplyOps(m, Fold(ops, change)) == ApplyOp(ApplyOps(m, ops), change)
  {
    ApplyPush(m, Without(ops, change.key), change);
    WithoutKeeps(m, ops, change.key, change);
  }

  lemma FoldOnce(ops: Changes, change: MapOperation)
    ensures OncePerKey(ops) ==> OncePerKey(Fold(ops, change))
    ensures forall op :: op in Fold(ops, change) ==> op in ops || op == change
  {
    WithoutKey(ops, change.key);
  }

  lemma FoldTouches(ops: Changes, change: MapOperation, k: Key)
    requires k == change.key || Touches(ops, k)
    ensures Touches(Fold(ops, change), k)
  {
    var kept, next := Without(ops, change.key), Fold(ops, change);
    if k == change.key {
      assert next[|kept|].key == k;
    } else {
      WithoutKey(ops, change.key);
      var t :| 0 <= t < |ops| && ops[t].key == k;
      assert ops[t] in kept;
      var u :| 0 <= u < |kept| && kept[u] == ops[t];
      assert next[u].key == k;
    }
  }

  /** `result` has the effect of `destination` followed by `n` changes of `source`. */
  ghost predicate Composes(destination: Changes, source: Changes, n: nat, result: Changes)
    requires n <= |source|
  {
    forall m: Entries :: ApplyOps(m, result) == ApplyUpTo(ApplyOps(m, destination), source, n)
  }

  lemma ComposesMore(destination: Changes, source: Changes, i: nat, result: Changes)
    requires i < |source| && Composes(destination, source, i, result)
    ensures Composes(destination, source, i + 1, Fold(result, source[i]))
  {
    forall m: Entries
      ensures ApplyOps(m, Fold(result, source[i])) == ApplyUpTo(ApplyOps(m, destination), source, i + 1)
    {
      assert ApplyOps(m, result) == ApplyUpTo(ApplyOps(m, destination), source, i);
      FoldApplies(m, result, source[i]);
    }
  }

  lemma TouchesMore(source: Changes, i: nat, result: Changes)
    requires i < |source| && forall j | 0 <= j < i :: Touches(result, source[j].key)
    ensures forall j | 0 <= j < i + 1 :: Touches(Fold(result, source[i]), source[j].key)
  {
    forall j | 0 <= j < i + 1
      ensures Touches(Fold(result, source[i]), source[j].key)
    {
      FoldTouches(result, source[i], source[j].key);
    }
  }

  // ----- SphereMutation -----

  class SphereMutation {
    const did: string
    var changes: Four<Changes>

    constructor (did: string)
      ensures this.did == did && changes == NO_CHANGES
    {
      this.did := did;
      changes := NO_CHANGES;
    }

    method Reset()
      modifies this
      ensures changes == NO_CHANGES
    {
      changes := NO_CHANGES;
    }

    method IsEmpty() returns (r: bool)
      ensures r <==> forall s :: changes.At(s) == []
    {
      r := && |changes.content| == 0 && |changes.identities| == 0
           && |changes.delegations| == 0 && |changes.revocations| == 0;
      if r {
        forall s ensures changes.At(s) == [] {}
      } else {
        assert changes.At(Content) != [] || changes.At(Identities) != []
            || changes.At(Delegations) != [] || changes.At(Revocations) != [];
      }
    }

    /** `VersionedMapMutation::set` on one section. */
    method Set(s: Section, key: Key, value: Value)
      modifies this
      ensures changes == Put(old(changes), s, old(changes).At(s) + [Add(key, value)])
    {
      changes := Put(changes, s, changes.At(s) + [Add(key, value)]);
    }

    /** `VersionedMapMutation::remove` on one section. */
    method Remove(s: Section, key: Key)
      modifies this
      ensures changes == Put(old(changes), s, old(changes).At(s) + [MapOperation.Remove(key)])
    {
      changes := Put(changes, s, changes.At(s) + [MapOperation.Remove(key)]);
    }

    /** `VersionedMapMutation::apply_changelog` on one section. */
    method ApplyChangelog(s: Section, author: Option<string>, ops: Changes) returns (r: Result<()>)
      modifies this
      ensures r == if author.None? then Err(NoChangelogAuthor)
                   else if author.value != did then Err(UnexpectedAuthor)
                   else Ok(())
      ensures r.Ok? ==> changes == Put(old(changes), s, ops)
      ensures r.Err? ==> changes == old(changes)
    {
      if author.None? {
        return Err(NoChangelogAuthor);
      }
      if author.value != did {
        return Err(UnexpectedAuthor);
      }
      changes := Put(changes, s, ops);
      return Ok(());
    }

    /** Appending another mutation composes their effects on every base. */
    method Append(other: SphereMutation)
      modifies this
      ensures forall maps: Four<Entries> ::
                ApplyAll(maps, changes) == ApplyAll(ApplyAll(maps, old(changes)), old(other.changes))
      ensures forall s :: OncePerKey(old(changes).At(s)) ==> OncePerKey(changes.At(s))
      ensures forall s, op :: op in changes.At(s) ==> op in old(changes).At(s) || op in old(other.changes).At(s)
    {
      var c := AppendChanges(changes.content, other.changes.content);
      var i := AppendChanges(changes.identities, other.changes.identities);
      var d := AppendChanges(changes.delegations, other.changes.delegations);
      var r := AppendChanges(changes.revocations, other.changes.revocations);
      changes := Four(c, i, d, r);
    }
  }
}
