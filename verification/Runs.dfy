/** Whole runs of a HAMT: any sequence of operations behaves like the same sequence on
    a plain map, and the root CID depends on nothing but the resulting map. */
module Runs {
  import opened Wrappers
  import opened Pairs
  import opened Blocks
  import opened Trie
  import opened Canonical
  import opened SetFailure
  import opened Hamts

  datatype Operation =
    | SetOp(key: Key, value: Value)
    | SetIfAbsentOp(key: Key, value: Value)
    | GetOp(key: Key)
    | DeleteOp(key: Key)
    | StreamOp
    | FlushOp
    | ReloadOp

  datatype Answer =
    | Previous(value: Option<Value>)
    | Inserted(flag: bool)
    | Found(value: Option<Value>)
    | Removed(pair: Option<KeyValue>)
    | Streamed(pairs: seq<KeyValue>)
    | SavedAs(cid: Cid)
    | Refused

  /** An insertion that would make four keys of the map share a whole hash. */
  ghost predicate Refuses(cfg: Config, m: Entries, op: Operation)
  {
    (op.SetOp? || op.SetIfAbsentOp?) && !NoCollision(cfg, m.Keys + {op.key}, 0)
  }

  /** The effect of one operation on a plain map; a refused insertion has none. */
  ghost function Step(cfg: Config, m: Entries, op: Operation): Entries
  {
    if Refuses(cfg, m, op) then m
    else
      match op
      case SetOp(k, v) => m[k := v]
      case SetIfAbsentOp(k, v) => if k in m then m else m[k := v]
      case DeleteOp(k) => m - {k}
      case _ => m
  }

  ghost function After(cfg: Config, m: Entries, ops: seq<Operation>): Entries
  {
    if ops == [] then m else Step(cfg, After(cfg, m, ops[..|ops| - 1]), ops[|ops| - 1])
  }

  /** The answer a plain map gives; a saved CID names the canonical trie of the map. */
  ghost predicate Answers(cfg: Config, m: Entries, op: Operation, a: Answer)
  {
    match op
    case SetOp(k, _) => a == if Refuses(cfg, m, op) then Refused else Previous(Lookup(m, k))
    case SetIfAbsentOp(k, _) => a == if Refuses(cfg, m, op) then Refused else Inserted(k !in m)
    case GetOp(k) => a == Found(Lookup(m, k))
    case DeleteOp(k) => a == Removed(if k in m then Some(KeyValue(k, m[k])) else None)
    case StreamOp => a.Streamed? && Enumerates(a.pairs, m)
    case FlushOp => a.SavedAs? && RootDenotes(cfg, a.cid, m)
    case ReloadOp => a.SavedAs? && RootDenotes(cfg, a.cid, m)
  }

  /** A refused insertion loses nothing: more than three keys of the map agree with the new
      one on all digits but the last. */
  ghost predicate LosesNothing(cfg: Config, m: Entries, op: Operation)
  {
    Refuses(cfg, m, op) ==> |Neighbours(cfg, m, op.key, 0)| > MAX_ARRAY_WIDTH
  }

  /** No insertion of the run loses entries. Keys of one hash that are never in the map
      together are no obstacle. */
  ghost predicate Permitted(cfg: Config, m: Entries, ops: seq<Operation>)
  {
    forall i | 0 <= i < |ops| :: LosesNothing(cfg, After(cfg, m, ops[..i]), ops[i])
  }

  lemma RefusalIsHarmless(cfg: Config, n: Node, m: Entries, op: Operation)
    requires NodeDenotes(cfg, n, m, 0) && Refuses(cfg, m, op) && LosesNothing(cfg, m, op)
    ensures Lost(cfg, m, op.key, 0) == {}
  {
    MoreThanOneLevel(cfg);
    FailureIsHarmlessIff(cfg, n, m, op.key, 0);
  }

  lemma MoreThanOneLevel(cfg: Config)
    ensures Levels(cfg) > 1
  {
    assert WholeDigits(256, cfg.bitWidth) == 1 + WholeDigits(256 - cfg.bitWidth, cfg.bitWidth);
    assert WholeDigits(256 - cfg.bitWidth, cfg.bitWidth) > 0;
  }

  /** One operation on a HAMT. */
  method Perform(h: Hamt, op: Operation) returns (a: Answer)
    requires h.Valid() && LosesNothing(h.cfg, h.contents, op)
    modifies h, h.store
    ensures h.Valid() && h.contents == Step(h.cfg, old(h.contents), op)
    ensures Answers(h.cfg, old(h.contents), op, a)
  {
    if Refuses(h.cfg, h.contents, op) {
      RefusalIsHarmless(h.cfg, h.root, h.contents, op);
    }
    match op {
      case SetOp(k, v) =>
        var r := h.Set(k, v);
        a := if r.Ok? then Previous(r.value) else Refused;
      case SetIfAbsentOp(k, v) =>
        var r := h.SetIfAbsent(k, v);
        a := if r.Ok? then Inserted(r.value) else Refused;
      case GetOp(k) =>
        var r := h.Get(k);
        a := Found(r.value);
      case DeleteOp(k) =>
        var r := h.Delete(k);
        a := Removed(r.value);
      case StreamOp =>
        var pairs, r := h.Stream();
        a := Streamed(pairs);
      case FlushOp =>
        var r := h.Flush();
        a := SavedAs(r.value);
      case ReloadOp =>
        var r := h.Flush();
        var loaded := h.SetRoot(r.value, h.contents);
        a := SavedAs(r.value);
    }
  }

  /** The answers so far are those of a plain map that starts as `m`. */
  ghost predicate RunAnswers(cfg: Config, m: Entries, ops: seq<Operation>, answers: seq<Answer>)
  {
    && |answers| <= |ops|
    && forall i | 0 <= i < |answers| :: Answers(cfg, After(cfg, m, ops[..i]), ops[i], answers[i])
  }

  lemma RunStep(cfg: Config, m: Entries, ops: seq<Operation>, answers: seq<Answer>, a: Answer)
    requires RunAnswers(cfg, m, ops, answers) && |answers| < |ops|
    requires Answers(cfg, After(cfg, m, ops[..|answers|]), ops[|answers|], a)
    ensures RunAnswers(cfg, m, ops, answers + [a])
  {
    forall j | 0 <= j < |answers + [a]|
      ensures Answers(cfg, After(cfg, m, ops[..j]), ops[j], (answers + [a])[j])
    {
      if j < |answers| {
        assert (answers + [a])[j] == answers[j];
      } else {
        assert j == |answers| && (answers + [a])[j] == a;
      }
    }
  }

  lemma AfterStep(cfg: Config, m: Entries, ops: seq<Operation>, i: nat)
    requires i < |ops|
    ensures After(cfg, m, ops[..i + 1]) == Step(cfg, After(cfg, m, ops[..i]), ops[i])
  {
    assert ops[..i + 1][..i] == ops[..i];
  }

  /** A run answers like a plain map at every step. */
  method Run(h: Hamt, ops: seq<Operation>) returns (answers: seq<Answer>)
    requires h.Valid() && Permitted(h.cfg, h.contents, ops)
    modifies h, h.store
    ensures h.Valid() && h.contents == After(h.cfg, old(h.contents), ops)
    ensures |answers| == |ops| && RunAnswers(h.cfg, old(h.contents), ops, answers)
  {
    answers := [];
    ghost var m := h.contents;
    for i := 0 to |ops|
      invariant h.Valid() && h.contents == After(h.cfg, m, ops[..i])
      invariant |answers| == i && RunAnswers(h.cfg, m, ops, answers)
    {
      var a := Perform(h, ops[i]);
      RunStep(h.cfg, m, ops, answers, a);
      AfterStep(h.cfg, m, ops, i);
      answers := answers + [a];
    }
    assert ops[..|ops|] == ops;
  }

  /** History independence: whatever the operations, the stores and the interleaving of
      flushes and reloads, two runs end in the same root CID exactly when they end in the
      same map. */
  method HistoryIndependent(cfg: Config, ops: seq<Operation>, ops': seq<Operation>) returns (c: Cid, c': Cid)
    requires Permitted(cfg, map[], ops) && Permitted(cfg, map[], ops')
    ensures c == c' <==> After(cfg, map[], ops) == After(cfg, map[], ops')
    ensures RootDenotes(cfg, c, After(cfg, map[], ops))
  {
    ghost var empty: Entries := map[];
    var store := new BlockStore();
    var h := new Hamt(store, cfg);
    var answers := Run(h, ops);
    var r := h.Flush();
    var store' := new BlockStore();
    var h' := new Hamt(store', cfg);
    var answers' := Run(h', ops');
    var r' := h'.Flush();
    c, c' := r.value, r'.value;
    RootCidCharacterizesMap(cfg, c, After(cfg, empty, ops), c', After(cfg, empty, ops'));
  }

  /** The same for any two HAMT states that denote maps, flushed or not. */
  lemma SameMapSameRoot(cfg: Config, a: Node, m: Entries, b: Node, m': Entries)
    requires NodeDenotes(cfg, a, m, 0) && NodeDenotes(cfg, b, m', 0)
    ensures Frozen(a) == Frozen(b) <==> m == m'
  {
    if m == m' {
      TrieUnique(cfg, a, b, m, 0);
    }
    if Frozen(a) == Frozen(b) {
      TrieInjective(cfg, a, b, m, m', 0);
    }
  }
}
