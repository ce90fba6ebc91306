/** Map keys with their byte-wise order, key/value pairs, and the sorted pair lists
    that HAMT buckets hold. */
module Pairs {
  import opened Wrappers

  datatype Key = Key(text: string)

  datatype Value = Value(encoded: string)

  datatype KeyValue = KeyValue(key: Key, value: Value)

  type Entries = map<Key, Value>

  ghost function Lookup(m: Entries, k: Key): Option<Value>
  {
    if k in m then Some(m[k]) else None
  }

  // ----- The order on keys -----

  predicate Less(a: Key, b: Key)
  {
    LessText(a.text, b.text)
  }

  predicate LessText(a: string, b: string)
  {
    if b == "" then false
    else if a == "" then true
    else if a[0] != b[0] then a[0] < b[0]
    else LessText(a[1..], b[1..])
  }

  lemma {:induction false} LessTextStrict(a: string, b: string)
    ensures !LessText(a, a)
    ensures LessText(a, b) ==> !LessText(b, a)
    ensures a != b ==> LessText(a, b) || LessText(b, a)
    decreases |a| + |b|
  {
    if a != "" {
      LessTextStrict(a[1..], if b == "" then "" else b[1..]);
    } else if b != "" {
      LessTextStrict(a, b[1..]);
    }
    if a != "" && b != "" && a[0] == b[0] && a[1..] == b[1..] {
      assert a == [a[0]] + a[1..] == [b[0]] + b[1..] == b;
    }
  }

  lemma {:induction false} LessTextTransitive(a: string, b: string, c: string)
    requires LessText(a, b) && LessText(b, c)
    ensures LessText(a, c)
  {
    if a != "" && a[0] == b[0] == c[0] {
      LessTextTransitive(a[1..], b[1..], c[1..]);
    }
  }

  /** The texts agree up to `n`, where `a` ends or has the smaller character. */
  ghost predicate DiffersAt(a: string, b: string, n: nat)
  {
    && n <= |a| && n < |b|
    && (forall i | 0 <= i < n :: a[i] == b[i])
    && (n == |a| || a[n] < b[n])
  }

  /** `a` comes before `b` at the first place where they differ. */
  ghost predicate TextBefore(a: string, b: string)
  {
    exists n: nat :: DiffersAt(a, b, n)
  }

  /** The recursive comparison is the order by the first difference. */
  lemma {:induction false} LessTextIff(a: string, b: string)
    ensures LessText(a, b) <==> TextBefore(a, b)
    decreases |a|
  {
    if b != "" && a != "" && a[0] == b[0] {
      LessTextIff(a[1..], b[1..]);
      if TextBefore(a[1..], b[1..]) {
        var n: nat :| DiffersAt(a[1..], b[1..], n);
        DiffersLater(a, b, n);
      }
      if TextBefore(a, b) {
        var n: nat :| DiffersAt(a, b, n);
        DiffersLater(a, b, n - 1);
      }
    } else if LessText(a, b) {
      assert DiffersAt(a, b, 0);
    }
  }

  lemma DiffersLater(a: string, b: string, n: nat)
    requires a != "" && b != "" && a[0] == b[0]
    ensures DiffersAt(a[1..], b[1..], n) <==> DiffersAt(a, b, n + 1)
  {
    if DiffersAt(a[1..], b[1..], n) {
      assert forall i | 0 < i < n + 1 :: a[i] == a[1..][i - 1] && b[i] == b[1..][i - 1];
    }
  }

  lemma LessStrict(a: Key, b: Key)
    ensures !Less(a, a)
    ensures Less(a, b) ==> !Less(b, a)
    ensures a != b ==> Less(a, b) || Less(b, a)
  {
    LessTextStrict(a.text, b.text);
  }

  lemma LessTransitive(a: Key, b: Key, c: Key)
    requires Less(a, b) && Less(b, c)
    ensures Less(a, c)
  {
    LessTextTransitive(a.text, b.text, c.text);
  }

  // ----- Pair lists and the maps they enumerate -----

  ghost predicate HasKey(ps: seq<KeyValue>, k: Key)
  {
    exists i :: 0 <= i < |ps| && ps[i].key == k
  }

  /** `ps` holds every entry of `m` exactly once. */
  ghost predicate Enumerates(ps: seq<KeyValue>, m: Entries)
  {
    && (forall i | 0 <= i < |ps| :: ps[i].key in m && m[ps[i].key] == ps[i].value)
    && (forall i, j | 0 <= i < j < |ps| :: ps[i].key != ps[j].key)
    && (forall k | k in m :: HasKey(ps, k))
  }

  ghost predicate Sorted(ps: seq<KeyValue>)
  {
    forall i, j | 0 <= i < j < |ps| :: Less(ps[i].key, ps[j].key)
  }

  /** A bucket's list: the entries of `m` in key order. */
  ghost predicate SortedListing(ps: seq<KeyValue>, m: Entries)
  {
    Sorted(ps) && Enumerates(ps, m)
  }

  /** Buckets are in the order of their key texts. */
  lemma SortedByText(ps: seq<KeyValue>)
    ensures Sorted(ps) <==> forall i, j | 0 <= i < j < |ps| :: TextBefore(ps[i].key.text, ps[j].key.text)
  {
    forall i, j | 0 <= i < j < |ps|
      ensures Less(ps[i].key, ps[j].key) <==> TextBefore(ps[i].key.text, ps[j].key.text)
    {
      LessTextIff(ps[i].key.text, ps[j].key.text);
    }
  }

  lemma {:induction false} EnumerationSize(ps: seq<KeyValue>, m: Entries)
    requires Enumerates(ps, m)
    ensures |ps| == |m|
  {
    if ps == [] {
      assert m.Keys == {};
    } else {
      var last := |ps| - 1;
      DropLast(ps, m);
      EnumerationSize(ps[..last], m - {ps[last].key});
      assert m.Keys == (m - {ps[last].key}).Keys + {ps[last].key};
    }
  }

  lemma DropLast(ps: seq<KeyValue>, m: Entries)
    requires Enumerates(ps, m) && ps != []
    ensures Enumerates(ps[..|ps| - 1], m - {ps[|ps| - 1].key})
  {
    var last := |ps| - 1;
    var qs := ps[..last];
    forall k | k in m - {ps[last].key}
      ensures HasKey(qs, k)
    {
      var i :| 0 <= i < |ps| && ps[i].key == k;
      assert qs[i].key == k;
    }
  }

  lemma DropFirst(ps: seq<KeyValue>, m: Entries)
    requires Enumerates(ps, m) && ps != []
    ensures Enumerates(ps[1..], m - {ps[0].key})
  {
    var qs := ps[1..];
    forall k | k in m - {ps[0].key}
      ensures HasKey(qs, k)
    {
      var i :| 0 <= i < |ps| && ps[i].key == k;
      assert qs[i - 1].key == k;
    }
    forall i | 0 <= i < |qs|
      ensures qs[i].key in m - {ps[0].key}
    {
      assert qs[i] == ps[i + 1];
    }
  }

  /** One more pair with a new key. */
  lemma PushEnumerated(ps: seq<KeyValue>, m: Entries, p: KeyValue)
    requires Enumerates(ps, m) && p.key !in m
    ensures Enumerates(ps + [p], m[p.key := p.value])
  {
    var qs := ps + [p];
    forall k | k in m[p.key := p.value]
      ensures HasKey(qs, k)
    {
      if k == p.key {
        assert qs[|ps|].key == k;
      } else {
        var i :| 0 <= i < |ps| && ps[i].key == k;
        assert qs[i].key == k;
      }
    }
  }

  /** The pair after an enumerated prefix is a new one. */
  lemma PrefixIsNew(ps: seq<KeyValue>, m: Entries, j: nat, done: Entries)
    requires Enumerates(ps, m) && j < |ps| && Enumerates(ps[..j], done)
    ensures ps[j].key !in done && done.Keys + {ps[j].key} <= m.Keys
  {
    forall k | k in done
      ensures k in m && k != ps[j].key
    {
      var i :| 0 <= i < |ps[..j]| && ps[..j][i].key == k;
      assert ps[i].key == k;
    }
  }

  lemma PrefixGrows(ps: seq<KeyValue>, m: Entries, j: nat, done: Entries)
    requires j < |ps| && Enumerates(ps, m) && Enumerates(ps[..j], done)
    ensures ps[j].key !in done && done.Keys + {ps[j].key} <= m.Keys
    ensures Enumerates(ps[..j + 1], done[ps[j].key := ps[j].value])
  {
    PrefixIsNew(ps, m, j, done);
    PushEnumerated(ps[..j], done, ps[j]);
    assert ps[..j + 1] == ps[..j] + [ps[j]];
  }

  lemma SameFirst(ps: seq<KeyValue>, qs: seq<KeyValue>, m: Entries)
    requires SortedListing(ps, m) && SortedListing(qs, m) && ps != [] && qs != []
    ensures ps[0] == qs[0]
  {
    assert HasKey(qs, ps[0].key) && HasKey(ps, qs[0].key);
    var j :| 0 <= j < |qs| && qs[j].key == ps[0].key;
    var i :| 0 <= i < |ps| && ps[i].key == qs[0].key;
    LessStrict(ps[0].key, qs[0].key);
  }

  lemma SortedTail(ps: seq<KeyValue>)
    requires Sorted(ps) && ps != []
    ensures Sorted(ps[1..])
  {}

  /** A map has one sorted listing. */
  lemma {:induction false} SortedListingUnique(ps: seq<KeyValue>, qs: seq<KeyValue>, m: Entries)
    requires SortedListing(ps, m) && SortedListing(qs, m)
    ensures ps == qs
    decreases |ps|
  {
    EnumerationSize(ps, m);
    EnumerationSize(qs, m);
    if ps != [] {
      SameFirst(ps, qs, m);
      DropFirst(ps, m);
      DropFirst(qs, m);
      SortedTail(ps);
      SortedTail(qs);
      SortedListingUnique(ps[1..], qs[1..], m - {ps[0].key});
      assert ps == [ps[0]] + ps[1..] && qs == [qs[0]] + qs[1..];
    }
  }

  lemma EnumeratedMapUnique(ps: seq<KeyValue>, m: Entries, n: Entries)
    requires Enumerates(ps, m) && Enumerates(ps, n)
    ensures m == n
  {
    forall k
      ensures k in m <==> k in n
      ensures k in m && k in n ==> m[k] == n[k]
    {
      assert k in m ==> HasKey(ps, k);
      assert k in n ==> HasKey(ps, k);
    }
  }

  // ----- Bucket operations -----

  /** `vals.iter().position(|p| p.key() == &key)` */
  method Position(ps: seq<KeyValue>, key: Key, ghost m: Entries) returns (r: Option<nat>)
    requires Enumerates(ps, m)
    ensures r.Some? <==> key in m
    ensures r.Some? ==> r.value < |ps| && ps[r.value].key == key && m[key] == ps[r.value].value
  {
    for i := 0 to |ps|
      invariant forall j | 0 <= j < i :: ps[j].key != key
    {
      if ps[i].key == key {
        return Some(i);
      }
    }
    assert !HasKey(ps, key);
    return None;
  }

  lemma ReplaceAt(ps: seq<KeyValue>, i: nat, value: Value, m: Entries)
    requires i < |ps| && SortedListing(ps, m)
    ensures SortedListing(ps[i := KeyValue(ps[i].key, value)], m[ps[i].key := value])
  {
    var qs := ps[i := KeyValue(ps[i].key, value)];
    SameKeysSorted(ps, qs);
    forall k | k in m[ps[i].key := value]
      ensures HasKey(qs, k)
    {
      var j :| 0 <= j < |ps| && ps[j].key == k;
      assert qs[j].key == k;
    }
  }

  lemma SameKeysSorted(ps: seq<KeyValue>, qs: seq<KeyValue>)
    requires |ps| == |qs| && (forall j | 0 <= j < |ps| :: qs[j].key == ps[j].key) && Sorted(ps)
    ensures Sorted(qs)
  {}

  lemma RemoveAt(ps: seq<KeyValue>, i: nat, m: Entries)
    requires i < |ps| && SortedListing(ps, m)
    ensures SortedListing(ps[..i] + ps[i + 1..], m - {ps[i].key})
  {
    RemoveSorted(ps, i);
    RemoveEnumerates(ps, i, m);
  }

  lemma RemoveSorted(ps: seq<KeyValue>, i: nat)
    requires i < |ps| && Sorted(ps)
    ensures Sorted(ps[..i] + ps[i + 1..])
  {
    var qs := ps[..i] + ps[i + 1..];
    assert forall j | 0 <= j < |qs| :: qs[j] == ps[if j < i then j else j + 1];
  }

  lemma RemoveEnumerates(ps: seq<KeyValue>, i: nat, m: Entries)
    requires i < |ps| && Enumerates(ps, m)
    ensures Enumerates(ps[..i] + ps[i + 1..], m - {ps[i].key})
  {
    var qs := ps[..i] + ps[i + 1..];
    assert forall j | 0 <= j < |qs| :: qs[j] == ps[if j < i then j else j + 1];
    forall k | k in m - {ps[i].key}
      ensures HasKey(qs, k)
    {
      var j :| 0 <= j < |ps| && ps[j].key == k;
      assert qs[if j < i then j else j - 1].key == k;
    }
  }

  /** Insertion in key order, as in `vals.insert(idx, KeyValuePair::new(key, value))`. */
  method InsertInOrder(ps: seq<KeyValue>, key: Key, value: Value, ghost m: Entries) returns (qs: seq<KeyValue>)
    requires SortedListing(ps, m) && key !in m
    ensures SortedListing(qs, m[key := value])
  {
    var max := |ps|;
    var idx := 0;
    while idx < max && !Less(key, ps[idx].key)
      invariant 0 <= idx <= max
      invariant forall j | 0 <= j < idx :: Less(ps[j].key, key)
    {
      LessStrict(key, ps[idx].key);
      idx := idx + 1;
    }
    qs := ps[..idx] + [KeyValue(key, value)] + ps[idx..];
    InsertAt(ps, idx, key, value, m);
  }

  lemma InsertAt(ps: seq<KeyValue>, idx: nat, key: Key, value: Value, m: Entries)
    requires idx <= |ps| && SortedListing(ps, m) && key !in m
    requires forall j | 0 <= j < idx :: Less(ps[j].key, key)
    requires idx < |ps| ==> Less(key, ps[idx].key)
    ensures SortedListing(ps[..idx] + [KeyValue(key, value)] + ps[idx..], m[key := value])
  {
    InsertSorted(ps, idx, key, value);
    InsertEnumerates(ps, idx, key, value, m);
  }

  lemma InsertSorted(ps: seq<KeyValue>, idx: nat, key: Key, value: Value)
    requires idx <= |ps| && Sorted(ps)
    requires forall j | 0 <= j < idx :: Less(ps[j].key, key)
    requires idx < |ps| ==> Less(key, ps[idx].key)
    ensures Sorted(ps[..idx] + [KeyValue(key, value)] + ps[idx..])
  {
    var qs := ps[..idx] + [KeyValue(key, value)] + ps[idx..];
    forall i, j | 0 <= i < j < |qs|
      ensures Less(qs[i].key, qs[j].key)
    {
      if i == idx && j > idx + 1 {
        LessTransitive(key, ps[idx].key, ps[j - 1].key);
      }
    }
  }

  /** The pairs of a list with one inserted at `idx`. */
  ghost predicate Inserted(ps: seq<KeyValue>, idx: nat, p: KeyValue, qs: seq<KeyValue>)
  {
    && idx <= |ps| && |qs| == |ps| + 1 && qs[idx] == p
    && forall j | 0 <= j < |qs| && j != idx :: qs[j] == ps[if j < idx then j else j - 1]
  }

  lemma InsertEnumerates(ps: seq<KeyValue>, idx: nat, key: Key, value: Value, m: Entries)
    requires idx <= |ps| && Enumerates(ps, m) && key !in m
    ensures Enumerates(ps[..idx] + [KeyValue(key, value)] + ps[idx..], m[key := value])
  {
    var qs := ps[..idx] + [KeyValue(key, value)] + ps[idx..];
    assert Inserted(ps, idx, KeyValue(key, value), qs);
    InsertedDistinct(ps, idx, KeyValue(key, value), qs, m);
    InsertedKeys(ps, idx, KeyValue(key, value), qs, m);
  }

  lemma InsertedDistinct(ps: seq<KeyValue>, idx: nat, p: KeyValue, qs: seq<KeyValue>, m: Entries)
    requires Enumerates(ps, m) && p.key !in m && Inserted(ps, idx, p, qs)
    ensures forall i, j | 0 <= i < j < |qs| :: qs[i].key != qs[j].key
  {
    forall i, j | 0 <= i < j < |qs|
      ensures qs[i].key != qs[j].key
    {
      assert i != idx ==> qs[i] == ps[if i < idx then i else i - 1];
      assert j != idx ==> qs[j] == ps[if j < idx then j else j - 1];
    }
  }

  lemma InsertedKeys(ps: seq<KeyValue>, idx: nat, p: KeyValue, qs: seq<KeyValue>, m: Entries)
    requires Enumerates(ps, m) && p.key !in m && Inserted(ps, idx, p, qs)
    ensures forall k | k in m[p.key := p.value] :: HasKey(qs, k)
  {
    forall k | k in m[p.key := p.value]
      ensures HasKey(qs, k)
    {
      if k == p.key {
        assert qs[idx].key == k;
      } else {
        var j :| 0 <= j < |ps| && ps[j].key == k;
        assert qs[if j < idx then j else j + 1].key == k;
      }
    }
  }

  /** `sort_unstable_by` on keys; the keys of `ps` are distinct, so the order of
      equal elements does not arise. */
  method SortByKey(ps: seq<KeyValue>, ghost m: Entries) returns (qs: seq<KeyValue>)
    requires Enumerates(ps, m)
    ensures SortedListing(qs, m)
  {
    qs := [];
    ghost var done: Entries := map[];
    for i := 0 to |ps|
      invariant SortedListing(qs, done)
      invariant Enumerates(ps[..i], done)
    {
      PrefixGrows(ps, m, i, done);
      qs := InsertInOrder(qs, ps[i].key, ps[i].value, done);
      done := done[ps[i].key := ps[i].value];
    }
    assert ps[..|ps|] == ps;
    EnumeratedMapUnique(ps, done, m);
  }

  // ----- Rearrangement -----

  lemma {:induction false} TwoPlaces(ps: seq<KeyValue>, x: KeyValue)
    requires multiset(ps)[x] >= 2
    ensures exists i, j :: 0 <= i < j < |ps| && ps[i] == x && ps[j] == x
  {
    var n := |ps| - 1;
    assert ps == ps[..n] + [ps[n]];
    if ps[n] == x {
      assert x in multiset(ps[..n]);
      var i :| 0 <= i < n && ps[..n][i] == x;
      assert ps[i] == x;
    } else {
      TwoPlaces(ps[..n], x);
      var i, j :| 0 <= i < j < n && ps[..n][i] == x && ps[..n][j] == x;
      assert ps[i] == x && ps[j] == x;
    }
  }

  lemma {:induction false} TwoCopies(ps: seq<KeyValue>, i: nat, j: nat)
    requires i < j < |ps| && ps[i] == ps[j]
    ensures multiset(ps)[ps[i]] >= 2
  {
    assert ps == ps[..j] + [ps[j]] + ps[j + 1..];
    assert ps[i] == ps[..j][i];
  }

  /** The order of the pairs does not matter. */
  lemma RearrangedEnumerates(ps: seq<KeyValue>, qs: seq<KeyValue>, m: Entries)
    requires Enumerates(ps, m) && multiset(ps) == multiset(qs)
    ensures Enumerates(qs, m)
  {
    forall i | 0 <= i < |qs|
      ensures qs[i] in ps
    {
      assert qs[i] in multiset(qs);
    }
    forall i, j | 0 <= i < j < |qs|
      ensures qs[i].key != qs[j].key
    {
      if qs[i].key == qs[j].key {
        assert qs[i] == qs[j];
        TwoCopies(qs, i, j);
        TwoPlaces(ps, qs[i]);
      }
    }
    forall k | k in m
      ensures HasKey(qs, k)
    {
      var i :| 0 <= i < |ps| && ps[i].key == k;
      assert ps[i] in multiset(ps);
      var j :| 0 <= j < |qs| && qs[j] == ps[i];
    }
  }
}
