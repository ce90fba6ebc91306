/** Editing the headers of a memo. */
module HeaderEdits {
  import opened Wrappers
  import opened Blocks

  type Headers = seq<(HeaderName, string)>

  // ----- Reading -----

  /** The values of the headers with a name among those at `a .. b`, in order. */
  function Values(headers: Headers, name: HeaderName, a: nat, b: nat): seq<string>
    requires a <= b <= |headers|
    decreases b
  {
    if a == b then [] else Values(headers, name, a, b - 1) + Own(headers[b - 1], name)
  }

  function Own(h: (HeaderName, string), name: HeaderName): seq<string>
  {
    if h.0 == name then [h.1] else []
  }

  /** The values of all headers with a name: `get_header`. */
  function ValuesOf(headers: Headers, name: HeaderName): seq<string>
  {
    Values(headers, name, 0, |headers|)
  }

  /** `get_first_header` */
  function FirstHeader(headers: Headers, name: HeaderName): Option<string>
  {
    var vs := ValuesOf(headers, name);
    if vs == [] then None else Some(vs[0])
  }

  lemma {:induction false} ValuesPrefix(x: Headers, y: Headers, name: HeaderName, b: nat)
    requires b <= |x|
    ensures Values(x + y, name, 0, b) == Values(x, name, 0, b)
    decreases b
  {
    if b > 0 {
      ValuesPrefix(x, y, name, b - 1);
      assert (x + y)[b - 1] == x[b - 1];
    }
  }

  lemma {:induction false} ValuesSuffix(x: Headers, y: Headers, name: HeaderName, b: nat)
    requires b <= |y|
    ensures Values(x + y, name, |x|, |x| + b) == Values(y, name, 0, b)
    decreases b
  {
    if b > 0 {
      ValuesSuffix(x, y, name, b - 1);
      assert (x + y)[|x| + b - 1] == y[b - 1];
    }
  }

  lemma {:induction false} ValuesSplit(headers: Headers, name: HeaderName, a: nat, m: nat, b: nat)
    requires a <= m <= b <= |headers|
    ensures Values(headers, name, a, b) == Values(headers, name, a, m) + Values(headers, name, m, b)
    decreases b
  {
    if m < b {
      ValuesSplit(headers, name, a, m, b - 1);
    }
  }

  lemma ValuesAppend(x: Headers, y: Headers, name: HeaderName)
    ensures ValuesOf(x + y, name) == ValuesOf(x, name) + ValuesOf(y, name)
  {
    ValuesSplit(x + y, name, 0, |x|, |x| + |y|);
    ValuesPrefix(x, y, name, |x|);
    ValuesSuffix(x, y, name, |y|);
  }

  lemma OneValue(h: (HeaderName, string), name: HeaderName)
    ensures ValuesOf([h], name) == Own(h, name)
  {
    assert Values([h], name, 0, 1) == Values([h], name, 0, 0) + Own(h, name);
  }

  // ----- Removing -----

  /** The headers at `a .. b` without those of some names. */
  function Kept(headers: Headers, names: set<HeaderName>, a: nat, b: nat): Headers
    requires a <= b <= |headers|
    decreases b
  {
    if a == b then []
    else Kept(headers, names, a, b - 1) + if headers[b - 1].0 in names then [] else [headers[b - 1]]
  }

  lemma {:induction false} ValuesKept(headers: Headers, names: set<HeaderName>, a: nat, b: nat, name: HeaderName)
    requires a <= b <= |headers|
    ensures ValuesOf(Kept(headers, names, a, b), name) == if name in names then [] else Values(headers, name, a, b)
    decreases b
  {
    if a < b {
      ValuesKept(headers, names, a, b - 1, name);
      var h, kept := headers[b - 1], Kept(headers, names, a, b - 1);
      if h.0 in names {
        assert kept + [] == kept;
      } else {
        ValuesAppend(kept, [h], name);
        OneValue(h, name);
      }
    }
  }

  function Others(headers: Headers, name: HeaderName): Headers
  {
    Kept(headers, {name}, 0, |headers|)
  }

  /** `remove_header` */
  method RemoveNamed(headers: Headers, name: HeaderName) returns (out: Headers)
    ensures out == Others(headers, name)
  {
    out := [];
    for i := 0 to |headers|
      invariant out == Kept(headers, {name}, 0, i)
    {
      if headers[i].0 != name {
        out := out + [headers[i]];
      }
    }
  }

  lemma RemovedValues(headers: Headers, name: HeaderName, other: HeaderName)
    ensures ValuesOf(Others(headers, name), other) == if other == name then [] else ValuesOf(headers, other)
  {
    ValuesKept(headers, {name}, 0, |headers|, other);
  }

  // ----- Replacing the first -----

  /** Where the first header of the name stands at or after `a`, or the end. */
  function FirstIndex(headers: Headers, name: HeaderName, a: nat): (i: nat)
    requires a <= |headers|
    ensures a <= i <= |headers| && (i < |headers| ==> headers[i].0 == name)
    ensures forall j | a <= j < i :: headers[j].0 != name
    decreases |headers| - a
  {
    if a == |headers| || headers[a].0 == name then a else FirstIndex(headers, name, a + 1)
  }

  /** One header of the name, in the place of the first or at the end. */
  function ReplacedFirst(headers: Headers, name: HeaderName, value: string): Headers
  {
    var i := FirstIndex(headers, name, 0);
    headers[..i] + [(name, value)] + Kept(headers, {name}, i, |headers|)
  }

  /** `replace_first_header`: the first header of the name takes the value, or it is added
      at the end; later ones of the name go. */
  method ReplaceFirst(headers: Headers, name: HeaderName, value: string) returns (out: Headers)
    ensures out == ReplacedFirst(headers, name, value)
  {
    var found := 0;
    out := [];
    ghost var first := FirstIndex(headers, name, 0);
    for i := 0 to |headers|
      invariant found == 0 <==> i <= first
      invariant found == 0 ==> out == headers[..i]
      invariant found > 0 ==> out == headers[..first] + [(name, value)] + Kept(headers, {name}, first, i)
    {
      if headers[i].0 == name {
        if found == 0 {
          assert i == first && Kept(headers, {name}, first, i + 1) == Kept(headers, {name}, first, i) == [];
          out := out + [(name, value)];
        }
        found := found + 1;
      } else {
        out := out + [headers[i]];
      }
    }
    if found == 0 {
      out := out + [(name, value)];
    }
  }

  lemma {:induction false} NoValues(headers: Headers, name: HeaderName, b: nat)
    requires b <= |headers| && forall j | 0 <= j < b :: headers[j].0 != name
    ensures Values(headers, name, 0, b) == []
    decreases b
  {
    if b > 0 {
      NoValues(headers, name, b - 1);
    }
  }

  lemma ReplacedFirstValues(headers: Headers, name: HeaderName, value: string, other: HeaderName)
    ensures ValuesOf(ReplacedFirst(headers, name, value), other) ==
            if other == name then [value] else ValuesOf(headers, other)
  {
    var i := FirstIndex(headers, name, 0);
    AroundFirst(headers, name, other, i);
    JoinedValues(headers[..i], (name, value), Kept(headers, {name}, i, |headers|), other);
    ValuesKept(headers, {name}, i, |headers|, other);
    if other == name {
      assert [] + [value] + [] == [value];
    } else {
      assert ValuesOf(headers[..i], other) + [] == ValuesOf(headers[..i], other);
    }
  }

  /** The replaced header stands where the first of the name stood, or at the end when there was
      none; what stood before it is as it was, and after it nothing is new. */
  lemma ReplacedFirstPlace(headers: Headers, name: HeaderName, value: string, i: nat)
    requires i <= |headers| && (forall j | 0 <= j < i :: headers[j].0 != name)
    requires i < |headers| ==> headers[i].0 == name
    ensures var out := ReplacedFirst(headers, name, value);
      && i < |out| && out[..i] == headers[..i] && out[i] == (name, value)
      && (forall h | h in out[i + 1..] :: h.0 != name && h in headers[i..])
  {
    KeptAreOthers(headers, {name}, i, |headers|);
    assert i == FirstIndex(headers, name, 0);
  }

  lemma {:induction false} KeptAreOthers(headers: Headers, names: set<HeaderName>, a: nat, b: nat)
    requires a <= b <= |headers|
    ensures forall h | h in Kept(headers, names, a, b) :: h.0 !in names && h in headers[a..b]
    decreases b
  {
    if a < b {
      KeptAreOthers(headers, names, a, b - 1);
      assert headers[a..b] == headers[a..b - 1] + [headers[b - 1]];
    }
  }

  lemma JoinedValues(x: Headers, h: (HeaderName, string), y: Headers, name: HeaderName)
    ensures ValuesOf(x + [h] + y, name) == ValuesOf(x, name) + Own(h, name) + ValuesOf(y, name)
  {
    ValuesAppend(x + [h], y, name);
    ValuesAppend(x, [h], name);
    OneValue(h, name);
  }

  lemma AroundFirst(headers: Headers, name: HeaderName, other: HeaderName, i: nat)
    requires i <= |headers| && forall j | 0 <= j < i :: headers[j].0 != name
    ensures ValuesOf(headers, other) == ValuesOf(headers[..i], other) + Values(headers, other, i, |headers|)
    ensures ValuesOf(headers[..i], name) == []
  {
    assert headers == headers[..i] + headers[i..];
    ValuesPrefix(headers[..i], headers[i..], other, i);
    ValuesSplit(headers, other, 0, i, |headers|);
    NoValues(headers[..i], name, i);
  }

  // ----- Replacing several -----

  function NamesOf(headers: Headers): set<HeaderName>
  {
    set i | 0 <= i < |headers| :: headers[i].0
  }

  function Replaced(headers: Headers, newHeaders: Headers): Headers
  {
    Kept(headers, NamesOf(newHeaders), 0, |headers|) + newHeaders
  }

  /** `replace_headers`: names that occur in the new list take all their values from it. */
  method Replace(headers: Headers, newHeaders: Headers) returns (out: Headers)
    ensures out == Replaced(headers, newHeaders)
  {
    var names := NamesOf(newHeaders);
    out := [];
    for i := 0 to |headers|
      invariant out == Kept(headers, names, 0, i)
    {
      if headers[i].0 !in names {
        out := out + [headers[i]];
      }
    }
    out := out + newHeaders;
  }

  lemma ReplacedValues(headers: Headers, newHeaders: Headers, name: HeaderName)
    ensures ValuesOf(Replaced(headers, newHeaders), name) ==
            if name in NamesOf(newHeaders) then ValuesOf(newHeaders, name) else ValuesOf(headers, name)
  {
    var names := NamesOf(newHeaders);
    ValuesAppend(Kept(headers, names, 0, |headers|), newHeaders, name);
    ValuesKept(headers, names, 0, |headers|, name);
    if name !in names {
      assert forall j | 0 <= j < |newHeaders| :: newHeaders[j].0 in names;
      NoValues(newHeaders, name, |newHeaders|);
    }
  }
}
