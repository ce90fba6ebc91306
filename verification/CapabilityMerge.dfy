/** Merging redundant capabilities of a UCAN. */
module CapabilityMerge {
  import opened Wrappers
  import opened Ucans

  datatype Capability = Capability(resource: string, ability: string)

  /** When one capability enables another. */
  type Enabling = (Capability, Capability) -> bool

  /** A capability with those it originates from and its lifetime. */
  datatype Info = Info(originators: set<string>, notBefore: Option<Time>, expires: Option<Time>, capability: Capability)

  ghost predicate Preorder(enables: Enabling)
  {
    (forall c :: enables(c, c)) && forall a, b, c :: enables(a, b) && enables(b, c) ==> enables(a, c)
  }

  /** `y` stands for `x`: it enables it and names all its originators. */
  predicate Covers(enables: Enabling, y: Info, x: Info)
  {
    enables(y.capability, x.capability) && x.originators <= y.originators
  }

  ghost predicate CoversAll(enables: Enabling, ys: set<Info>, xs: set<Info>)
  {
    forall x | x in xs :: exists y :: y in ys && Covers(enables, y, x)
  }

  /** Originator `o` of `y` comes from an input that `y` enables. */
  ghost predicate Sourced(enables: Enabling, xs: set<Info>, y: Info, o: string)
  {
    exists x :: x in xs && o in x.originators && enables(y.capability, x.capability)
  }

  ghost predicate AllSourced(enables: Enabling, xs: set<Info>, ys: set<Info>)
  {
    forall y, o | y in ys && o in y.originators :: Sourced(enables, xs, y, o)
  }

  /** `y` is one of the inputs up to its originators, which only grew. */
  ghost predicate GrownFrom(xs: set<Info>, y: Info)
  {
    exists x :: x in xs && x.originators <= y.originators && y == x.(originators := y.originators)
  }

  ghost predicate AllGrown(xs: set<Info>, ys: set<Info>)
  {
    forall y | y in ys :: GrownFrom(xs, y)
  }

  /** Nobody is named who was not named before. */
  ghost predicate AllNamed(xs: set<Info>, ys: set<Info>)
  {
    forall y, o | y in ys && o in y.originators :: exists x :: x in xs && o in x.originators
  }

  ghost function Elements(infos: seq<Info>): set<Info>
  {
    set x | x in infos
  }

  /** `x` with the originators of `other` added. */
  function Extended(x: Info, other: Info): Info
  {
    x.(originators := x.originators + other.originators)
  }

  // ----- Which capabilities remain -----

  /** The capabilities no earlier one enables, last first. */
  ghost function Survivors(enables: Enabling, caps: seq<Capability>): seq<Capability>
  {
    if caps == [] then []
    else
      var n := |caps| - 1;
      (if exists j :: 0 <= j < n && enables(caps[j], caps[n]) then [] else [caps[n]]) + Survivors(enables, caps[..n])
  }

  function Capabilities(infos: seq<Info>): (caps: seq<Capability>)
    ensures |caps| == |infos| && forall i | 0 <= i < |infos| :: caps[i] == infos[i].capability
  {
    seq(|infos|, i requires 0 <= i < |infos| => infos[i].capability)
  }

  lemma {:induction false} SurvivorsAreInputs(enables: Enabling, caps: seq<Capability>)
    ensures forall c | c in Survivors(enables, caps) :: c in caps
    decreases |caps|
  {
    if caps != [] {
      var n := |caps| - 1;
      SurvivorsAreInputs(enables, caps[..n]);
      assert caps == caps[..n] + [caps[n]];
    }
  }

  /** No survivor is enabled by one put out after it. */
  lemma {:induction false} SurvivorsAreOrdered(enables: Enabling, caps: seq<Capability>, i: nat, j: nat)
    requires i < j < |Survivors(enables, caps)|
    ensures !enables(Survivors(enables, caps)[j], Survivors(enables, caps)[i])
    decreases |caps|
  {
    var n := |caps| - 1;
    var later := Survivors(enables, caps[..n]);
    SurvivorsAreInputs(enables, caps[..n]);
    if exists k :: 0 <= k < n && enables(caps[k], caps[n]) {
      assert Survivors(enables, caps) == later;
      SurvivorsAreOrdered(enables, caps[..n], i, j);
    } else {
      assert Survivors(enables, caps) == [caps[n]] + later;
      if i == 0 {
        assert later[j - 1] in caps[..n];
        var k :| 0 <= k < n && caps[..n][k] == later[j - 1];
        assert caps[k] == later[j - 1];
      } else {
        SurvivorsAreOrdered(enables, caps[..n], i - 1, j - 1);
      }
    }
  }

  /** What is put out and what is left together lead to the survivors. */
  ghost predicate OnTrack(enables: Enabling, infos: seq<Info>, rest: seq<Info>, merged: seq<Info>)
  {
    Capabilities(merged) + Survivors(enables, Capabilities(rest)) == Survivors(enables, Capabilities(infos))
  }

  lemma FoldOnTrack(enables: Enabling, infos: seq<Info>, rest: seq<Info>, merged: seq<Info>, x: Info, j: nat)
    requires OnTrack(enables, infos, rest + [x], merged)
    requires j < |rest| && enables(rest[j].capability, x.capability)
    ensures OnTrack(enables, infos, rest[j := Extended(rest[j], x)], merged)
  {
    var caps := Capabilities(rest + [x]);
    var folded := rest[j := Extended(rest[j], x)];
    assert Capabilities(folded) == Capabilities(rest) && caps[..|rest|] == Capabilities(rest);
    assert enables(caps[j], caps[|rest|]);
    assert Survivors(enables, caps) == [] + Survivors(enables, Capabilities(rest));
  }

  lemma PutOutOnTrack(enables: Enabling, infos: seq<Info>, rest: seq<Info>, merged: seq<Info>, x: Info)
    requires OnTrack(enables, infos, rest + [x], merged)
    requires forall j | 0 <= j < |rest| :: !enables(rest[j].capability, x.capability)
    ensures OnTrack(enables, infos, rest, merged + [x])
  {
    var caps := Capabilities(rest + [x]);
    assert caps[..|rest|] == Capabilities(rest);
    assert Survivors(enables, caps) == [caps[|rest|]] + Survivors(enables, Capabilities(rest));
    assert Capabilities(merged + [x]) == Capabilities(merged) + [x.capability];
  }

  // ----- Where each capability ends up -----

  /** The first of `n` capabilities that enables `c`. */
  ghost function First(enables: Enabling, caps: seq<Capability>, c: Capability, n: nat): (r: Option<nat>)
    requires n <= |caps|
    ensures r.Some? ==> r.value < n && enables(caps[r.value], c)
    ensures forall i | 0 <= i < (if r.Some? then r.value else n) :: !enables(caps[i], c)
  {
    if n == 0 then None
    else
      var r := First(enables, caps, c, n - 1);
      if r.Some? then r else if enables(caps[n - 1], c) then Some(n - 1) else None
  }

  lemma {:induction false} SameFirst(enables: Enabling, caps: seq<Capability>, caps': seq<Capability>, c: Capability,
                                     n: nat)
    requires n <= |caps| && n <= |caps'| && forall i | 0 <= i < n :: caps[i] == caps'[i]
    ensures First(enables, caps, c, n) == First(enables, caps', c, n)
    decreases n
  {
    if n > 0 {
      SameFirst(enables, caps, caps', c, n - 1);
    }
  }

  /** Where the capability at `k` is once all from `n` on have been taken: each is folded into
      the first earlier one that enables it, if any. */
  ghost function Landing(enables: Enabling, caps: seq<Capability>, k: nat, n: nat): nat
    requires k < |caps|
    decreases k
  {
    if k < n then k
    else
      var above := First(enables, caps, caps[k], k);
      if above.None? then k else Landing(enables, caps, above.value, n)
  }

  /** The surviving capability that the one at `k` is folded into. */
  ghost function Root(enables: Enabling, caps: seq<Capability>, k: nat): nat
    requires k < |caps|
  {
    Landing(enables, caps, k, 0)
  }

  lemma {:induction false} LandingStep(enables: Enabling, caps: seq<Capability>, k: nat, n: nat)
    requires k < |caps| && n < |caps|
    ensures Landing(enables, caps, k, n) ==
            var l := Landing(enables, caps, k, n + 1);
            var above := First(enables, caps, caps[n], n);
            if l == n && above.Some? then above.value else l
    decreases k
  {
    if k > n {
      var above := First(enables, caps, caps[k], k);
      if above.Some? {
        LandingStep(enables, caps, above.value, n);
      }
    }
  }

  lemma {:induction false} RootEnables(enables: Enabling, caps: seq<Capability>, k: nat)
    requires k < |caps|
    ensures Root(enables, caps, k) < |caps|
    ensures First(enables, caps, caps[Root(enables, caps, k)], Root(enables, caps, k)).None?
    ensures Preorder(enables) ==> enables(caps[Root(enables, caps, k)], caps[k])
    decreases k
  {
    var above := First(enables, caps, caps[k], k);
    if above.Some? {
      RootEnables(enables, caps, above.value);
    }
  }

  /** With a reflexive and transitive enabling the first earlier capability that enables
      another survives itself, so nothing is folded twice. */
  lemma RootIsFirst(enables: Enabling, caps: seq<Capability>, k: nat)
    requires k < |caps| && Preorder(enables)
    ensures Root(enables, caps, k) ==
            var above := First(enables, caps, caps[k], k); if above.Some? then above.value else k
  {
    var above := First(enables, caps, caps[k], k);
    if above.Some? {
      assert First(enables, caps, caps[above.value], above.value).None?;
    }
  }

  // ----- Who originates what -----

  /** Once all from `n` on have been taken, `o` is an originator at place `i`. */
  ghost predicate Originates(enables: Enabling, infos: seq<Info>, n: nat, i: nat, o: string)
  {
    exists k :: 0 <= k < |infos| && o in infos[k].originators && Landing(enables, Capabilities(infos), k, n) == i
  }

  /** `info` is the input at place `i` with the originators of all that was folded into it. */
  ghost predicate Carries(enables: Enabling, infos: seq<Info>, n: nat, i: nat, info: Info)
  {
    && i < |infos| && info == infos[i].(originators := info.originators)
    && forall o :: o in info.originators <==> Originates(enables, infos, n, i, o)
  }

  lemma CarriesAtFirst(enables: Enabling, infos: seq<Info>, i: nat)
    requires i < |infos|
    ensures Carries(enables, infos, |infos|, i, infos[i])
  {
    assert infos[i] == infos[i].(originators := infos[i].originators);
  }

  lemma OriginatesStep(enables: Enabling, infos: seq<Info>, n: nat, i: nat, o: string)
    requires n < |infos|
    ensures var above := First(enables, Capabilities(infos), infos[n].capability, n);
      Originates(enables, infos, n, i, o) <==>
      || (Originates(enables, infos, n + 1, i, o) && (i == n ==> above.None?))
      || (Originates(enables, infos, n + 1, n, o) && above == Some(i))
  {
    forall k | 0 <= k < |infos|
      ensures Landing(enables, Capabilities(infos), k, n) ==
              var l := Landing(enables, Capabilities(infos), k, n + 1);
              var above := First(enables, Capabilities(infos), infos[n].capability, n);
              if l == n && above.Some? then above.value else l
    {
      LandingStep(enables, Capabilities(infos), k, n);
    }
  }

  lemma CarriesStep(enables: Enabling, infos: seq<Info>, n: nat, i: nat, info: Info)
    requires n < |infos| && Carries(enables, infos, n + 1, i, info)
    ensures var above := First(enables, Capabilities(infos), infos[n].capability, n);
      above != Some(i) && (i == n ==> above.None?) ==> Carries(enables, infos, n, i, info)
  {
    forall o
      ensures var above := First(enables, Capabilities(infos), infos[n].capability, n);
        above != Some(i) && (i == n ==> above.None?) ==>
          (Originates(enables, infos, n, i, o) <==> Originates(enables, infos, n + 1, i, o))
    {
      OriginatesStep(enables, infos, n, i, o);
    }
  }

  lemma CarriesFold(enables: Enabling, infos: seq<Info>, n: nat, j: nat, w: Info, x: Info)
    requires n < |infos| && First(enables, Capabilities(infos), infos[n].capability, n) == Some(j)
    requires Carries(enables, infos, n + 1, j, w) && Carries(enables, infos, n + 1, n, x)
    ensures Carries(enables, infos, n, j, Extended(w, x))
  {
    forall o
      ensures o in Extended(w, x).originators <==> Originates(enables, infos, n, j, o)
    {
      OriginatesStep(enables, infos, n, j, o);
    }
  }

  /** The first `n` places of the inputs. */
  ghost predicate Waiting(enables: Enabling, infos: seq<Info>, n: nat, rest: seq<Info>)
  {
    |rest| == n <= |infos| && forall i | 0 <= i < n :: Carries(enables, infos, n, i, rest[i])
  }

  /** No earlier capability enables the one at `k`. */
  ghost predicate Final(enables: Enabling, infos: seq<Info>, k: nat)
    requires k < |infos|
  {
    First(enables, Capabilities(infos), infos[k].capability, k).None?
  }

  /** The output at `p` stands at its place, which is taken and final. */
  ghost predicate PutOutAt(enables: Enabling, infos: seq<Info>, n: nat, merged: seq<Info>, places: seq<nat>, p: nat)
    requires p < |merged| == |places|
  {
    n <= places[p] && Carries(enables, infos, n, places[p], merged[p]) && Final(enables, infos, places[p])
  }

  /** The final places from `n` on, last first. */
  ghost function FinalPlaces(enables: Enabling, infos: seq<Info>, n: nat): seq<nat>
    requires n <= |infos|
    decreases |infos| - n
  {
    if n == |infos| then []
    else FinalPlaces(enables, infos, n + 1) + if Final(enables, infos, n) then [n] else []
  }

  lemma {:induction false} FinalPlacesAre(enables: Enabling, infos: seq<Info>, n: nat)
    requires n <= |infos|
    ensures forall i | i in FinalPlaces(enables, infos, n) :: n <= i < |infos| && Final(enables, infos, i)
    ensures forall i | n <= i < |infos| && Final(enables, infos, i) :: i in FinalPlaces(enables, infos, n)
    decreases |infos| - n
  {
    if n < |infos| {
      FinalPlacesAre(enables, infos, n + 1);
    }
  }

  /** What has been put out once all from `n` on have been taken. */
  ghost predicate PutOut(enables: Enabling, infos: seq<Info>, n: nat, merged: seq<Info>, places: seq<nat>)
  {
    && n <= |infos| && places == FinalPlaces(enables, infos, n) && |places| == |merged|
    && forall p | 0 <= p < |merged| :: PutOutAt(enables, infos, n, merged, places, p)
  }

  /** All originators of what ends up at place `i`. */
  ghost function OriginatorsAt(enables: Enabling, infos: seq<Info>, i: nat): set<string>
  {
    set k, o | 0 <= k < |infos| && o in infos[k].originators && Root(enables, Capabilities(infos), k) == i :: o
  }

  /** What the merge leaves: the final capabilities, last first, each with the originators of
      all that is folded into it. */
  ghost function MergeOf(enables: Enabling, infos: seq<Info>): (merged: seq<Info>)
    ensures |merged| == |FinalPlaces(enables, infos, 0)|
  {
    FinalPlacesAre(enables, infos, 0);
    var places := FinalPlaces(enables, infos, 0);
    assert forall p | 0 <= p < |places| :: places[p] in places;
    seq(|places|, p requires 0 <= p < |places| && places[p] < |infos| =>
          infos[places[p]].(originators := OriginatorsAt(enables, infos, places[p])))
  }

  lemma MergeOfIsPutOut(enables: Enabling, infos: seq<Info>)
    ensures PutOut(enables, infos, 0, MergeOf(enables, infos), FinalPlaces(enables, infos, 0))
  {
    FinalPlacesAre(enables, infos, 0);
    var merged, places := MergeOf(enables, infos), FinalPlaces(enables, infos, 0);
    forall p | 0 <= p < |merged|
      ensures PutOutAt(enables, infos, 0, merged, places, p)
    {
      assert places[p] in places;
      assert merged[p] == infos[places[p]].(originators := OriginatorsAt(enables, infos, places[p]));
    }
  }

  lemma PutOutIsMergeOf(enables: Enabling, infos: seq<Info>, merged: seq<Info>, places: seq<nat>)
    requires PutOut(enables, infos, 0, merged, places)
    ensures merged == MergeOf(enables, infos)
  {
    MergeOfIsPutOut(enables, infos);
    var merged' := MergeOf(enables, infos);
    forall p | 0 <= p < |merged|
      ensures merged[p] == merged'[p]
    {
      assert PutOutAt(enables, infos, 0, merged, places, p) && PutOutAt(enables, infos, 0, merged', places, p);
      assert merged[p].originators == merged'[p].originators;
    }
  }

  lemma WaitingStep(enables: Enabling, infos: seq<Info>, rest: seq<Info>, x: Info)
    requires Waiting(enables, infos, |rest| + 1, rest + [x])
    ensures var n := |rest|;
      var above := First(enables, Capabilities(infos), infos[n].capability, n);
      && Carries(enables, infos, n + 1, n, x) && x.capability == infos[n].capability
      && above == First(enables, Capabilities(rest), x.capability, n)
      && Waiting(enables, infos, n, if above.None? then rest else rest[above.value := Extended(rest[above.value], x)])
  {
    var n := |rest|;
    var before := rest + [x];
    assert before[n] == x && Carries(enables, infos, n + 1, n, before[n]);
    var above := First(enables, Capabilities(infos), infos[n].capability, n);
    forall i | 0 <= i < n
      ensures Carries(enables, infos, n + 1, i, rest[i]) && rest[i].capability == infos[i].capability
    {
      assert before[i] == rest[i] && Carries(enables, infos, n + 1, i, before[i]);
    }
    SameFirst(enables, Capabilities(infos), Capabilities(rest), x.capability, n);
    var after := if above.None? then rest else rest[above.value := Extended(rest[above.value], x)];
    forall i | 0 <= i < n
      ensures Carries(enables, infos, n, i, after[i])
    {
      if above == Some(i) {
        CarriesFold(enables, infos, n, i, rest[i], x);
      } else {
        CarriesStep(enables, infos, n, i, rest[i]);
      }
    }
  }

  lemma PutOutStep(enables: Enabling, infos: seq<Info>, n: nat, merged: seq<Info>, places: seq<nat>, x: Info)
    requires n < |infos| && PutOut(enables, infos, n + 1, merged, places) && Carries(enables, infos, n + 1, n, x)
    ensures if Final(enables, infos, n) then PutOut(enables, infos, n, merged + [x], places + [n])
            else PutOut(enables, infos, n, merged, places)
  {
    CarriesStep(enables, infos, n, n, x);
    forall p | 0 <= p < |merged|
      ensures PutOutAt(enables, infos, n, merged, places, p)
    {
      assert PutOutAt(enables, infos, n + 1, merged, places, p);
      CarriesStep(enables, infos, n, places[p], merged[p]);
    }
    if Final(enables, infos, n) {
      var merged', places' := merged + [x], places + [n];
      forall p | 0 <= p < |merged'|
        ensures PutOutAt(enables, infos, n, merged', places', p)
      {
        assert p < |merged| ==> PutOutAt(enables, infos, n, merged, places, p);
      }
    }
  }

  // ----- The merge loop -----

  /** Finds the first info that enables a capability. */
  method FirstEnabling(enables: Enabling, rest: seq<Info>, c: Capability) returns (r: Option<nat>)
    ensures r == First(enables, Capabilities(rest), c, |rest|)
  {
    for i := 0 to |rest|
      invariant First(enables, Capabilities(rest), c, i).None?
    {
      if enables(rest[i].capability, c) {
        FirstStays(enables, Capabilities(rest), c, i + 1, |rest|);
        return Some(i);
      }
    }
    return None;
  }

  lemma {:induction false} FirstStays(enables: Enabling, caps: seq<Capability>, c: Capability, i: nat, n: nat)
    requires i <= n <= |caps| && First(enables, caps, c, i).Some?
    ensures First(enables, caps, c, n) == First(enables, caps, c, i)
    decreases n
  {
    if i < n {
      FirstStays(enables, caps, c, i, n - 1);
    }
  }

  /** The merge at the end of `ProofChain::reduce_capabilities`. What is put out are the
      capabilities that no earlier one enables, last first, and each names exactly the
      originators of the inputs that are folded into it, directly or through others. When
      enabling is reflexive and transitive, every input is enabled by an output that names all
      its originators, and an output names only originators of inputs it enables. */
  method Merge(enables: Enabling, infos: seq<Info>) returns (merged: seq<Info>)
    ensures merged == MergeOf(enables, infos)
    ensures Capabilities(merged) == Survivors(enables, Capabilities(infos))
    ensures AllGrown(Elements(infos), Elements(merged)) && AllNamed(Elements(infos), Elements(merged))
    ensures Preorder(enables) ==> CoversAll(enables, Elements(merged), Elements(infos))
    ensures Preorder(enables) ==> AllSourced(enables, Elements(infos), Elements(merged))
  {
    var rest := infos;
    ghost var places: seq<nat> := [];
    merged := [];
    forall i | 0 <= i < |infos|
      ensures Carries(enables, infos, |infos|, i, rest[i])
    {
      CarriesAtFirst(enables, infos, i);
    }
    while rest != []
      invariant OnTrack(enables, infos, rest, merged)
      invariant Waiting(enables, infos, |rest|, rest)
      invariant PutOut(enables, infos, |rest|, merged, places)
      decreases |rest|
    {
      var n := |rest| - 1;
      var x := rest[n];
      assert rest == rest[..n] + [x];
      rest := rest[..n];
      WaitingStep(enables, infos, rest, x);
      PutOutStep(enables, infos, n, merged, places, x);
      var j := FirstEnabling(enables, rest, x.capability);
      if j.Some? {
        FoldOnTrack(enables, infos, rest, merged, x, j.value);
        rest := rest[j.value := Extended(rest[j.value], x)];
      } else {
        PutOutOnTrack(enables, infos, rest, merged, x);
        merged, places := merged + [x], places + [n];
      }
    }
    PutOutIsMergeOf(enables, infos, merged, places);
    MergeGrows(enables, infos);
    MergeNames(enables, infos);
    if Preorder(enables) {
      MergeCovers(enables, infos);
    }
  }

  // ----- What the merge keeps -----

  /** The output that an input is folded into. */
  lemma OutputOf(enables: Enabling, infos: seq<Info>, k: nat) returns (y: Info)
    requires k < |infos|
    ensures Root(enables, Capabilities(infos), k) < |infos| && y in MergeOf(enables, infos)
    ensures y.capability == infos[Root(enables, Capabilities(infos), k)].capability
    ensures infos[k].originators <= y.originators
  {
    var merged, places := MergeOf(enables, infos), FinalPlaces(enables, infos, 0);
    MergeOfIsPutOut(enables, infos);
    FinalPlacesAre(enables, infos, 0);
    var root := Root(enables, Capabilities(infos), k);
    RootEnables(enables, Capabilities(infos), k);
    assert Final(enables, infos, root);
    var p :| 0 <= p < |places| && places[p] == root;
    assert PutOutAt(enables, infos, 0, merged, places, p);
    y := merged[p];
    forall o | o in infos[k].originators
      ensures o in y.originators
    {
      assert Originates(enables, infos, 0, root, o);
    }
  }

  /** The originator of an output is one of an input that is folded into it. */
  lemma OriginatorOf(enables: Enabling, infos: seq<Info>, y: Info, o: string) returns (k: nat)
    requires y in MergeOf(enables, infos) && o in y.originators
    ensures k < |infos| && o in infos[k].originators && Root(enables, Capabilities(infos), k) < |infos|
    ensures infos[Root(enables, Capabilities(infos), k)].capability == y.capability
  {
    var merged, places := MergeOf(enables, infos), FinalPlaces(enables, infos, 0);
    MergeOfIsPutOut(enables, infos);
    var p :| 0 <= p < |merged| && merged[p] == y;
    assert PutOutAt(enables, infos, 0, merged, places, p);
    assert Originates(enables, infos, 0, places[p], o);
    k :| 0 <= k < |infos| && o in infos[k].originators && Landing(enables, Capabilities(infos), k, 0) == places[p];
  }

  /** Every input lives on: with a reflexive and transitive enabling, in an output that
      enables it and names all its originators. */
  lemma MergeCovers(enables: Enabling, infos: seq<Info>)
    requires Preorder(enables)
    ensures CoversAll(enables, Elements(MergeOf(enables, infos)), Elements(infos))
  {
    forall x | x in Elements(infos)
      ensures exists y :: y in Elements(MergeOf(enables, infos)) && Covers(enables, y, x)
    {
      var k :| 0 <= k < |infos| && infos[k] == x;
      var y := OutputOf(enables, infos, k);
      RootEnables(enables, Capabilities(infos), k);
      assert y in Elements(MergeOf(enables, infos)) && Covers(enables, y, x);
    }
  }

  /** Every output is an input whose originators only grew. */
  lemma MergeGrows(enables: Enabling, infos: seq<Info>)
    ensures AllGrown(Elements(infos), Elements(MergeOf(enables, infos)))
  {
    var merged, places := MergeOf(enables, infos), FinalPlaces(enables, infos, 0);
    MergeOfIsPutOut(enables, infos);
    forall y | y in Elements(merged)
      ensures GrownFrom(Elements(infos), y)
    {
      var p :| 0 <= p < |merged| && merged[p] == y;
      assert PutOutAt(enables, infos, 0, merged, places, p);
      GrownAt(enables, infos, places[p], y);
    }
  }

  lemma GrownAt(enables: Enabling, infos: seq<Info>, i: nat, y: Info)
    requires Carries(enables, infos, 0, i, y) && Final(enables, infos, i)
    ensures GrownFrom(Elements(infos), y)
  {
    forall o | o in infos[i].originators
      ensures o in y.originators
    {
      assert Landing(enables, Capabilities(infos), i, 0) == i;
      assert Originates(enables, infos, 0, i, o);
    }
    assert infos[i] in Elements(infos);
  }

  /** Nobody is named who was not, and with a reflexive and transitive enabling an output
      names only originators of inputs it enables. */
  lemma MergeNames(enables: Enabling, infos: seq<Info>)
    ensures AllNamed(Elements(infos), Elements(MergeOf(enables, infos)))
    ensures Preorder(enables) ==> AllSourced(enables, Elements(infos), Elements(MergeOf(enables, infos)))
  {
    forall y, o | y in Elements(MergeOf(enables, infos)) && o in y.originators
      ensures exists x :: x in Elements(infos) && o in x.originators
      ensures Preorder(enables) ==> Sourced(enables, Elements(infos), y, o)
    {
      var k := OriginatorOf(enables, infos, y, o);
      RootEnables(enables, Capabilities(infos), k);
      assert infos[k] in Elements(infos);
    }
  }

  /** A single info is put out as it is. */
  lemma MergeOne(enables: Enabling, x: Info)
    ensures MergeOf(enables, [x]) == [x]
  {
    var infos := [x];
    assert FinalPlaces(enables, infos, 1) == [] && Final(enables, infos, 0);
    assert FinalPlaces(enables, infos, 0) == [] + [0];
    assert Root(enables, Capabilities(infos), 0) == 0;
    assert OriginatorsAt(enables, infos, 0) == x.originators;
  }

  /** The second of two infos is folded into a first one that enables it. */
  lemma MergeTwo(enables: Enabling, x: Info, y: Info)
    requires enables(x.capability, y.capability)
    ensures MergeOf(enables, [x, y]) == [Extended(x, y)]
  {
    var infos := [x, y];
    var caps := Capabilities(infos);
    assert First(enables, caps, caps[1], 0).None?;
    assert First(enables, caps, caps[1], 1) == Some(0);
    assert !Final(enables, infos, 1) && Final(enables, infos, 0);
    assert FinalPlaces(enables, infos, 2) == [];
    assert FinalPlaces(enables, infos, 1) == [] + [];
    assert FinalPlaces(enables, infos, 0) == [] + [0];
    assert Root(enables, caps, 0) == 0 && Root(enables, caps, 1) == 0;
    assert OriginatorsAt(enables, infos, 0) == x.originators + y.originators;
  }

  // ----- Named originators and their authority -----

  /** `o` originates an input that enables the capability. */
  ghost predicate HasAuthority(enables: Enabling, infos: seq<Info>, c: Capability, o: string)
  {
    exists x :: x in infos && o in x.originators && enables(x.capability, c)
  }

  /** Every originator named for a capability originated one that enables it. */
  ghost predicate AllAuthorized(enables: Enabling, infos: seq<Info>, merged: seq<Info>)
  {
    forall y, o | y in merged && o in y.originators :: HasAuthority(enables, infos, y.capability, o)
  }

  /** `o` has the authority of the input at `i`. */
  ghost predicate AuthorizedAt(enables: Enabling, infos: seq<Info>, i: nat, o: string)
  {
    i < |infos| && HasAuthority(enables, infos, infos[i].capability, o)
  }

  /** Whoever originates an input also originates one that enables the capability it ends up
      in. */
  ghost predicate LandsUpright(enables: Enabling, infos: seq<Info>)
  {
    forall k, o | 0 <= k < |infos| && o in infos[k].originators ::
      AuthorizedAt(enables, infos, Root(enables, Capabilities(infos), k), o)
  }

  /** The first earlier input that enables the one at `k`. */
  ghost function Above(enables: Enabling, infos: seq<Info>, k: nat): (r: Option<nat>)
    requires k < |infos|
    ensures r.Some? ==> r.value < k
  {
    First(enables, Capabilities(infos), infos[k].capability, k)
  }

  /** Whoever originates an input also originates one that enables the first earlier input
      enabling it, if there is one. */
  ghost predicate FoldsUpright(enables: Enabling, infos: seq<Info>)
  {
    forall k, o | 0 <= k < |infos| && o in infos[k].originators ::
      Above(enables, infos, k).Some? ==> AuthorizedAt(enables, infos, Above(enables, infos, k).value, o)
  }

  /** The merge names only originators with the authority they are named for exactly when no
      input is folded into a capability beyond the authority of its originators. With a
      reflexive and transitive enabling only the first earlier input that enables another
      needs to be looked at. */
  lemma MergeAuthorizedIff(enables: Enabling, infos: seq<Info>)
    ensures AllAuthorized(enables, infos, MergeOf(enables, infos)) <==> LandsUpright(enables, infos)
    ensures Preorder(enables) ==>
              (AllAuthorized(enables, infos, MergeOf(enables, infos)) <==> FoldsUpright(enables, infos))
  {
    if AllAuthorized(enables, infos, MergeOf(enables, infos)) {
      forall k, o | 0 <= k < |infos| && o in infos[k].originators
        ensures AuthorizedAt(enables, infos, Root(enables, Capabilities(infos), k), o)
      {
        var y := OutputOf(enables, infos, k);
        assert o in y.originators;
      }
    }
    if LandsUpright(enables, infos) {
      forall y, o | y in MergeOf(enables, infos) && o in y.originators
        ensures HasAuthority(enables, infos, y.capability, o)
      {
        var k := OriginatorOf(enables, infos, y, o);
        assert AuthorizedAt(enables, infos, Root(enables, Capabilities(infos), k), o);
      }
    }
    if Preorder(enables) {
      LandsWhereItFolds(enables, infos);
    }
  }

  lemma LandsWhereItFolds(enables: Enabling, infos: seq<Info>)
    requires Preorder(enables)
    ensures LandsUpright(enables, infos) <==> FoldsUpright(enables, infos)
  {
    forall k, o | 0 <= k < |infos| && o in infos[k].originators
      ensures AuthorizedAt(enables, infos, Root(enables, Capabilities(infos), k), o) <==>
              (Above(enables, infos, k).Some? ==> AuthorizedAt(enables, infos, Above(enables, infos, k).value, o))
    {
      LandsAbove(enables, infos, k, o);
    }
  }

  lemma LandsAbove(enables: Enabling, infos: seq<Info>, k: nat, o: string)
    requires Preorder(enables) && k < |infos| && o in infos[k].originators
    ensures AuthorizedAt(enables, infos, Root(enables, Capabilities(infos), k), o) <==>
            (Above(enables, infos, k).Some? ==> AuthorizedAt(enables, infos, Above(enables, infos, k).value, o))
  {
    RootIsFirst(enables, Capabilities(infos), k);
    assert infos[k] in infos && enables(infos[k].capability, infos[k].capability);
  }
}
