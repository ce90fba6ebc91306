/** Reducing a proof chain to the capabilities its token carries. */
module CapabilityReduction {
  import opened Wrappers
  import opened Ucans
  import opened ProofChains
  import opened CapabilityMerge

  datatype Semantics = Semantics(parse: string -> Option<Capability>, enables: Enabling)

  /** Redelegated proofs exist, all the way up; the code relies on it. */
  ghost predicate Indexed(chain: ProofChain)
  {
    && (forall i | i in chain.redelegations :: i < |chain.proofs|)
    && forall i | 0 <= i < |chain.proofs| :: Indexed(chain.proofs[i])
  }

  lemma {:induction false} SoundIsIndexed(ctx: Context, chain: ProofChain)
    requires Sound(ctx, chain)
    ensures Indexed(chain)
  {
    forall i | 0 <= i < |chain.proofs|
      ensures Indexed(chain.proofs[i])
    {
      SoundIsIndexed(ctx, chain.proofs[i]);
    }
  }

  /** The capabilities a token claims: those before the first one that cannot be read. */
  function Claims(parse: string -> Option<Capability>, texts: seq<string>): seq<Capability>
  {
    if texts == [] || parse(texts[0]).None? then [] else [parse(texts[0]).value] + Claims(parse, texts[1..])
  }

  /** They are read one by one, and the first that follows cannot be read. */
  lemma {:induction false} ClaimsArePrefix(parse: string -> Option<Capability>, texts: seq<string>)
    ensures var claims := Claims(parse, texts);
      && |claims| <= |texts|
      && (forall i | 0 <= i < |claims| :: parse(texts[i]) == Some(claims[i]))
      && (|claims| < |texts| ==> parse(texts[|claims|]).None?)
  {
    if texts != [] && parse(texts[0]).Some? {
      ClaimsArePrefix(parse, texts[1..]);
      assert forall i | 0 < i < |texts| :: texts[i] == texts[1..][i - 1];
    }
  }

  /** What a chain grants: its own claims, and all that a redelegated proof grants. */
  ghost predicate Granted(sem: Semantics, chain: ProofChain, c: Capability)
  {
    || c in Claims(sem.parse, chain.ucan.capabilities)
    || exists i :: i in chain.redelegations && i < |chain.proofs| && Granted(sem, chain.proofs[i], c)
  }

  /** `did` issued the token or one of its ancestors. */
  ghost predicate Issues(chain: ProofChain, did: string)
  {
    did == chain.ucan.issuer || exists i :: 0 <= i < |chain.proofs| && Issues(chain.proofs[i], did)
  }

  /** The info has the lifetime of the token and its originators are issuers in the chain. */
  ghost predicate Belongs(chain: ProofChain, info: Info)
  {
    && info.notBefore == chain.ucan.notBefore && info.expires == chain.ucan.expires
    && info.originators != {} && forall o | o in info.originators :: Issues(chain, o)
  }

  ghost predicate Enabled(enables: Enabling, infos: seq<Info>, c: Capability)
  {
    exists y :: y in infos && enables(y.capability, c)
  }

  /** What the reduction of a chain promises. */
  ghost predicate Reduced(sem: Semantics, chain: ProofChain, infos: seq<Info>)
  {
    && (forall y | y in infos :: Granted(sem, chain, y.capability))
    && (forall y | y in infos :: Belongs(chain, y))
    && (Preorder(sem.enables) ==> forall c :: Granted(sem, chain, c) ==> Enabled(sem.enables, infos, c))
  }

  // ----- What the reduction computes -----

  /** The infos of a redelegated proof, with the lifetime of the redelegating token. */
  function Attenuated(ucan: Ucan, infos: seq<Info>): seq<Info>
  {
    seq(|infos|, i requires 0 <= i < |infos| => infos[i].(notBefore := ucan.notBefore, expires := ucan.expires))
  }

  /** The infos of a proof if it is redelegated, or if it is not. */
  ghost function Chosen(chain: ProofChain, parts: seq<seq<Info>>, redelegated: bool, i: nat): seq<Info>
    requires i < |parts|
  {
    if (i in chain.redelegations) == redelegated then parts[i] else []
  }

  /** The infos of the first `n` proofs that are redelegated, or of those that are not. */
  ghost function Gathered(chain: ProofChain, parts: seq<seq<Info>>, redelegated: bool, n: nat): seq<Info>
    requires n <= |parts|
  {
    if n == 0 then [] else Gathered(chain, parts, redelegated, n - 1) + Chosen(chain, parts, redelegated, n - 1)
  }

  /** The originators of the ancestral infos that enable a capability. */
  ghost function EnablingOriginators(enables: Enabling, ancestral: seq<Info>, c: Capability): set<string>
  {
    set a, o | a in ancestral && enables(a.capability, c) && o in a.originators :: o
  }

  /** The originators of a claim: those of the ancestral infos that enable it, else the issuer. */
  ghost function ClaimOriginators(enables: Enabling, ancestral: seq<Info>, c: Capability, issuer: string): set<string>
  {
    var originators := EnablingOriginators(enables, ancestral, c);
    if originators == {} then {issuer} else originators
  }

  /** Claims of a token with their originators and its lifetime. */
  ghost function ClaimInfos(enables: Enabling, ucan: Ucan, ancestral: seq<Info>, claims: seq<Capability>): seq<Info>
  {
    seq(|claims|, i requires 0 <= i < |claims| =>
          Info(ClaimOriginators(enables, ancestral, claims[i], ucan.issuer), ucan.notBefore, ucan.expires, claims[i]))
  }

  /** The inputs of the merge: the token's own claims, checked against the proofs that are not
      redelegated, then the attenuated infos of those that are. */
  ghost function Inputs(sem: Semantics, chain: ProofChain, parts: seq<seq<Info>>): seq<Info>
  {
    ClaimInfos(sem.enables, chain.ucan, Gathered(chain, parts, false, |parts|),
               Claims(sem.parse, chain.ucan.capabilities))
    + Attenuated(chain.ucan, Gathered(chain, parts, true, |parts|))
  }

  /** The reductions of the proofs of a chain. */
  ghost function Parts(sem: Semantics, chain: ProofChain): (parts: seq<seq<Info>>)
    ensures |parts| == |chain.proofs|
    decreases chain, 0
  {
    seq(|chain.proofs|, i requires 0 <= i < |chain.proofs| => ReductionOf(sem, chain.proofs[i]))
  }

  /** The reduction of a chain. */
  ghost function ReductionOf(sem: Semantics, chain: ProofChain): seq<Info>
    decreases chain, 1
  {
    MergeOf(sem.enables, Inputs(sem, chain, Parts(sem, chain)))
  }

  // ----- Computing it -----

  ghost predicate PartAt(sem: Semantics, chain: ProofChain, parts: seq<seq<Info>>, i: nat)
    requires i < |parts| == |chain.proofs|
  {
    parts[i] == ReductionOf(sem, chain.proofs[i])
  }

  ghost predicate AllParts(sem: Semantics, chain: ProofChain, parts: seq<seq<Info>>)
  {
    |parts| == |chain.proofs| && forall i | 0 <= i < |parts| :: PartAt(sem, chain, parts, i)
  }

  /** Reduces one proof if it is redelegated, or if it is not. */
  method ReduceChosen(sem: Semantics, chain: ProofChain, redelegated: bool, i: nat, ghost parts: seq<seq<Info>>)
    returns (infos: seq<Info>)
    requires Indexed(chain) && AllParts(sem, chain, parts) && i < |chain.proofs|
    ensures infos == Chosen(chain, parts, redelegated, i)
    decreases chain, 0
  {
    if (i in chain.redelegations) != redelegated {
      return [];
    }
    infos := Reduce(sem, chain.proofs[i]);
    assert PartAt(sem, chain, parts, i);
  }

  /** Reduces the proofs that are redelegated, or those that are not, in order. */
  method Gather(sem: Semantics, chain: ProofChain, redelegated: bool, ghost parts: seq<seq<Info>>)
    returns (infos: seq<Info>)
    requires Indexed(chain) && AllParts(sem, chain, parts)
    ensures infos == Gathered(chain, parts, redelegated, |parts|)
    decreases chain, 1
  {
    infos := [];
    for i := 0 to |chain.proofs|
      invariant infos == Gathered(chain, parts, redelegated, i)
    {
      var part := ReduceChosen(sem, chain, redelegated, i, parts);
      infos := infos + part;
    }
  }

  method Originators(enables: Enabling, ancestral: seq<Info>, c: Capability, issuer: string) returns (r: set<string>)
    ensures r == ClaimOriginators(enables, ancestral, c, issuer)
  {
    r := {};
    for i := 0 to |ancestral|
      invariant r == EnablingOriginators(enables, ancestral[..i], c)
    {
      var a := ancestral[i];
      assert forall x :: x in ancestral[..i + 1] <==> x in ancestral[..i] || x == a;
      if enables(a.capability, c) {
        r := r + a.originators;
      }
    }
    assert ancestral[..|ancestral|] == ancestral;
    if r == {} {
      r := {issuer};
    }
  }

  /** The claims of the token itself, up to the first that cannot be read. */
  method OwnInfos(sem: Semantics, ucan: Ucan, ancestral: seq<Info>) returns (infos: seq<Info>)
    ensures infos == ClaimInfos(sem.enables, ucan, ancestral, Claims(sem.parse, ucan.capabilities))
  {
    infos := [];
    var texts := ucan.capabilities;
    ghost var claims: seq<Capability> := [];
    while texts != [] && sem.parse(texts[0]).Some?
      invariant claims + Claims(sem.parse, texts) == Claims(sem.parse, ucan.capabilities)
      invariant infos == ClaimInfos(sem.enables, ucan, ancestral, claims)
      decreases |texts|
    {
      var c := sem.parse(texts[0]).value;
      var originators := Originators(sem.enables, ancestral, c, ucan.issuer);
      infos := infos + [Info(originators, ucan.notBefore, ucan.expires, c)];
      claims := claims + [c];
      texts := texts[1..];
    }
  }

  /** `ProofChain::reduce_capabilities`. */
  method Reduce(sem: Semantics, chain: ProofChain) returns (infos: seq<Info>)
    requires Indexed(chain)
    ensures infos == ReductionOf(sem, chain)
    decreases chain, 2
  {
    ghost var parts := Parts(sem, chain);
    var ancestral := Gather(sem, chain, false, parts);
    var redelegated := Gather(sem, chain, true, parts);
    var own := OwnInfos(sem, chain.ucan, ancestral);
    infos := Merge(sem.enables, own + Attenuated(chain.ucan, redelegated));
  }

  // ----- What it means -----

  lemma PartIssues(sem: Semantics, chain: ProofChain, i: nat, part: seq<Info>)
    requires i < |chain.proofs| && Reduced(sem, chain.proofs[i], part)
    ensures forall a, o | a in part && o in a.originators :: Issues(chain, o)
  {
    forall a, o | a in part && o in a.originators
      ensures Issues(chain, o)
    {
      assert Belongs(chain.proofs[i], a) && Issues(chain.proofs[i], o);
    }
  }

  /** `infos` belong to the chain, are granted by it, and enable what the first `n` redelegated
      proofs grant. */
  ghost predicate Inherited(sem: Semantics, chain: ProofChain, n: nat, infos: seq<Info>)
    requires n <= |chain.proofs|
  {
    && (forall y | y in infos :: Granted(sem, chain, y.capability) && Belongs(chain, y))
    && (Preorder(sem.enables) ==>
          forall i, c | 0 <= i < n && i in chain.redelegations && Granted(sem, chain.proofs[i], c) ::
            Enabled(sem.enables, infos, c))
  }

  lemma InheritMore(sem: Semantics, chain: ProofChain, n: nat, infos: seq<Info>, part: seq<Info>)
    requires n < |chain.proofs| && n in chain.redelegations
    requires Inherited(sem, chain, n, infos) && Reduced(sem, chain.proofs[n], part)
    ensures Inherited(sem, chain, n + 1, infos + Attenuated(chain.ucan, part))
  {
    var more := Attenuated(chain.ucan, part);
    PartIssues(sem, chain, n, part);
    forall y | y in more
      ensures Granted(sem, chain, y.capability) && Belongs(chain, y)
    {
      var k :| 0 <= k < |more| && more[k] == y;
      assert part[k] in part && Granted(sem, chain.proofs[n], part[k].capability) && Belongs(chain.proofs[n], part[k]);
    }
    if Preorder(sem.enables) {
      forall i, c | 0 <= i < n + 1 && i in chain.redelegations && Granted(sem, chain.proofs[i], c)
        ensures Enabled(sem.enables, infos + more, c)
      {
        if i < n {
          StillEnabled(sem.enables, infos, infos + more, c);
        } else {
          AttenuatedEnables(sem.enables, chain.ucan, part, c);
          StillEnabled(sem.enables, more, infos + more, c);
        }
      }
    }
  }

  lemma StillEnabled(enables: Enabling, infos: seq<Info>, more: seq<Info>, c: Capability)
    requires Enabled(enables, infos, c) && forall y | y in infos :: y in more
    ensures Enabled(enables, more, c)
  {
    var y :| y in infos && enables(y.capability, c);
    assert y in more;
  }

  lemma AttenuatedEnables(enables: Enabling, ucan: Ucan, part: seq<Info>, c: Capability)
    requires Enabled(enables, part, c)
    ensures Enabled(enables, Attenuated(ucan, part), c)
  {
    var y :| y in part && enables(y.capability, c);
    var k :| 0 <= k < |part| && part[k] == y;
    assert Attenuated(ucan, part)[k] in Attenuated(ucan, part);
  }

  lemma InputsGranted(sem: Semantics, chain: ProofChain, own: seq<Info>, redelegated: seq<Info>)
    requires Capabilities(own) == Claims(sem.parse, chain.ucan.capabilities)
    requires forall y | y in own :: Belongs(chain, y)
    requires Inherited(sem, chain, |chain.proofs|, redelegated)
    ensures Reduced(sem, chain, own + redelegated)
  {
    forall y | y in own
      ensures Granted(sem, chain, y.capability)
    {
      var k :| 0 <= k < |own| && own[k] == y;
      assert Capabilities(own)[k] in Claims(sem.parse, chain.ucan.capabilities);
    }
    if Preorder(sem.enables) {
      forall c | Granted(sem, chain, c)
        ensures Enabled(sem.enables, own + redelegated, c)
      {
        if c in Claims(sem.parse, chain.ucan.capabilities) {
          var k :| 0 <= k < |own| && Capabilities(own)[k] == c;
          assert own[k] in own + redelegated && sem.enables(own[k].capability, c);
        } else {
          var i :| i in chain.redelegations && i < |chain.proofs| && Granted(sem, chain.proofs[i], c);
          StillEnabled(sem.enables, redelegated, own + redelegated, c);
        }
      }
    }
  }

  /** Merging keeps all that the reduction promises. */
  lemma MergedIsReduced(sem: Semantics, chain: ProofChain, inputs: seq<Info>)
    requires Reduced(sem, chain, inputs)
    ensures Reduced(sem, chain, MergeOf(sem.enables, inputs))
  {
    var merged := MergeOf(sem.enables, inputs);
    MergeGrows(sem.enables, inputs);
    MergeNames(sem.enables, inputs);
    if Preorder(sem.enables) {
      MergeCovers(sem.enables, inputs);
    }
    forall y | y in merged
      ensures Granted(sem, chain, y.capability) && Belongs(chain, y)
    {
      assert GrownFrom(Elements(inputs), y);
      var x :| x in Elements(inputs) && x.originators <= y.originators && y == x.(originators := y.originators);
      assert Belongs(chain, x) && Granted(sem, chain, x.capability);
      forall o | o in y.originators
        ensures Issues(chain, o)
      {
        var i :| i in Elements(inputs) && o in i.originators;
        assert Belongs(chain, i);
      }
    }
    if Preorder(sem.enables) {
      forall c | Granted(sem, chain, c)
        ensures Enabled(sem.enables, merged, c)
      {
        MergedEnables(sem.enables, inputs, merged, c);
      }
    }
  }

  lemma MergedEnables(enables: Enabling, inputs: seq<Info>, merged: seq<Info>, c: Capability)
    requires Preorder(enables) && Enabled(enables, inputs, c)
    requires CoversAll(enables, Elements(merged), Elements(inputs))
    ensures Enabled(enables, merged, c)
  {
    var x :| x in inputs && enables(x.capability, c);
    assert x in Elements(inputs);
    var y :| y in Elements(merged) && Covers(enables, y, x);
    assert y in merged && enables(y.capability, c);
  }

  /** The gathered redelegated infos enable all that the redelegated proofs grant. */
  lemma {:induction false} GatheredInherits(sem: Semantics, chain: ProofChain, parts: seq<seq<Info>>, n: nat)
    requires n <= |parts| == |chain.proofs|
    requires forall i | 0 <= i < |parts| :: Reduced(sem, chain.proofs[i], parts[i])
    ensures Inherited(sem, chain, n, Attenuated(chain.ucan, Gathered(chain, parts, true, n)))
    decreases n
  {
    if n == 0 {
      NothingInherited(sem, chain);
    } else {
      GatheredInherits(sem, chain, parts, n - 1);
      var infos := Gathered(chain, parts, true, n - 1);
      if n - 1 in chain.redelegations {
        InheritMore(sem, chain, n - 1, Attenuated(chain.ucan, infos), parts[n - 1]);
        AttenuatedAppend(chain.ucan, infos, parts[n - 1]);
      } else {
        InheritNoMore(sem, chain, n - 1, Attenuated(chain.ucan, infos));
        assert infos + [] == infos;
      }
    }
  }

  lemma NothingInherited(sem: Semantics, chain: ProofChain)
    ensures Inherited(sem, chain, 0, Attenuated(chain.ucan, []))
  {}

  lemma InheritNoMore(sem: Semantics, chain: ProofChain, n: nat, infos: seq<Info>)
    requires n < |chain.proofs| && n !in chain.redelegations && Inherited(sem, chain, n, infos)
    ensures Inherited(sem, chain, n + 1, infos)
  {}

  lemma AttenuatedAppend(ucan: Ucan, a: seq<Info>, b: seq<Info>)
    ensures Attenuated(ucan, a + b) == Attenuated(ucan, a) + Attenuated(ucan, b)
  {}

  /** The originators of gathered infos are issuers in the chain. */
  lemma {:induction false} GatheredIssues(sem: Semantics, chain: ProofChain, parts: seq<seq<Info>>, redelegated: bool,
                                          n: nat)
    requires n <= |parts| == |chain.proofs|
    requires forall i | 0 <= i < |parts| :: Reduced(sem, chain.proofs[i], parts[i])
    ensures forall a, o | a in Gathered(chain, parts, redelegated, n) && o in a.originators :: Issues(chain, o)
    decreases n
  {
    if n > 0 {
      GatheredIssues(sem, chain, parts, redelegated, n - 1);
      PartIssues(sem, chain, n - 1, parts[n - 1]);
    }
  }

  lemma ClaimsBelong(enables: Enabling, chain: ProofChain, ancestral: seq<Info>, claims: seq<Capability>)
    requires forall a, o | a in ancestral && o in a.originators :: Issues(chain, o)
    ensures forall y | y in ClaimInfos(enables, chain.ucan, ancestral, claims) :: Belongs(chain, y)
  {
    forall y | y in ClaimInfos(enables, chain.ucan, ancestral, claims)
      ensures Belongs(chain, y)
    {
      assert y.originators == ClaimOriginators(enables, ancestral, y.capability, chain.ucan.issuer);
    }
  }

  /** Every reduced capability is granted by the chain, carries the lifetime of its token and
      originates from issuers in the chain; when enabling is reflexive and transitive,
      everything granted is enabled by one of them. */
  lemma {:induction false} ReductionIsReduced(sem: Semantics, chain: ProofChain)
    ensures Reduced(sem, chain, ReductionOf(sem, chain))
  {
    var parts := Parts(sem, chain);
    forall i | 0 <= i < |parts|
      ensures Reduced(sem, chain.proofs[i], parts[i])
    {
      ReductionIsReduced(sem, chain.proofs[i]);
    }
    var n := |parts|;
    var ancestral, claims := Gathered(chain, parts, false, n), Claims(sem.parse, chain.ucan.capabilities);
    GatheredIssues(sem, chain, parts, false, n);
    ClaimsBelong(sem.enables, chain, ancestral, claims);
    GatheredInherits(sem, chain, parts, n);
    var own := ClaimInfos(sem.enables, chain.ucan, ancestral, claims);
    assert Capabilities(own) == claims;
    InputsGranted(sem, chain, own, Attenuated(chain.ucan, Gathered(chain, parts, true, n)));
    MergedIsReduced(sem, chain, Inputs(sem, chain, parts));
  }

  /** What the reduced capabilities enable is exactly what the granted ones enable. */
  lemma ReducedIsExact(sem: Semantics, chain: ProofChain, infos: seq<Info>, c: Capability)
    requires Reduced(sem, chain, infos) && Preorder(sem.enables)
    ensures Enabled(sem.enables, infos, c) <==> exists g :: Granted(sem, chain, g) && sem.enables(g, c)
  {
    if Enabled(sem.enables, infos, c) {
      var y :| y in infos && sem.enables(y.capability, c);
      assert Granted(sem, chain, y.capability);
    }
    if exists g :: Granted(sem, chain, g) && sem.enables(g, c) {
      var g :| Granted(sem, chain, g) && sem.enables(g, c);
      assert Enabled(sem.enables, infos, g);
      var y :| y in infos && sem.enables(y.capability, g);
      assert sem.enables(y.capability, c);
    }
  }
}
