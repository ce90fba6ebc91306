/** Accepting and reducing a token, and what the originators named by the result stand for. */
module CapabilityOrigins {
  import opened Wrappers
  import opened Ucans
  import opened ProofChains
  import opened CapabilityMerge
  import opened CapabilityReduction

  // ----- Accepting and reducing -----

  /** The capability is usable at no time outside the lifetime of the token. */
  predicate Outlives(ucan: Ucan, info: Info)
  {
    Encompasses(ucan, ucan.(notBefore := info.notBefore, expires := info.expires))
  }

  /** A token is accepted and its chain reduced: this succeeds exactly on acceptable tokens,
      the result is what a reduction promises, and every token of the chain outlives every
      reduced capability. */
  method AcceptAndReduce(ctx: Context, sem: Semantics, ucan: Ucan)
    returns (r: Result<seq<Info>>, ghost chain: ProofChain)
    ensures r.Ok? <==> Acceptable(ctx, ucan)
    ensures Validate(ctx, ucan).Err? ==> r == Err(Validate(ctx, ucan).error)
    ensures r.Ok? ==> chain.ucan == ucan && Sound(ctx, chain) && r.value == ReductionOf(sem, chain)
    ensures r.Ok? ==> Reduced(sem, chain, r.value)
    ensures r.Ok? ==> forall path, ancestor, y | AncestorAt(chain, path, ancestor) && y in r.value ::
              Outlives(ancestor.ucan, y)
  {
    var accepted := FromUcan(ctx, ucan);
    if accepted.Err? {
      return Err(accepted.error), ProofChain(ucan, [], {});
    }
    chain := accepted.value;
    SoundIsIndexed(ctx, chain);
    var infos := Reduce(sem, accepted.value);
    ReductionIsReduced(sem, chain);
    AncestorsOutlive(ctx, sem, chain);
    return Ok(infos), chain;
  }

  lemma AncestorsOutlive(ctx: Context, sem: Semantics, chain: ProofChain)
    requires Sound(ctx, chain) && Reduced(sem, chain, ReductionOf(sem, chain))
    ensures forall path, ancestor, y | AncestorAt(chain, path, ancestor) && y in ReductionOf(sem, chain) ::
              Outlives(ancestor.ucan, y)
  {
    forall path, ancestor, y | AncestorAt(chain, path, ancestor) && y in ReductionOf(sem, chain)
      ensures Outlives(ancestor.ucan, y)
    {
      AncestorsEnclose(ctx, chain, path, ancestor);
      assert Belongs(chain, y);
    }
  }

  // ----- Who is named -----

  /** The inputs of the merge that ends the reduction of a chain. */
  ghost function ChainInputs(sem: Semantics, chain: ProofChain): seq<Info>
  {
    Inputs(sem, chain, Parts(sem, chain))
  }

  /** A proof that is not redelegated reduces to `y`, which enables `c`. */
  ghost predicate EnabledBy(sem: Semantics, chain: ProofChain, c: Capability, i: nat, y: Info)
  {
    && i < |chain.proofs| && i !in chain.redelegations
    && y in ReductionOf(sem, chain.proofs[i]) && sem.enables(y.capability, c)
  }

  /** Some such capability of an ancestor names `o`. */
  ghost predicate NamedByProof(sem: Semantics, chain: ProofChain, c: Capability, o: string)
  {
    exists i: nat, y :: EnabledBy(sem, chain, c, i, y) && o in y.originators
  }

  lemma {:induction false} GatheredFrom(chain: ProofChain, parts: seq<seq<Info>>, redelegated: bool, n: nat, y: Info)
    requires n <= |parts|
    ensures y in Gathered(chain, parts, redelegated, n) <==>
            exists i | 0 <= i < n :: (i in chain.redelegations) == redelegated && y in parts[i]
    decreases n
  {
    if n > 0 {
      GatheredFrom(chain, parts, redelegated, n - 1, y);
    }
  }

  lemma NonredelegatedInfos(sem: Semantics, chain: ProofChain, c: Capability, o: string)
    ensures var parts := Parts(sem, chain);
      o in EnablingOriginators(sem.enables, Gathered(chain, parts, false, |parts|), c) <==>
      NamedByProof(sem, chain, c, o)
  {
    var parts := Parts(sem, chain);
    var ancestral := Gathered(chain, parts, false, |parts|);
    if o in EnablingOriginators(sem.enables, ancestral, c) {
      var y :| y in ancestral && sem.enables(y.capability, c) && o in y.originators;
      GatheredFrom(chain, parts, false, |parts|, y);
      var i :| 0 <= i < |parts| && i !in chain.redelegations && y in parts[i];
      assert EnabledBy(sem, chain, c, i, y);
    }
    if NamedByProof(sem, chain, c, o) {
      var i: nat, y :| EnabledBy(sem, chain, c, i, y) && o in y.originators;
      assert y in parts[i];
      GatheredFrom(chain, parts, false, |parts|, y);
    }
  }

  /** An own claim is originated by exactly those whom an enabling capability of a proof that
      is not redelegated names, or by the issuer when there are none. */
  lemma ClaimOriginatorsAre(sem: Semantics, chain: ProofChain, k: nat, o: string)
    requires k < |Claims(sem.parse, chain.ucan.capabilities)|
    ensures var claims, infos := Claims(sem.parse, chain.ucan.capabilities), ChainInputs(sem, chain);
      && k < |infos| && infos[k].capability == claims[k]
      && (o in infos[k].originators <==>
            || NamedByProof(sem, chain, claims[k], o)
            || (o == chain.ucan.issuer && forall i: nat, y :: !EnabledBy(sem, chain, claims[k], i, y)))
  {
    var c := Claims(sem.parse, chain.ucan.capabilities)[k];
    var parts := Parts(sem, chain);
    var named := EnablingOriginators(sem.enables, Gathered(chain, parts, false, |parts|), c);
    NonredelegatedInfos(sem, chain, c, o);
    if named == {} {
      forall i: nat, y | EnabledBy(sem, chain, c, i, y)
        ensures false
      {
        var p := SomeOriginator(sem, chain, i, y);
        assert NamedByProof(sem, chain, c, p);
        NonredelegatedInfos(sem, chain, c, p);
      }
    } else {
      var p :| p in named;
      NonredelegatedInfos(sem, chain, c, p);
    }
  }

  /** Every reduced capability has an originator. */
  lemma SomeOriginator(sem: Semantics, chain: ProofChain, i: nat, y: Info) returns (o: string)
    requires i < |chain.proofs| && y in ReductionOf(sem, chain.proofs[i])
    ensures o in y.originators
  {
    ReductionIsReduced(sem, chain.proofs[i]);
    assert Belongs(chain.proofs[i], y);
    o :| o in y.originators;
  }

  /** Some reduced capability enables `c` and names all of `originators`. */
  ghost predicate Attributed(sem: Semantics, chain: ProofChain, c: Capability, originators: set<string>)
  {
    exists z :: z in ReductionOf(sem, chain) && sem.enables(z.capability, c) && originators <= z.originators
  }

  lemma InputAttributed(sem: Semantics, chain: ProofChain, x: Info)
    requires Preorder(sem.enables) && x in ChainInputs(sem, chain)
    ensures Attributed(sem, chain, x.capability, x.originators)
  {
    var infos := ChainInputs(sem, chain);
    MergeCovers(sem.enables, infos);
    assert x in Elements(infos);
    var z :| z in Elements(MergeOf(sem.enables, infos)) && Covers(sem.enables, z, x);
    assert z in ReductionOf(sem, chain);
  }

  /** Delegated authority is attributed: whoever originates a capability of a proof that enables
      a claim of the token is named by a reduced capability that enables that claim. */
  lemma ClaimAttributed(sem: Semantics, chain: ProofChain, c: Capability, i: nat, y: Info)
    requires Preorder(sem.enables) && c in Claims(sem.parse, chain.ucan.capabilities) && EnabledBy(sem, chain, c, i, y)
    ensures Attributed(sem, chain, c, y.originators)
  {
    var claims, infos := Claims(sem.parse, chain.ucan.capabilities), ChainInputs(sem, chain);
    var k :| 0 <= k < |claims| && claims[k] == c;
    forall o | o in y.originators
      ensures o in infos[k].originators
    {
      assert NamedByProof(sem, chain, c, o);
      ClaimOriginatorsAre(sem, chain, k, o);
    }
    ClaimOriginatorsAre(sem, chain, k, "");
    InputAttributed(sem, chain, infos[k]);
  }

  /** So is redelegated authority: a capability of a redelegated proof lives on in one that
      enables it and names all its originators. */
  lemma RedelegationAttributed(sem: Semantics, chain: ProofChain, i: nat, y: Info)
    requires Preorder(sem.enables) && i < |chain.proofs| && i in chain.redelegations
    requires y in ReductionOf(sem, chain.proofs[i])
    ensures Attributed(sem, chain, y.capability, y.originators)
  {
    var parts := Parts(sem, chain);
    var redelegated := Gathered(chain, parts, true, |parts|);
    assert y in parts[i];
    GatheredFrom(chain, parts, true, |parts|, y);
    var k :| 0 <= k < |redelegated| && redelegated[k] == y;
    var x := Attenuated(chain.ucan, redelegated)[k];
    assert x in Attenuated(chain.ucan, redelegated) && x in ChainInputs(sem, chain);
    InputAttributed(sem, chain, x);
  }

  // ----- Issued authority -----

  /** The token claims a capability that enables `c`. */
  ghost predicate ClaimsEnabling(sem: Semantics, ucan: Ucan, c: Capability)
  {
    exists d :: d in Claims(sem.parse, ucan.capabilities) && sem.enables(d, c)
  }

  /** `did` issued, somewhere in the chain, a token with a claim that enables `c`. */
  ghost predicate Issued(sem: Semantics, chain: ProofChain, did: string, c: Capability)
  {
    || (did == chain.ucan.issuer && ClaimsEnabling(sem, chain.ucan, c))
    || exists i :: 0 <= i < |chain.proofs| && Issued(sem, chain.proofs[i], did, c)
  }

  /** Every originator named for a capability issued a claim that enables it. */
  ghost predicate AllIssued(sem: Semantics, chain: ProofChain, infos: seq<Info>)
  {
    forall y, o | y in infos && o in y.originators :: Issued(sem, chain, o, y.capability)
  }

  lemma {:induction false} IssuedWeaker(sem: Semantics, chain: ProofChain, did: string, c: Capability, d: Capability)
    requires Preorder(sem.enables) && sem.enables(c, d) && Issued(sem, chain, did, c)
    ensures Issued(sem, chain, did, d)
  {
    if did == chain.ucan.issuer && ClaimsEnabling(sem, chain.ucan, c) {
      var e :| e in Claims(sem.parse, chain.ucan.capabilities) && sem.enables(e, c);
      assert sem.enables(e, d);
    } else {
      var i :| 0 <= i < |chain.proofs| && Issued(sem, chain.proofs[i], did, c);
      IssuedWeaker(sem, chain.proofs[i], did, c, d);
    }
  }

  // ----- One level -----

  /** `did` issued a claim that enables the input at `i`. */
  ghost predicate IssuedAt(sem: Semantics, chain: ProofChain, infos: seq<Info>, i: nat, did: string)
  {
    i < |infos| && Issued(sem, chain, did, infos[i].capability)
  }

  /** The originators of a reduced chain are rightly named exactly when every originator of an
      input of its merge issued a claim that enables the capability the input ends up in. */
  lemma ReducedIssuedIff(sem: Semantics, chain: ProofChain)
    ensures AllIssued(sem, chain, ReductionOf(sem, chain)) <==>
            var infos := ChainInputs(sem, chain);
            forall k, o | 0 <= k < |infos| && o in infos[k].originators ::
              IssuedAt(sem, chain, infos, Root(sem.enables, Capabilities(infos), k), o)
  {
    var infos := ChainInputs(sem, chain);
    if AllIssued(sem, chain, ReductionOf(sem, chain)) {
      forall k, o | 0 <= k < |infos| && o in infos[k].originators
        ensures IssuedAt(sem, chain, infos, Root(sem.enables, Capabilities(infos), k), o)
      {
        var y := OutputOf(sem.enables, infos, k);
        assert o in y.originators;
      }
    }
    if forall k, o | 0 <= k < |infos| && o in infos[k].originators ::
        IssuedAt(sem, chain, infos, Root(sem.enables, Capabilities(infos), k), o) {
      forall y, o | y in ReductionOf(sem, chain) && o in y.originators
        ensures Issued(sem, chain, o, y.capability)
      {
        var k := OriginatorOf(sem.enables, infos, y, o);
        assert IssuedAt(sem, chain, infos, Root(sem.enables, Capabilities(infos), k), o);
      }
    }
  }

  /** Whoever originates an input also issued a claim that enables the first earlier input
      enabling it, if there is one. */
  ghost predicate FoldsIssued(sem: Semantics, chain: ProofChain, infos: seq<Info>)
  {
    forall k, o | 0 <= k < |infos| && o in infos[k].originators ::
      Above(sem.enables, infos, k).Some? ==> IssuedAt(sem, chain, infos, Above(sem.enables, infos, k).value, o)
  }

  lemma {:induction false} GatheredIssued(sem: Semantics, chain: ProofChain, parts: seq<seq<Info>>, redelegated: bool,
                                          n: nat)
    requires n <= |parts| == |chain.proofs|
    requires forall i | 0 <= i < |parts| :: AllIssued(sem, chain.proofs[i], parts[i])
    ensures AllIssued(sem, chain, Gathered(chain, parts, redelegated, n))
    decreases n
  {
    if n > 0 {
      GatheredIssued(sem, chain, parts, redelegated, n - 1);
      forall y, o | y in parts[n - 1] && o in y.originators
        ensures Issued(sem, chain, o, y.capability)
      {
        assert Issued(sem, chain.proofs[n - 1], o, y.capability);
      }
    }
  }

  /** The originators of a claim issued claims that enable it. */
  lemma ClaimIssued(sem: Semantics, chain: ProofChain, ancestral: seq<Info>, c: Capability, o: string)
    requires Preorder(sem.enables) && AllIssued(sem, chain, ancestral)
    requires c in Claims(sem.parse, chain.ucan.capabilities)
    requires o in ClaimOriginators(sem.enables, ancestral, c, chain.ucan.issuer)
    ensures Issued(sem, chain, o, c)
  {
    if o in EnablingOriginators(sem.enables, ancestral, c) {
      var a :| a in ancestral && sem.enables(a.capability, c) && o in a.originators;
      IssuedWeaker(sem, chain, o, a.capability, c);
    } else {
      assert sem.enables(c, c) && ClaimsEnabling(sem, chain.ucan, c);
    }
  }

  /** When the proofs name their originators rightly, so do the inputs of the merge. */
  lemma InputsIssued(sem: Semantics, chain: ProofChain, parts: seq<seq<Info>>)
    requires Preorder(sem.enables) && |parts| == |chain.proofs|
    requires forall i | 0 <= i < |parts| :: AllIssued(sem, chain.proofs[i], parts[i])
    ensures AllIssued(sem, chain, Inputs(sem, chain, parts))
  {
    var ancestral, redelegated := Gathered(chain, parts, false, |parts|), Gathered(chain, parts, true, |parts|);
    GatheredIssued(sem, chain, parts, false, |parts|);
    GatheredIssued(sem, chain, parts, true, |parts|);
    var claims := Claims(sem.parse, chain.ucan.capabilities);
    forall y, o | y in ClaimInfos(sem.enables, chain.ucan, ancestral, claims) && o in y.originators
      ensures Issued(sem, chain, o, y.capability)
    {
      ClaimIssued(sem, chain, ancestral, y.capability, o);
    }
    forall y, o | y in Attenuated(chain.ucan, redelegated) && o in y.originators
      ensures Issued(sem, chain, o, y.capability)
    {
      var i :| 0 <= i < |redelegated| && Attenuated(chain.ucan, redelegated)[i] == y;
      assert redelegated[i] in redelegated;
    }
  }

  /** Where nothing is folded the input itself is issued, so only folds matter. */
  lemma LandsIssued(sem: Semantics, chain: ProofChain, infos: seq<Info>, k: nat, o: string)
    requires Preorder(sem.enables) && AllIssued(sem, chain, infos) && k < |infos| && o in infos[k].originators
    ensures IssuedAt(sem, chain, infos, Root(sem.enables, Capabilities(infos), k), o) <==>
            (Above(sem.enables, infos, k).Some? ==> IssuedAt(sem, chain, infos, Above(sem.enables, infos, k).value, o))
  {
    RootIsFirst(sem.enables, Capabilities(infos), k);
    assert infos[k] in infos;
  }

  /** One level: given proofs that name their originators rightly, the chain does exactly when
      no input of its merge is folded into a capability beyond what its originators issued. */
  lemma LevelIssuedIff(sem: Semantics, chain: ProofChain)
    requires Preorder(sem.enables)
    requires forall i | 0 <= i < |chain.proofs| :: AllIssued(sem, chain.proofs[i], ReductionOf(sem, chain.proofs[i]))
    ensures AllIssued(sem, chain, ReductionOf(sem, chain)) <==> FoldsIssued(sem, chain, ChainInputs(sem, chain))
  {
    var infos := ChainInputs(sem, chain);
    InputsIssued(sem, chain, Parts(sem, chain));
    ReducedIssuedIff(sem, chain);
    forall k, o | 0 <= k < |infos| && o in infos[k].originators
      ensures IssuedAt(sem, chain, infos, Root(sem.enables, Capabilities(infos), k), o) <==>
              (Above(sem.enables, infos, k).Some? ==>
                 IssuedAt(sem, chain, infos, Above(sem.enables, infos, k).value, o))
    {
      LandsIssued(sem, chain, infos, k, o);
    }
  }

  // ----- Whole chains -----

  /** At every level of the chain the merge folds upright. */
  ghost predicate Upright(sem: Semantics, chain: ProofChain)
  {
    && (forall i | 0 <= i < |chain.proofs| :: Upright(sem, chain.proofs[i]))
    && FoldsIssued(sem, chain, ChainInputs(sem, chain))
  }

  /** At every level of the chain the reduction names originators rightly. */
  ghost predicate RightlyNamed(sem: Semantics, chain: ProofChain)
  {
    && (forall i | 0 <= i < |chain.proofs| :: RightlyNamed(sem, chain.proofs[i]))
    && AllIssued(sem, chain, ReductionOf(sem, chain))
  }

  /** Each originator of each reduced capability issued a claim that enables it, in the chain
      and in all its proofs, exactly when every merge folds upright. */
  lemma {:induction false} OriginatorsIssuedIff(sem: Semantics, chain: ProofChain)
    requires Preorder(sem.enables)
    ensures RightlyNamed(sem, chain) <==> Upright(sem, chain)
    ensures Upright(sem, chain) ==> AllIssued(sem, chain, ReductionOf(sem, chain))
  {
    forall i | 0 <= i < |chain.proofs|
      ensures RightlyNamed(sem, chain.proofs[i]) <==> Upright(sem, chain.proofs[i])
    {
      OriginatorsIssuedIff(sem, chain.proofs[i]);
    }
    if forall i | 0 <= i < |chain.proofs| :: Upright(sem, chain.proofs[i]) {
      forall i | 0 <= i < |chain.proofs|
        ensures AllIssued(sem, chain.proofs[i], ReductionOf(sem, chain.proofs[i]))
      {
        assert RightlyNamed(sem, chain.proofs[i]);
      }
      LevelIssuedIff(sem, chain);
    }
  }

  // ----- A chain that names an originator for more than it issued -----

  const AUTHORIZE := Capability("sphere", "authorize")
  const FETCH := Capability("sphere", "fetch")

  function Read(text: string): Option<Capability>
  {
    if text == "authorize" then Some(AUTHORIZE) else if text == "fetch" then Some(FETCH) else None
  }

  predicate Ranks(a: Capability, b: Capability)
  {
    a == b || (a == AUTHORIZE && b == FETCH)
  }

  /** Two abilities of a sphere, the first of which enables the second. */
  const TWO_ABILITIES := Semantics(Read, Ranks)

  /** A token of the sphere's owner for `fetch`. */
  function FetchToken(owner: string, holder: string): Ucan
  {
    Ucan(owner, holder, None, None, [], ["fetch"])
  }

  /** A token of its holder for `authorize` and `fetch`, with the former as proof. */
  function BothToken(owner: string, holder: string, device: string): Ucan
  {
    Ucan(holder, device, None, None, [Token(FetchToken(owner, holder))], ["authorize", "fetch"])
  }

  /** Everything is signed, nothing is redelegated, and the proof is at hand. */
  function TwoTokens(owner: string, holder: string): Context
  {
    Context(None, 0, _ => true, _ => None, {Token(FetchToken(owner, holder))})
  }

  lemma ClaimsOfTokens()
    ensures Claims(Read, ["fetch"]) == [FETCH] && Claims(Read, ["authorize"]) == [AUTHORIZE]
    ensures Claims(Read, ["authorize", "fetch"]) == [AUTHORIZE, FETCH]
  {
    var one, other, two := ["fetch"], ["authorize"], ["authorize", "fetch"];
    assert one[1..] == [] && other[1..] == [] && two[1..] == one;
    assert Claims(Read, other) == [AUTHORIZE] + Claims(Read, other[1..]);
    assert Claims(Read, one) == [FETCH] + Claims(Read, one[1..]);
    assert Claims(Read, two) == [AUTHORIZE] + Claims(Read, two[1..]);
  }

  lemma TokensAreAcceptable(owner: string, holder: string, device: string)
    ensures Acceptable(TwoTokens(owner, holder), BothToken(owner, holder, device))
  {
    var ctx, proof, ucan := TwoTokens(owner, holder), FetchToken(owner, holder), BothToken(owner, holder, device);
    assert Acceptable(ctx, proof);
    assert AcceptableProof(ctx, ucan.proofs[0], ucan);
  }

  /** The holder's claims: `authorize` is their own, `fetch` the owner's. */
  lemma InputsOfBoth(chain: ProofChain, owner: string, holder: string, device: string)
    requires chain.ucan == BothToken(owner, holder, device) && chain.redelegations == {}
    ensures Inputs(TWO_ABILITIES, chain, [[Info({owner}, None, None, FETCH)]]) ==
            [Info({holder}, None, None, AUTHORIZE), Info({owner}, None, None, FETCH)]
  {
    ClaimsOfTokens();
    OriginatorsOfBoth(owner);
    var ancestral := [Info({owner}, None, None, FETCH)];
    var parts := [ancestral];
    assert Gathered(chain, parts, false, 0) == [] && Gathered(chain, parts, true, 0) == [];
    assert Gathered(chain, parts, false, 1) == [] + ancestral && Gathered(chain, parts, true, 1) == [] + [];
    assert ClaimOriginators(Ranks, ancestral, AUTHORIZE, holder) == {holder};
    assert ClaimOriginators(Ranks, ancestral, FETCH, holder) == {owner};
    var own, fetched := Info({holder}, None, None, AUTHORIZE), Info({owner}, None, None, FETCH);
    assert ClaimInfos(Ranks, chain.ucan, ancestral, [AUTHORIZE, FETCH]) == [own, fetched];
    assert Gathered(chain, parts, false, |parts|) == ancestral && Gathered(chain, parts, true, |parts|) == [];
    assert Attenuated(chain.ucan, []) == [] && [own, fetched] + [] == [own, fetched];
    assert Inputs(TWO_ABILITIES, chain, parts) == [own, fetched] + Attenuated(chain.ucan, []);
  }

  /** Both are merged into `authorize` of both. */
  lemma ReductionOfBoth(chain: ProofChain, owner: string, holder: string, device: string)
    requires chain.ucan == BothToken(owner, holder, device) && chain.redelegations == {}
    requires |chain.proofs| == 1 && ReductionOf(TWO_ABILITIES, chain.proofs[0]) == [Info({owner}, None, None, FETCH)]
    ensures ReductionOf(TWO_ABILITIES, chain) == [Info({holder, owner}, None, None, AUTHORIZE)]
  {
    var own, fetched := Info({holder}, None, None, AUTHORIZE), Info({owner}, None, None, FETCH);
    var parts := Parts(TWO_ABILITIES, chain);
    assert parts[0] == [fetched] && parts == [[fetched]];
    InputsOfBoth(chain, owner, holder, device);
    MergeTwo(Ranks, own, fetched);
    assert ReductionOf(TWO_ABILITIES, chain) == MergeOf(Ranks, Inputs(TWO_ABILITIES, chain, parts));
    assert Extended(own, fetched).originators == {holder, owner};
  }

  lemma OriginatorsOfBoth(owner: string)
    ensures var ancestral := [Info({owner}, None, None, FETCH)];
      && EnablingOriginators(Ranks, ancestral, AUTHORIZE) == {}
      && EnablingOriginators(Ranks, ancestral, FETCH) == {owner}
  {
    var ancestral := [Info({owner}, None, None, FETCH)];
    assert ancestral[0] in ancestral;
  }

  lemma OwnerIssuedFetchOnly(chain: ProofChain, owner: string, holder: string, device: string)
    requires owner != holder
    requires chain.ucan == BothToken(owner, holder, device) && |chain.proofs| == 1
    requires chain.proofs[0].ucan == FetchToken(owner, holder) && chain.proofs[0].proofs == []
    ensures !Issued(TWO_ABILITIES, chain, owner, AUTHORIZE)
  {
    ClaimsOfTokens();
    assert !Issued(TWO_ABILITIES, chain.proofs[0], owner, AUTHORIZE);
  }

  /** The owner issued `fetch` to a holder, whose own token claims `authorize` and `fetch`. It
      is accepted, and the reduction names the owner as an originator of `authorize`. */
  method WeakerOriginatorIsNamed(owner: string, holder: string, device: string)
    returns (r: Result<seq<Info>>, ghost chain: ProofChain)
    requires owner != holder
    ensures Sound(TwoTokens(owner, holder), chain) && chain.ucan == BothToken(owner, holder, device)
    ensures r == Ok([Info({holder, owner}, None, None, AUTHORIZE)])
    ensures !Issued(TWO_ABILITIES, chain, owner, AUTHORIZE)
    ensures Preorder(TWO_ABILITIES.enables) && !Upright(TWO_ABILITIES, chain)
  {
    var ctx, ucan := TwoTokens(owner, holder), BothToken(owner, holder, device);
    TokensAreAcceptable(owner, holder, device);
    r, chain := AcceptAndReduce(ctx, TWO_ABILITIES, ucan);
    assert ucan.proofs[0] == Token(chain.proofs[0].ucan);
    assert Sound(ctx, chain.proofs[0]);
    assert chain.redelegations == {};
    ClaimsOfTokens();
    ReductionOfOneClaim(TWO_ABILITIES, chain.proofs[0], FETCH);
    ReductionOfBoth(chain, owner, holder, device);
    OwnerIssuedFetchOnly(chain, owner, holder, device);
    assert r.value[0] in r.value && owner in r.value[0].originators;
    OriginatorsIssuedIff(TWO_ABILITIES, chain);
  }

  // ----- A chain that attenuates -----

  /** A token of the sphere's owner for `authorize`. */
  function AuthorizeToken(owner: string, holder: string): Ucan
  {
    Ucan(owner, holder, None, None, [], ["authorize"])
  }

  /** A token of its holder for `fetch` only, with the former as proof. */
  function AttenuatedToken(owner: string, holder: string, device: string): Ucan
  {
    Ucan(holder, device, None, None, [Token(AuthorizeToken(owner, holder))], ["fetch"])
  }

  lemma AttenuationIsAcceptable(ctx: Context, owner: string, holder: string, device: string)
    requires ctx == Context(None, 0, _ => true, _ => None, {Token(AuthorizeToken(owner, holder))})
    ensures Acceptable(ctx, AttenuatedToken(owner, holder, device))
  {
    var proof, ucan := AuthorizeToken(owner, holder), AttenuatedToken(owner, holder, device);
    assert Acceptable(ctx, proof);
    assert AcceptableProof(ctx, ucan.proofs[0], ucan);
  }

  /** The reduction of a token with one claim and no proofs. */
  lemma ReductionOfOneClaim(sem: Semantics, chain: ProofChain, c: Capability)
    requires Claims(sem.parse, chain.ucan.capabilities) == [c] && chain.proofs == []
    ensures ReductionOf(sem, chain) == [Info({chain.ucan.issuer}, chain.ucan.notBefore, chain.ucan.expires, c)]
  {
    var info := Info({chain.ucan.issuer}, chain.ucan.notBefore, chain.ucan.expires, c);
    assert Parts(sem, chain) == [];
    assert EnablingOriginators(sem.enables, [], c) == {};
    assert Inputs(sem, chain, []) == [info];
    MergeOne(sem.enables, info);
  }

  lemma AttenuatedInputs(chain: ProofChain, owner: string, holder: string, device: string)
    requires chain.ucan == AttenuatedToken(owner, holder, device) && chain.redelegations == {}
    ensures Inputs(TWO_ABILITIES, chain, [[Info({owner}, None, None, AUTHORIZE)]]) == [Info({owner}, None, None, FETCH)]
  {
    ClaimsOfTokens();
    var ancestral := [Info({owner}, None, None, AUTHORIZE)];
    var parts := [ancestral];
    assert Gathered(chain, parts, false, 0) == [] && Gathered(chain, parts, true, 0) == [];
    assert Gathered(chain, parts, false, 1) == [] + ancestral && Gathered(chain, parts, true, 1) == [] + [];
    assert ancestral[0] in ancestral && EnablingOriginators(Ranks, ancestral, FETCH) == {owner};
    assert ClaimOriginators(Ranks, ancestral, FETCH, holder) == {owner};
    assert ClaimInfos(Ranks, chain.ucan, ancestral, [FETCH]) == [Info({owner}, None, None, FETCH)];
    assert Gathered(chain, parts, false, |parts|) == ancestral && Gathered(chain, parts, true, |parts|) == [];
    assert Attenuated(chain.ucan, []) == [];
    assert Inputs(TWO_ABILITIES, chain, parts) == [Info({owner}, None, None, FETCH)] + Attenuated(chain.ucan, []);
  }

  lemma ReductionOfAttenuated(chain: ProofChain, owner: string, holder: string, device: string)
    requires chain.ucan == AttenuatedToken(owner, holder, device) && chain.redelegations == {} && |chain.proofs| == 1
    requires ReductionOf(TWO_ABILITIES, chain.proofs[0]) == [Info({owner}, None, None, AUTHORIZE)]
    ensures ReductionOf(TWO_ABILITIES, chain) == [Info({owner}, None, None, FETCH)]
  {
    var parts := Parts(TWO_ABILITIES, chain);
    assert parts[0] == [Info({owner}, None, None, AUTHORIZE)] && parts == [[Info({owner}, None, None, AUTHORIZE)]];
    AttenuatedInputs(chain, owner, holder, device);
    MergeOne(Ranks, Info({owner}, None, None, FETCH));
    assert ReductionOf(TWO_ABILITIES, chain) == MergeOf(Ranks, Inputs(TWO_ABILITIES, chain, parts));
  }

  /** The owner issued `authorize` to a holder, whose own token claims only `fetch`: the
      reduction names the owner, and nobody else, as the originator of `fetch`. */
  method AttenuatedOriginatorIsNamed(owner: string, holder: string, device: string) returns (r: Result<seq<Info>>)
    ensures r == Ok([Info({owner}, None, None, FETCH)])
  {
    var ctx := Context(None, 0, _ => true, _ => None, {Token(AuthorizeToken(owner, holder))});
    var ucan := AttenuatedToken(owner, holder, device);
    AttenuationIsAcceptable(ctx, owner, holder, device);
    ghost var chain;
    r, chain := AcceptAndReduce(ctx, TWO_ABILITIES, ucan);
    assert ucan.proofs[0] == Token(chain.proofs[0].ucan);
    assert Sound(ctx, chain.proofs[0]);
    assert chain.redelegations == {};
    ClaimsOfTokens();
    ReductionOfOneClaim(TWO_ABILITIES, chain.proofs[0], AUTHORIZE);
    ReductionOfAttenuated(chain, owner, holder, device);
  }
}
