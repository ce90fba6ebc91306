/** Chains of UCAN proofs. */
module ProofChains {
  import opened Wrappers
  import opened Ucans

  /** What a `prf:` capability redelegates. */
  datatype Selection = All | Index(index: nat) | Other

  datatype ProofChain = ProofChain(ucan: Ucan, proofs: seq<ProofChain>, redelegations: set<nat>)

  /** What validation depends on beside the token: the time asked for, the clock, who signed,
      how a capability reads as a redelegation, and the token store. */
  datatype Context = Context(nowTime: Option<Time>, clock: Time, signed: Ucan -> bool,
                             selects: string -> Option<Selection>, held: set<ProofRef>)

  /** The time a validation is asked for. */
  function Now(ctx: Context): Time
  {
    if ctx.nowTime.Some? then ctx.nowTime.value else ctx.clock
  }

  /** `Ucan::validate`. The expiry is compared with the time asked for, the start always with
      the clock. */
  function Validate(ctx: Context, ucan: Ucan): Result<()>
  {
    if ucan.expires.Some? && ucan.expires.value < Now(ctx) then Err(Expired)
    else if ucan.notBefore.Some? && ucan.notBefore.value > ctx.clock then Err(TooEarly)
    else if !ctx.signed(ucan) then Err(BadSignature)
    else Ok(())
  }

  /** `ProofChain::validate_link_to`. */
  function ValidateLink(proof: Ucan, ucan: Ucan): (r: Result<()>)
    ensures r.Ok? <==> LinksTo(proof, ucan)
  {
    if proof.audience != ucan.issuer then Err(AudienceMismatch)
    else if !Encompasses(proof, ucan) then Err(LifetimeExceeded)
    else Ok(())
  }

  predicate LinksTo(proof: Ucan, ucan: Ucan)
  {
    proof.audience == ucan.issuer && Encompasses(proof, ucan)
  }

  /** Some capability of the token redelegates proof `i`. */
  ghost predicate Redelegates(ctx: Context, capabilities: seq<string>, i: nat)
  {
    exists c :: c in capabilities && (ctx.selects(c) == Some(All) || ctx.selects(c) == Some(Index(i)))
  }

  ghost predicate SelectsWithin(ctx: Context, capabilities: seq<string>, n: nat)
  {
    forall c | c in capabilities && ctx.selects(c).Some? && ctx.selects(c).value.Index? ::
      ctx.selects(c).value.index < n
  }

  ghost predicate AcceptableProof(ctx: Context, proof: ProofRef, ucan: Ucan)
    decreases proof, 0
  {
    proof.Token? && proof in ctx.held && Acceptable(ctx, proof.ucan) && LinksTo(proof.ucan, ucan)
  }

  /** The tokens a proof chain can be made of, without reference to the chain. */
  ghost predicate Acceptable(ctx: Context, ucan: Ucan)
    decreases ucan, 1
  {
    && Validate(ctx, ucan).Ok?
    && (forall i | 0 <= i < |ucan.proofs| :: AcceptableProof(ctx, ucan.proofs[i], ucan))
    && SelectsWithin(ctx, ucan.capabilities, |ucan.proofs|)
  }

  /** `chain` is the chain of its token: the proofs in order, down to the last ancestor, and
      exactly the redelegated ones marked. */
  ghost predicate Sound(ctx: Context, chain: ProofChain)
  {
    && Validate(ctx, chain.ucan).Ok? && |chain.proofs| == |chain.ucan.proofs|
    && (forall i | 0 <= i < |chain.proofs| ::
          && Sound(ctx, chain.proofs[i]) && chain.ucan.proofs[i] == Token(chain.proofs[i].ucan)
          && LinksTo(chain.proofs[i].ucan, chain.ucan))
    && (forall i: nat :: i in chain.redelegations <==>
          i < |chain.proofs| && Redelegates(ctx, chain.ucan.capabilities, i))
  }

  function Positions(n: nat): (r: set<nat>)
    ensures forall i: nat :: i in r <==> i < n
  {
    if n == 0 then {} else Positions(n - 1) + {n - 1}
  }

  /** The proofs that a token's capabilities redelegate. */
  method Redelegations(ctx: Context, capabilities: seq<string>, n: nat) returns (r: Result<set<nat>>)
    ensures r.Ok? <==> SelectsWithin(ctx, capabilities, n)
    ensures r.Ok? ==> forall i: nat :: i in r.value <==> i < n && Redelegates(ctx, capabilities, i)
    ensures r.Err? ==> r.error == NoSuchProof
  {
    var redelegations: set<nat> := {};
    for k := 0 to |capabilities|
      invariant SelectsWithin(ctx, capabilities[..k], n)
      invariant forall i: nat :: i in redelegations <==> i < n && Redelegates(ctx, capabilities[..k], i)
    {
      assert capabilities[..k + 1] == capabilities[..k] + [capabilities[k]];
      match ctx.selects(capabilities[k]) {
        case Some(All) =>
          redelegations := redelegations + Positions(n);
        case Some(Index(i)) =>
          if i >= n {
            return Err(NoSuchProof);
          }
          redelegations := redelegations + {i};
        case _ =>
      }
    }
    assert capabilities[..|capabilities|] == capabilities;
    return Ok(redelegations);
  }

  /** `ProofChain::from_ucan`: it succeeds exactly on acceptable tokens. */
  method FromUcan(ctx: Context, ucan: Ucan) returns (r: Result<ProofChain>)
    ensures r.Ok? <==> Acceptable(ctx, ucan)
    ensures r.Ok? ==> r.value.ucan == ucan && Sound(ctx, r.value)
    ensures Validate(ctx, ucan).Err? ==> r == Err(Validate(ctx, ucan).error)
    decreases ucan, 1
  {
    var valid := Validate(ctx, ucan);
    if valid.Err? {
      return Err(valid.error);
    }
    var proofs: seq<ProofChain> := [];
    for i := 0 to |ucan.proofs|
      invariant |proofs| == i
      invariant forall j | 0 <= j < i :: AcceptableProof(ctx, ucan.proofs[j], ucan)
      invariant forall j | 0 <= j < i ::
                  Sound(ctx, proofs[j]) && ucan.proofs[j] == Token(proofs[j].ucan) && LinksTo(proofs[j].ucan, ucan)
    {
      var proof := FromProof(ctx, ucan.proofs[i], ucan);
      if proof.Err? {
        return Err(proof.error);
      }
      proofs := proofs + [proof.value];
    }
    var redelegations := Redelegations(ctx, ucan.capabilities, |proofs|);
    if redelegations.Err? {
      return Err(redelegations.error);
    }
    return Ok(ProofChain(ucan, proofs, redelegations.value));
  }

  /** One proof of a token: found, itself a chain, and linked to the token. */
  method FromProof(ctx: Context, proof: ProofRef, ucan: Ucan) returns (r: Result<ProofChain>)
    ensures r.Ok? <==> AcceptableProof(ctx, proof, ucan)
    ensures r.Ok? ==> Sound(ctx, r.value) && proof == Token(r.value.ucan) && LinksTo(r.value.ucan, ucan)
    ensures proof.Malformed? ==> r == Err(MalformedCid)
    ensures proof.Token? && proof !in ctx.held ==> r == Err(TokenNotFound)
    ensures proof.Token? && proof in ctx.held && Acceptable(ctx, proof.ucan) && !LinksTo(proof.ucan, ucan) ==>
              r == Err(if proof.ucan.audience != ucan.issuer then AudienceMismatch else LifetimeExceeded)
    decreases proof, 0
  {
    if proof.Malformed? {
      return Err(MalformedCid);
    }
    if proof !in ctx.held {
      return Err(TokenNotFound);
    }
    var chain := FromUcan(ctx, proof.ucan);
    if chain.Err? {
      return chain;
    }
    var linked := ValidateLink(chain.value.ucan, ucan);
    if linked.Err? {
      return Err(linked.error);
    }
    return chain;
  }

  // ----- Lifetimes -----

  /** The ancestor at the end of a path of proof positions. */
  ghost predicate AncestorAt(chain: ProofChain, path: seq<nat>, ancestor: ProofChain)
    decreases |path|
  {
    if path == [] then ancestor == chain
    else path[0] < |chain.proofs| && AncestorAt(chain.proofs[path[0]], path[1..], ancestor)
  }

  /** In an accepted chain the lifetime of every ancestor, at any depth, encloses the root's:
      whenever the root is active, so is every ancestor. */
  lemma {:induction false} AncestorsEnclose(ctx: Context, chain: ProofChain, path: seq<nat>, ancestor: ProofChain)
    requires Sound(ctx, chain) && AncestorAt(chain, path, ancestor)
    ensures Sound(ctx, ancestor) && Encompasses(ancestor.ucan, chain.ucan)
    ensures ActiveWhenever(ancestor.ucan, chain.ucan)
    decreases |path|
  {
    if path != [] {
      assert LinksTo(chain.proofs[path[0]].ucan, chain.ucan);
      AncestorsEnclose(ctx, chain.proofs[path[0]], path[1..], ancestor);
    }
    EncompassesIff(ancestor.ucan, chain.ucan, 0);
  }

  /** Authority passes from hand to hand: every proof is addressed to the issuer it serves. */
  lemma {:induction false} LinksAlongPath(ctx: Context, chain: ProofChain, path: seq<nat>, child: ProofChain, i: nat)
    requires Sound(ctx, chain) && AncestorAt(chain, path, child) && i < |child.proofs|
    ensures child.proofs[i].ucan.audience == child.ucan.issuer
    ensures Encompasses(child.proofs[i].ucan, child.ucan)
  {
    AncestorsEnclose(ctx, chain, path, child);
    assert LinksTo(child.proofs[i].ucan, child.ucan);
  }

  // ----- The two clocks of validation -----

  /** A token not yet active at the time asked for is accepted when the clock is past its
      start. */
  lemma AcceptedBeforeItsStart(ctx: Context, ucan: Ucan)
    requires ucan == Ucan("issuer", "audience", Some(5), None, [], [])
    requires ctx.nowTime == Some(3) && ctx.clock == 10 && ctx.signed(ucan)
    ensures Acceptable(ctx, ucan) && !ActiveAt(ucan, Now(ctx))
  {
    assert Validate(ctx, ucan).Ok?;
  }

  /** A token asked for at its own start, as a signature is verified, is refused exactly while
      the clock has not reached that start. */
  lemma AskedAtItsStart(ctx: Context, ucan: Ucan)
    requires ucan.notBefore.Some? && ctx.nowTime == ucan.notBefore
    requires ctx.signed(ucan) && ActiveAt(ucan, ucan.notBefore.value)
    ensures Validate(ctx, ucan) == if ctx.clock < ucan.notBefore.value then Err(TooEarly) else Ok(())
  {}

  /** Both clocks place the start of the token on the same side. */
  predicate StartAgrees(ctx: Context, ucan: Ucan)
  {
    ucan.notBefore.None? || (ucan.notBefore.value <= Now(ctx) <==> ucan.notBefore.value <= ctx.clock)
  }

  /** Validation accepts exactly the signed tokens that are active at the time asked for,
      exactly when both clocks agree on the start, save for tokens that are refused anyway. */
  lemma ValidateIff(ctx: Context, ucan: Ucan)
    ensures (Validate(ctx, ucan).Ok? <==> ctx.signed(ucan) && ActiveAt(ucan, Now(ctx))) <==>
            (!ctx.signed(ucan) || (ucan.expires.Some? && ucan.expires.value < Now(ctx)) || StartAgrees(ctx, ucan))
  {}

  /** Every token of the chain is active. */
  ghost predicate ActiveThroughout(chain: ProofChain, t: Time)
  {
    forall path, ancestor | AncestorAt(chain, path, ancestor) :: ActiveAt(ancestor.ucan, t)
  }

  /** Every token of an accepted chain is active at the time asked for exactly when the root
      has started by then. */
  lemma ChainActiveIff(ctx: Context, chain: ProofChain)
    requires Sound(ctx, chain)
    ensures ActiveThroughout(chain, Now(ctx)) <==> chain.ucan.notBefore.None? || chain.ucan.notBefore.value <= Now(ctx)
  {
    var here: seq<nat> := [];
    assert AncestorAt(chain, here, chain);
    if ActiveAt(chain.ucan, Now(ctx)) {
      forall path, ancestor | AncestorAt(chain, path, ancestor)
        ensures ActiveAt(ancestor.ucan, Now(ctx))
      {
        AncestorsEnclose(ctx, chain, path, ancestor);
      }
    }
  }
}
