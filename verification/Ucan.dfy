/** UCAN tokens and their lifetimes. */
module Ucans {
  import opened Wrappers

  const TIME_LIMIT: nat := 0x1_0000_0000_0000_0000

  /** Seconds in a u64. */
  type Time = t: nat | t < TIME_LIMIT

  /** A reference to a proof: a text that is no CID, or the CID of a token. As with blocks, a
      CID is the token it names. */
  datatype ProofRef = Malformed | Token(ucan: Ucan)

  datatype Ucan = Ucan(issuer: string, audience: string, notBefore: Option<Time>, expires: Option<Time>,
                       proofs: seq<ProofRef>, capabilities: seq<string>)

  predicate BeginsBefore(a: Ucan, b: Ucan)
  {
    match (a.notBefore, b.notBefore)
    case (Some(x), Some(y)) => x <= y
    case (Some(_), None) => false
    case (None, _) => true
  }

  predicate EndsAfter(a: Ucan, b: Ucan)
  {
    match (a.expires, b.expires)
    case (Some(x), Some(y)) => x >= y
    case (Some(_), None) => false
    case (None, _) => true
  }

  /** `Ucan::lifetime_encompasses`. */
  predicate Encompasses(a: Ucan, b: Ucan)
  {
    BeginsBefore(a, b) && EndsAfter(a, b)
  }

  /** Neither too early nor expired. */
  predicate ActiveAt(u: Ucan, t: Time)
  {
    (u.notBefore.Some? ==> u.notBefore.value <= t) && (u.expires.Some? ==> t <= u.expires.value)
  }

  ghost predicate ActiveWhenever(a: Ucan, b: Ucan)
  {
    forall t: Time :: ActiveAt(b, t) ==> ActiveAt(a, t)
  }

  /** A bound that bounds nothing, against no bound at all. */
  predicate IdleBound(a: Ucan, b: Ucan)
  {
    (a.notBefore == Some(0) && b.notBefore == None) || (a.expires == Some(TIME_LIMIT - 1) && b.expires == None)
  }

  /** The comparison of bounds is sound for lifetimes, and for a token that is active at some
      time it is exact up to bounds at the ends of the time line. */
  lemma EncompassesIff(a: Ucan, b: Ucan, t: Time)
    ensures Encompasses(a, b) ==> ActiveWhenever(a, b)
    ensures ActiveAt(b, t) ==> (Encompasses(a, b) <==> ActiveWhenever(a, b) && !IdleBound(a, b))
  {
    if ActiveAt(b, t) && ActiveWhenever(a, b) && !IdleBound(a, b) {
      var first: Time := if b.notBefore.Some? then b.notBefore.value else 0;
      var last: Time := if b.expires.Some? then b.expires.value else TIME_LIMIT - 1;
      assert ActiveAt(b, first) && ActiveAt(b, last);
      assert ActiveAt(a, first) && ActiveAt(a, last);
    }
  }
}
