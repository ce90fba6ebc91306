/** Lamport orders along a lineage. */
module LamportOrders {
  import opened Wrappers
  import opened Blocks
  import opened HeaderEdits
  import opened Memos
  import opened Timelines

  type Order = n: nat | n < U32_LIMIT

  function OrderAt(cid: Cid): Order
  {
    if cid.block.MemoBlock? then OrderOf(cid.block.headers) else 0
  }

  /** A signed revision on `base`: its headers are those of `base`, branched and signed. */
  ghost predicate SignedOn(base: Cid, credential: Credential, cid: Cid)
  {
    && base.block.MemoBlock? && cid.block.MemoBlock? && cid.block.parent == Some(base)
    && cid.block.headers == SignedBy(BranchedHeaders(base.block.headers), credential, cid.block.body)
  }

  /** Signature and proof of a signed revision are the signer's over its body, and all but the
      signer's headers and the order are those of the base. */
  lemma SignedOnHeaders(base: Cid, credential: Credential, cid: Cid)
    requires SignedOn(base, credential, cid)
    ensures SignerHeaders(cid.block.headers, credential, cid.block.body)
    ensures forall text :: ValuesOf(cid.block.headers, Other(text)) == ValuesOf(base.block.headers, Other(text))
  {
    SignerValues(BranchedHeaders(base.block.headers), credential, cid.block.body);
    forall text
      ensures ValuesOf(cid.block.headers, Other(text)) == ValuesOf(base.block.headers, Other(text))
    {
      BranchedValues(base.block.headers, Other(text));
    }
  }

  lemma SignedOnOrder(base: Cid, credential: Credential, cid: Cid)
    requires SignedOn(base, credential, cid)
    ensures OrderAt(cid) == NextOrder(OrderAt(base))
  {
    SignedBranchOrder(base.block.headers, credential, cid.block.body);
  }

  // ----- Numbered lineages -----

  /** Each revision has the order after its parent's. */
  ghost predicate NumberedBy(order: Cid -> Order, cid: Cid)
  {
    && cid.block.MemoBlock?
    && (cid.block.parent.Some? ==>
          NumberedBy(order, cid.block.parent.value) && order(cid) == NextOrder(order(cid.block.parent.value)))
  }

  ghost predicate Numbered(cid: Cid)
  {
    NumberedBy(OrderAt, cid)
  }

  /** A signed revision is numbered when its base is. */
  lemma SignedOnNumbered(base: Cid, credential: Credential, cid: Cid)
    requires SignedOn(base, credential, cid)
    ensures Numbered(base) ==> Numbered(cid)
  {
    SignedOnOrder(base, credential, cid);
  }

  /** `n` steps after `order`. */
  function Advanced(order: Order, n: nat): Order
  {
    if n == 0 then order else NextOrder(Advanced(order, n - 1))
  }

  lemma {:induction false} AdvancedIsModular(order: Order, n: nat)
    ensures Advanced(order, n) == (order + n) % U32_LIMIT
  {
    if n > 0 {
      AdvancedIsModular(order, n - 1);
      NextIsModular(order + n - 1);
    }
  }

  lemma NextIsModular(n: nat)
    ensures NextOrder(n % U32_LIMIT) == (n + 1) % U32_LIMIT
  {}

  lemma {:induction false} NumberedAncestor(order: Cid -> Order, tip: Cid, c: Cid)
    requires NumberedBy(order, tip) && IsLineage(tip) && c in Ancestry(tip)
    ensures NumberedBy(order, c)
  {
    if c != tip {
      NumberedAncestor(order, tip.block.parent.value, c);
    }
  }

  lemma {:induction false} OrderAdvances(order: Cid -> Order, tip: Cid, c: Cid)
    requires NumberedBy(order, tip) && IsLineage(tip) && c in Ancestry(tip)
    ensures IsLineage(c) && |Ancestry(c)| <= |Ancestry(tip)|
    ensures order(tip) == Advanced(order(c), |Ancestry(tip)| - |Ancestry(c)|)
  {
    AncestorsAreOlder(tip, c);
    if c != tip {
      OrderAdvances(order, tip.block.parent.value, c);
    }
  }

  /** The order counts the revisions since any ancestor, modulo 2^32. */
  lemma OrderCounts(tip: Cid, c: Cid)
    requires Numbered(tip) && IsLineage(tip) && c in Ancestry(tip)
    ensures IsLineage(c) && |Ancestry(c)| <= |Ancestry(tip)|
    ensures OrderAt(tip) == (OrderAt(c) + (|Ancestry(tip)| - |Ancestry(c)|)) % U32_LIMIT
  {
    OrderCountsBy(OrderAt, tip, c);
  }

  lemma OrderCountsBy(order: Cid -> Order, tip: Cid, c: Cid)
    requires NumberedBy(order, tip) && IsLineage(tip) && c in Ancestry(tip)
    ensures IsLineage(c) && |Ancestry(c)| <= |Ancestry(tip)|
    ensures order(tip) == (order(c) + (|Ancestry(tip)| - |Ancestry(c)|)) % U32_LIMIT
  {
    OrderAdvances(order, tip, c);
    AdvancedIsModular(order(c), |Ancestry(tip)| - |Ancestry(c)|);
  }

  lemma ReplacementOrder(order: Cid -> Order, tip: Cid, until: Cid, cid: Cid)
    requires NumberedBy(order, tip) && IsLineage(tip) && until in Ancestry(tip)
    requires until.block.MemoBlock? && until.block.parent.Some?
    requires order(cid) == NextOrder(order(until.block.parent.value))
    ensures order(cid) == order(until) && IsLineage(until) && |Ancestry(until)| <= |Ancestry(tip)|
    ensures order(cid) == order(tip) <==> (|Ancestry(tip)| - |Ancestry(until)|) % U32_LIMIT == 0
  {
    NumberedAncestor(order, tip, until);
    OrderAdvances(order, tip, until);
    AdvancedToItself(order(until), |Ancestry(tip)| - |Ancestry(until)|);
  }

  lemma AdvancedToItself(order: Order, n: nat)
    ensures Advanced(order, n) == order <==> n % U32_LIMIT == 0
  {
    AdvancedIsModular(order, n);
    SumRemainder(order, n / U32_LIMIT, n % U32_LIMIT);
  }

  lemma SumRemainder(order: Order, rounds: nat, rest: nat)
    requires rest < U32_LIMIT
    ensures (order + (rounds * U32_LIMIT + rest)) % U32_LIMIT == order <==> rest == 0
  {
    var carry := if order + rest < U32_LIMIT then 0 else 1;
    var left := order + rest - carry * U32_LIMIT;
    RemainderIs(rounds + carry, left);
    assert order + (rounds * U32_LIMIT + rest) == (rounds + carry) * U32_LIMIT + left;
  }

  lemma RemainderIs(rounds: nat, rest: nat)
    requires rest < U32_LIMIT
    ensures (rounds * U32_LIMIT + rest) % U32_LIMIT == rest
  {}

  /** One signed revision in the place of the range from `until` to the tip has the order of
      `until`. It is the tip's only when their distance is a multiple of 2^32. */
  lemma CompactedOrder(tip: Cid, until: Cid, credential: Credential, cid: Cid)
    requires Numbered(tip) && IsLineage(tip) && until in Ancestry(tip)
    requires until.block.MemoBlock? && until.block.parent.Some? && SignedOn(until.block.parent.value, credential, cid)
    ensures OrderAt(cid) == OrderAt(until) && IsLineage(until) && |Ancestry(until)| <= |Ancestry(tip)|
    ensures OrderAt(cid) == OrderAt(tip) <==> (|Ancestry(tip)| - |Ancestry(until)|) % U32_LIMIT == 0
  {
    SignedOnOrder(until.block.parent.value, credential, cid);
    ReplacementOrder(OrderAt, tip, until, cid);
  }

  // ----- The first revisions of a sphere -----

  /** The content type and version of a sphere. */
  const FIRST_HEADERS: Headers := [(Other("content-type"), "noo/sphere"), (Other("version"), "0")]

  /** Content type and version of a sphere, and the signature of its own key, without proof. */
  predicate OwnHeaders(headers: Headers, sphereKey: Credential, body: Cid)
  {
    && ValuesOf(headers, Author) == [sphereKey.did]
    && ValuesOf(headers, Signature) == [sphereKey.sign(body)]
    && ValuesOf(headers, Proof) == []
    && ValuesOf(headers, Other("content-type")) == ["noo/sphere"]
    && ValuesOf(headers, Other("version")) == ["0"]
  }

  lemma FirstValues(name: HeaderName)
    ensures ValuesOf(FIRST_HEADERS, name) ==
            if name == Other("content-type") then ["noo/sphere"] else if name == Other("version") then ["0"] else []
  {
    var contentType, version := FIRST_HEADERS[0], FIRST_HEADERS[1];
    assert FIRST_HEADERS == [contentType] + [version];
    ValuesAppend([contentType], [version], name);
    OneValue(contentType, name);
    OneValue(version, name);
    assert |"content-type"| != |"version"|;
  }

  lemma FirstHeaders(sphereKey: Credential, body: Cid)
    requires sphereKey.proof.None?
    ensures OwnHeaders(SignedBy(FIRST_HEADERS, sphereKey, body), sphereKey, body)
  {
    SignerValues(FIRST_HEADERS, sphereKey, body);
    FirstValues(Other("content-type"));
    FirstValues(Other("version"));
  }

  /** Without an order header the order is 0. */
  lemma FirstOrder(sphereKey: Credential, body: Cid)
    ensures OrderOf(SignedBy(FIRST_HEADERS, sphereKey, body)) == 0
  {
    SignerValues(FIRST_HEADERS, sphereKey, body);
    FirstValues(LamportOrder);
    OrderIs(SignedBy(FIRST_HEADERS, sphereKey, body));
  }

  lemma KeptHeaders(before: Headers, after: Headers, sphereKey: Credential, body: Cid, body': Cid)
    requires OwnHeaders(before, sphereKey, body) && sphereKey.proof.None? && SignerHeaders(after, sphereKey, body')
    requires forall text :: ValuesOf(after, Other(text)) == ValuesOf(before, Other(text))
    ensures OwnHeaders(after, sphereKey, body')
  {
    assert ValuesOf(after, Other("content-type")) == ValuesOf(before, Other("content-type"));
    assert ValuesOf(after, Other("version")) == ValuesOf(before, Other("version"));
  }

  /** A revision on the first one, signed with the same key, announces the same sphere. */
  lemma SecondHeaders(genesis: Cid, sphereKey: Credential, cid: Cid)
    requires SignedOn(genesis, sphereKey, cid) && sphereKey.proof.None?
    requires OwnHeaders(genesis.block.headers, sphereKey, genesis.block.body)
    ensures OwnHeaders(cid.block.headers, sphereKey, cid.block.body)
  {
    SignedOnHeaders(genesis, sphereKey, cid);
    KeptHeaders(genesis.block.headers, cid.block.headers, sphereKey, genesis.block.body, cid.block.body);
  }
}
