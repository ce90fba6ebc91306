/** Memos: headers around a body, linked to a parent revision. */
module Memos {
  import opened Wrappers
  import opened Blocks
  import opened HeaderEdits

  const U32_LIMIT: nat := 0x1_0000_0000

  /** `u32::to_string` */
  function Decimal(n: nat): string
  {
    if n < 10 then [DigitChar(n)] else Decimal(n / 10) + [DigitChar(n % 10)]
  }

  function DigitChar(n: nat): char
    requires n < 10
  {
    ('0' as int + n) as char
  }

  function DigitsValue(s: string): Option<nat>
  {
    if s == "" then Some(0)
    else
      var c := s[|s| - 1];
      match DigitsValue(s[..|s| - 1])
      case None => None
      case Some(v) => if '0' <= c <= '9' then Some(10 * v + (c as int - '0' as int)) else None
  }

  /** `u32::from_str` */
  function ParseU32(s: string): Option<nat>
  {
    var digits := if s != "" && s[0] == '+' then s[1..] else s;
    if digits == "" then None
    else
      match DigitsValue(digits)
      case Some(v) => if v < U32_LIMIT then Some(v) else None
      case None => None
  }

  lemma {:induction false} DecimalParses(n: nat)
    ensures Decimal(n) != "" && Decimal(n)[0] != '+' && DigitsValue(Decimal(n)) == Some(n)
  {
    if n < 10 {
      assert Decimal(n)[..0] == "";
    } else {
      DecimalParses(n / 10);
      assert Decimal(n)[..|Decimal(n)| - 1] == Decimal(n / 10);
    }
  }

  // ----- Numerals -----

  predicate IsDigitChar(c: char)
  {
    '0' <= c <= '9'
  }

  predicate IsNumeral(s: string)
  {
    s != "" && forall i | 0 <= i < |s| :: IsDigitChar(s[i])
  }

  function Pow10(n: nat): nat
  {
    if n == 0 then 1 else 10 * Pow10(n - 1)
  }

  /** The value of the last `n` digits, each times the power of ten of its place. */
  function PlaceValue(s: string, n: nat): nat
    requires n <= |s| && forall i | 0 <= i < |s| :: IsDigitChar(s[i])
  {
    if n == 0 then 0
    else PlaceValue(s, n - 1) + (s[|s| - n] as int - '0' as int) * Pow10(n - 1)
  }

  /** One more digit at the end moves the others up by one place. */
  lemma {:induction false} PlaceValueShift(s: string, n: nat)
    requires s != "" && n < |s| && forall i | 0 <= i < |s| :: IsDigitChar(s[i])
    ensures PlaceValue(s, n + 1) == 10 * PlaceValue(s[..|s| - 1], n) + (s[|s| - 1] as int - '0' as int)
    decreases n
  {
    if n == 0 {
      assert Pow10(0) == 1 && PlaceValue(s, 0) == 0;
    } else {
      PlaceValueShift(s, n - 1);
      var init := s[..|s| - 1];
      var d := s[|s| - 1 - n] as int - '0' as int;
      assert init[|init| - n] == s[|s| - 1 - n];
      TenTimes(d, Pow10(n - 1));
    }
  }

  lemma TenTimes(d: nat, p: nat)
    ensures d * (10 * p) == 10 * (d * p)
  {}

  /** Reading digits succeeds exactly on digits and gives their decimal value. */
  lemma {:induction false} DigitsValueIs(s: string)
    ensures DigitsValue(s).Some? <==> forall i | 0 <= i < |s| :: IsDigitChar(s[i])
    ensures DigitsValue(s).Some? ==> DigitsValue(s).value == PlaceValue(s, |s|)
    decreases |s|
  {
    if s != "" {
      var init := s[..|s| - 1];
      DigitsValueIs(init);
      assert forall i | 0 <= i < |init| :: init[i] == s[i];
      if DigitsValue(s).Some? {
        PlaceValueShift(s, |s| - 1);
      }
    }
  }

  /** Numbers are written in digits, without leading zeros. */
  lemma {:induction false} DecimalIsNumeral(n: nat)
    ensures IsNumeral(Decimal(n)) && (n > 0 ==> Decimal(n)[0] != '0')
  {
    if n >= 10 {
      DecimalIsNumeral(n / 10);
    }
  }

  /** The text of an order, without a plus sign. */
  function Unsigned(text: string): string
  {
    if text != "" && text[0] == '+' then text[1..] else text
  }

  /** The text is the numeral of a 32-bit number. */
  ghost predicate IsU32(text: string)
  {
    IsNumeral(Unsigned(text)) && PlaceValue(Unsigned(text), |Unsigned(text)|) < U32_LIMIT
  }

  /** The order of a memo is the number in its first order header, and 0 when there is no such
      header or it holds no 32-bit number. */
  lemma OrderIs(headers: Headers)
    ensures var texts := ValuesOf(headers, LamportOrder);
      OrderOf(headers) ==
      if texts != [] && IsU32(texts[0]) then PlaceValue(Unsigned(texts[0]), |Unsigned(texts[0])|) else 0
  {
    var texts := ValuesOf(headers, LamportOrder);
    if texts != [] {
      DigitsValueIs(Unsigned(texts[0]));
    }
  }

  // ----- Orders -----

  /** The order after another, which wraps at 2^32. */
  function NextOrder(order: nat): (next: nat)
    ensures order < U32_LIMIT ==> next < U32_LIMIT
  {
    if order + 1 == U32_LIMIT then 0 else order + 1
  }

  function OrderOf(headers: Headers): (order: nat)
    ensures order < U32_LIMIT
  {
    OrderIn(FirstHeader(headers, LamportOrder))
  }

  function OrderIn(value: Option<string>): (order: nat)
    ensures order < U32_LIMIT
  {
    match value
    case None => 0
    case Some(text) => match ParseU32(text) case Some(v) => v case None => 0
  }

  lemma OrderWritten(n: nat)
    requires n < U32_LIMIT
    ensures OrderIn(Some(Decimal(n))) == n
  {
    DecimalParses(n);
  }

  // ----- Branching and signing headers -----

  /** The headers of a memo branched from one with the given headers. */
  function BranchedHeaders(headers: Headers): Headers
  {
    var unsigned := Others(Others(headers, Signature), Proof);
    Replaced(unsigned, [(LamportOrder, Decimal(NextOrder(OrderOf(unsigned))))])
  }

  method Branch(headers: Headers) returns (out: Headers)
    ensures out == BranchedHeaders(headers)
  {
    out := RemoveNamed(headers, Signature);
    out := RemoveNamed(out, Proof);
    out := Replace(out, [(LamportOrder, Decimal(NextOrder(OrderOf(out))))]);
  }

  lemma BranchedIs(headers: Headers)
    ensures BranchedHeaders(headers) ==
            Replaced(Others(Others(headers, Signature), Proof), [(LamportOrder, Decimal(NextOrder(OrderOf(headers))))])
  {
    UnsignedValues(headers, LamportOrder);
  }

  /** A branched memo has no signature or proof and the next Lamport order, which wraps at
      2^32; every other header is as before. */
  lemma BranchedValues(headers: Headers, name: HeaderName)
    ensures ValuesOf(BranchedHeaders(headers), name) ==
            if name == Signature || name == Proof then []
            else if name == LamportOrder then [Decimal(NextOrder(OrderOf(headers)))]
            else ValuesOf(headers, name)
  {
    BranchedIs(headers);
    OrderedValues(Others(Others(headers, Signature), Proof), Decimal(NextOrder(OrderOf(headers))), name);
    UnsignedValues(headers, name);
  }

  lemma OrderedValues(headers: Headers, order: string, name: HeaderName)
    ensures ValuesOf(Replaced(headers, [(LamportOrder, order)]), name) ==
            if name == LamportOrder then [order] else ValuesOf(headers, name)
  {
    ReplacedValues(headers, [(LamportOrder, order)], name);
    OneName((LamportOrder, order));
    OneValue((LamportOrder, order), name);
  }

  lemma UnsignedValues(headers: Headers, name: HeaderName)
    ensures ValuesOf(Others(Others(headers, Signature), Proof), name) ==
            if name == Signature || name == Proof then [] else ValuesOf(headers, name)
  {
    RemovedValues(headers, Signature, name);
    RemovedValues(Others(headers, Signature), Proof, name);
  }

  lemma OneName(h: (HeaderName, string))
    ensures NamesOf([h]) == {h.0}
  {
    assert [h][0].0 in NamesOf([h]);
  }

  lemma BranchedOrder(headers: Headers)
    ensures OrderOf(BranchedHeaders(headers)) == NextOrder(OrderOf(headers))
  {
    BranchedValues(headers, LamportOrder);
    OrderWritten(NextOrder(OrderOf(headers)));
  }

  /** The headers after signing. */
  function SignedHeaders(headers: Headers, did: string, signature: string, proof: Option<string>): Headers
  {
    var signed := ReplacedFirst(headers, Signature, signature);
    var proved := if proof.Some? then ReplacedFirst(signed, Proof, proof.value) else Others(signed, Proof);
    ReplacedFirst(proved, Author, did)
  }

  method SignHeaders(headers: Headers, did: string, signature: string, proof: Option<string>) returns (out: Headers)
    ensures out == SignedHeaders(headers, did, signature, proof)
  {
    out := ReplaceFirst(headers, Signature, signature);
    if proof.Some? {
      out := ReplaceFirst(out, Proof, proof.value);
    } else {
      out := RemoveNamed(out, Proof);
    }
    out := ReplaceFirst(out, Author, did);
  }

  /** Author, signature and proof are the signer's; every other header is as before. */
  lemma SignedValues(headers: Headers, did: string, signature: string, proof: Option<string>, name: HeaderName)
    ensures ValuesOf(SignedHeaders(headers, did, signature, proof), name) ==
            if name == Author then [did]
            else if name == Signature then [signature]
            else if name == Proof then (if proof.Some? then [proof.value] else [])
            else ValuesOf(headers, name)
  {
    var signed := ReplacedFirst(headers, Signature, signature);
    var proved := if proof.Some? then ReplacedFirst(signed, Proof, proof.value) else Others(signed, Proof);
    ReplacedFirstValues(headers, Signature, signature, name);
    if proof.Some? {
      ReplacedFirstValues(signed, Proof, proof.value, name);
    } else {
      RemovedValues(signed, Proof, name);
    }
    ReplacedFirstValues(proved, Author, did, name);
  }

  /** Signing material: the signer's DID, its signature over a body, and an optional
      proof token over it. */
  datatype Credential = Credential(did: string, sign: Cid -> string, proof: Option<Cid -> string>)

  function SignedBy(headers: Headers, credential: Credential, body: Cid): Headers
  {
    SignedHeaders(headers, credential.did, credential.sign(body),
                  if credential.proof.Some? then Some(credential.proof.value(body)) else None)
  }

  /** What a signer's headers hold: their DID, their signature over the body, and their proof
      over it exactly when they have one. */
  lemma SignerValues(headers: Headers, credential: Credential, body: Cid)
    ensures SignerHeaders(SignedBy(headers, credential, body), credential, body)
    ensures forall name | name != Author && name != Signature && name != Proof ::
              ValuesOf(SignedBy(headers, credential, body), name) == ValuesOf(headers, name)
  {
    var proof := if credential.proof.Some? then Some(credential.proof.value(body)) else None;
    forall name
      ensures ValuesOf(SignedBy(headers, credential, body), name) ==
              if name == Author then [credential.did]
              else if name == Signature then [credential.sign(body)]
              else if name == Proof then (if proof.Some? then [proof.value] else [])
              else ValuesOf(headers, name)
    {
      SignedValues(headers, credential.did, credential.sign(body), proof, name);
    }
  }

  predicate SignerHeaders(headers: Headers, credential: Credential, body: Cid)
  {
    && ValuesOf(headers, Author) == [credential.did]
    && ValuesOf(headers, Signature) == [credential.sign(body)]
    && ValuesOf(headers, Proof) == if credential.proof.Some? then [credential.proof.value(body)] else []
  }

  lemma SignedAuthor(headers: Headers, credential: Credential, body: Cid)
    ensures FirstHeader(SignedBy(headers, credential, body), Author) == Some(credential.did)
    ensures OrderOf(SignedBy(headers, credential, body)) == OrderOf(headers)
  {
    var proof := if credential.proof.Some? then Some(credential.proof.value(body)) else None;
    SignedValues(headers, credential.did, credential.sign(body), proof, Author);
    SignedValues(headers, credential.did, credential.sign(body), proof, LamportOrder);
  }

  /** Branching and then signing advances the order by one. */
  lemma SignedBranchOrder(headers: Headers, credential: Credential, body: Cid)
    ensures OrderOf(SignedBy(BranchedHeaders(headers), credential, body)) == NextOrder(OrderOf(headers))
  {
    BranchedOrder(headers);
    SignedAuthor(BranchedHeaders(headers), credential, body);
  }

  // ----- The memo -----

  class Memo {
    var parent: Option<Cid>
    var headers: Headers
    var body: Cid

    constructor (parent: Option<Cid>, headers: Headers, body: Cid)
      ensures this.parent == parent && this.headers == headers && this.body == body
    {
      this.parent := parent;
      this.headers := headers;
      this.body := body;
    }

    function Block(): Block
      reads this
    {
      MemoBlock(parent, headers, body)
    }

    /** `MemoIpld::branch_from`: a copy with branched headers whose parent is the given
        revision. */
    static method BranchFrom(cid: Cid, store: BlockStore) returns (r: Result<Memo>)
      ensures r.Ok? <==> cid in store.held && cid.block.MemoBlock?
      ensures r.Err? ==> r.error == if cid in store.held then UnexpectedBlock else BlockNotFound
      ensures r.Ok? ==>
                && fresh(r.value) && r.value.parent == Some(cid) && r.value.body == cid.block.body
                && r.value.headers == BranchedHeaders(cid.block.headers)
    {
      var loaded := store.Load(cid);
      if loaded.Err? {
        return Err(loaded.error);
      }
      if !loaded.value.MemoBlock? {
        return Err(UnexpectedBlock);
      }
      var headers := Branch(loaded.value.headers);
      var memo := new Memo(Some(cid), headers, loaded.value.body);
      return Ok(memo);
    }

    /** `MemoIpld::sign`. */
    method Sign(credential: Credential)
      modifies this
      ensures parent == old(parent) && body == old(body) && headers == SignedBy(old(headers), credential, body)
      ensures SignerHeaders(headers, credential, body)
    {
      SignerValues(headers, credential, body);
      headers := SignHeaders(headers, credential.did, credential.sign(body),
                             if credential.proof.Some? then Some(credential.proof.value(body)) else None);
    }
  }
}
