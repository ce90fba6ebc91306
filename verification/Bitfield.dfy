/** The 256-bit occupancy bitfield of a HAMT node, stored as four 64-bit words.
    The word-level operations are related to one abstract view: the bit at each
    position (`Has`) and the number of set bits below a position (`Rank`). */
module Bitfields {
  import opened Words

  type U64 = v: nat | v < Pow2(64)

  type FourWords = s: seq<U64> | |s| == 4 witness [0, 0, 0, 0]

  datatype Bitfield = Bitfield(words: FourWords)

  const U64_MAX: U64 := Pow2(64) - 1

  function Zero(): Bitfield
  {
    Bitfield([0, 0, 0, 0])
  }

  /** Mentioned only where the words behind a position are needed: see `HasBit`. */
  predicate Inspected(i: nat)
  {
    true
  }

  /** The bit at position `i` is set. */
  ghost predicate Has(b: Bitfield, i: nat)
    requires i < 256
  {
    forall j {:trigger Inspected(j)} | j == i && Inspected(j) :: Bit(b.words[i / 64], i % 64)
  }

  lemma HasBit(b: Bitfield, i: nat)
    requires i < 256
    ensures Has(b, i) <==> Bit(b.words[i / 64], i % 64)
  {
    assert Inspected(i);
  }

  predicate TestBit(b: Bitfield, idx: nat): (r: bool)
    requires idx < 256
    ensures r <==> Has(b, idx)
  {
    HasBit(b, idx);
    AndPow(b.words[idx / 64], idx % 64);
    And(b.words[idx / 64], Pow2(idx % 64)) != 0
  }

  lemma PowFits(i: nat)
    requires i < 64
    ensures Pow2(i) < Pow2(64)
  {
    AllButBit(64, i, 0);
  }

  /** `v | (1 << i)` */
  function WordSet(v: U64, i: nat): U64
    requires i < 64
  {
    PowFits(i);
    OrBound(v, Pow2(i), 64);
    Or(v, Pow2(i))
  }

  /** `v & (u64::MAX - (1 << i))` */
  function WordClear(v: U64, i: nat): U64
    requires i < 64
  {
    PowFits(i);
    AndBound(v, U64_MAX - Pow2(i));
    And(v, U64_MAX - Pow2(i))
  }

  function SetBit(b: Bitfield, idx: nat): (r: Bitfield)
    requires idx < 256
    ensures forall j: nat | j < 256 :: Has(r, j) <==> Has(b, j) || j == idx
  {
    var r := Bitfield(b.words[idx / 64 := WordSet(b.words[idx / 64], idx % 64)]);
    SetBitBits(b, idx, r);
    r
  }

  function ClearBit(b: Bitfield, idx: nat): (r: Bitfield)
    requires idx < 256
    ensures forall j: nat | j < 256 :: Has(r, j) <==> Has(b, j) && j != idx
  {
    var r := Bitfield(b.words[idx / 64 := WordClear(b.words[idx / 64], idx % 64)]);
    ClearBitBits(b, idx, r);
    r
  }

  /** `Bitfield::and` */
  function Intersect(a: Bitfield, b: Bitfield): (r: Bitfield)
    ensures forall j: nat | j < 256 :: Has(r, j) <==> Has(a, j) && Has(b, j)
  {
    forall i: nat | i < 4 { AndBound(a.words[i], b.words[i]); }
    var r := Bitfield([And(a.words[0], b.words[0]), And(a.words[1], b.words[1]),
                       And(a.words[2], b.words[2]), And(a.words[3], b.words[3])]);
    IntersectBits(a, b, r);
    r
  }

  /** The free function `set_bits_leq`: the mask is built as a u128 and the
      result is cast back to u64. */
  function WordSetLeq(v: U64, bit: nat): U64
    requires bit < 64
  {
    Truncated(Or(v, Pow2(1 + bit) - 1))
  }

  /** `x as u64` */
  function Truncated(x: nat): U64
  {
    x % Pow2(64)
  }

  function SetBitsLeq(b: Bitfield, bit: nat): (r: Bitfield)
    requires bit < 256
    ensures forall j: nat | j < 256 :: Has(r, j) <==> Has(b, j) || j <= bit
  {
    var w := b.words;
    var r :=
      if bit < 64 then
        Bitfield([WordSetLeq(w[0], bit), w[1], w[2], w[3]])
      else if bit < 128 then
        Bitfield([U64_MAX, WordSetLeq(w[1], bit - 64), w[2], w[3]])
      else if bit < 192 then
        Bitfield([U64_MAX, U64_MAX, WordSetLeq(w[2], bit - 128), w[3]])
      else
        Bitfield([U64_MAX, U64_MAX, U64_MAX, WordSetLeq(w[3], bit - 192)]);
    SetBitsLeqBits(b, bit, r);
    r
  }

  function SetBitsLe(b: Bitfield, bit: nat): (r: Bitfield)
    requires bit < 256
    ensures forall j: nat | j < 256 :: Has(r, j) <==> Has(b, j) || j < bit
  {
    if bit == 0 then b else SetBitsLeq(b, bit - 1)
  }

  function CountOnes(b: Bitfield): nat
  {
    Ones(b.words[0], 64) + Ones(b.words[1], 64) + Ones(b.words[2], 64) + Ones(b.words[3], 64)
  }

  /** The abstract rank: how many bits are set strictly below `n`. */
  ghost function Rank(b: Bitfield, n: nat): nat
    requires n <= 256
  {
    if n == 0 then 0 else Rank(b, n - 1) + if Has(b, n - 1) then 1 else 0
  }

  /** `Node::index_for_bit_pos`: the slot of bit `bp` in the dense pointer vector.
      The source's runtime assertion on the mask never fails. */
  method IndexForBitPos(b: Bitfield, bp: nat) returns (i: nat)
    requires bp < 256
    ensures i == Rank(b, bp)
  {
    var mask := SetBitsLe(Zero(), bp);
    ZeroBits();
    RankOfPrefixMask(mask, bp, 256);
    CountOnesIsRank(mask);
    assert CountOnes(mask) == bp;
    var masked := Intersect(mask, b);
    RankOfMasked(masked, b, bp, 256);
    CountOnesIsRank(masked);
    i := CountOnes(masked);
  }

  // ----- The bits of each operation -----

  lemma WordSetBit(v: U64, i: nat, j: nat)
    requires i < 64 && j < 64
    ensures Bit(WordSet(v, i), j) <==> Bit(v, j) || j == i
  {
    OrBit(v, Pow2(i), j);
    PowBit(i, j);
  }

  lemma WordClearBit(v: U64, i: nat, j: nat)
    requires i < 64 && j < 64
    ensures Bit(WordClear(v, i), j) <==> Bit(v, j) && j != i
  {
    AllButBit(64, i, j);
    AndBit(v, U64_MAX - Pow2(i), j);
  }

  lemma SetBitBits(b: Bitfield, idx: nat, r: Bitfield)
    requires idx < 256 && r == Bitfield(b.words[idx / 64 := WordSet(b.words[idx / 64], idx % 64)])
    ensures forall j: nat | j < 256 :: Has(r, j) <==> Has(b, j) || j == idx
  {
    forall j: nat | j < 256
      ensures Has(r, j) <==> Has(b, j) || j == idx
    {
      HasBit(b, j);
      HasBit(r, j);
      WordSetBit(b.words[idx / 64], idx % 64, j % 64);
    }
  }

  lemma ClearBitBits(b: Bitfield, idx: nat, r: Bitfield)
    requires idx < 256 && r == Bitfield(b.words[idx / 64 := WordClear(b.words[idx / 64], idx % 64)])
    ensures forall j: nat | j < 256 :: Has(r, j) <==> Has(b, j) && j != idx
  {
    forall j: nat | j < 256
      ensures Has(r, j) <==> Has(b, j) && j != idx
    {
      HasBit(b, j);
      HasBit(r, j);
      WordClearBit(b.words[idx / 64], idx % 64, j % 64);
    }
  }

  lemma IntersectBits(a: Bitfield, b: Bitfield, r: Bitfield)
    requires forall i: nat | i < 4 :: r.words[i] == And(a.words[i], b.words[i])
    ensures forall j: nat | j < 256 :: Has(r, j) <==> Has(a, j) && Has(b, j)
  {
    forall j: nat | j < 256
      ensures Has(r, j) <==> Has(a, j) && Has(b, j)
    {
      HasBit(a, j);
      HasBit(b, j);
      HasBit(r, j);
      AndBit(a.words[j / 64], b.words[j / 64], j % 64);
    }
  }

  /** The mask fits in 64 bits, so the cast keeps every bit. */
  lemma WordSetLeqValue(v: U64, bit: nat)
    requires bit < 64
    ensures WordSetLeq(v, bit) == Or(v, Pow2(1 + bit) - 1)
  {
    PrefixFits(v, bit, 64);
    TruncatedSmall(Or(v, Pow2(1 + bit) - 1));
  }

  lemma PrefixFits(v: nat, bit: nat, n: nat)
    requires v < Pow2(n) && bit < n
    ensures Or(v, Pow2(1 + bit) - 1) < Pow2(n)
  {
    PowMonotone(1 + bit, n);
    OrBound(v, Pow2(1 + bit) - 1, n);
  }

  lemma TruncatedSmall(x: nat)
    requires x < Pow2(64)
    ensures Truncated(x) == x
  {
    SmallMod(x, Pow2(64));
  }

  lemma WordSetLeqBit(v: U64, bit: nat, i: nat)
    requires bit < 64 && i < 64
    ensures Bit(WordSetLeq(v, bit), i) <==> Bit(v, i) || i <= bit
  {
    WordSetLeqValue(v, bit);
    OrBit(v, Pow2(1 + bit) - 1, i);
    OnesBit(1 + bit, i);
  }

  lemma SetBitsLeqBits(b: Bitfield, bit: nat, r: Bitfield)
    requires bit < 256
    requires forall i: nat | i < 4 ::
      r.words[i] == if i < bit / 64 then U64_MAX
                    else if i == bit / 64 then WordSetLeq(b.words[i], bit % 64)
                    else b.words[i]
    ensures forall j: nat | j < 256 :: Has(r, j) <==> Has(b, j) || j <= bit
  {
    forall j: nat | j < 256
      ensures Has(r, j) <==> Has(b, j) || j <= bit
    {
      HasBit(b, j);
      HasBit(r, j);
      OnesBit(64, j % 64);
      if j / 64 == bit / 64 {
        WordSetLeqBit(b.words[j / 64], bit % 64, j % 64);
      }
    }
  }

  lemma ZeroBits()
    ensures forall j: nat | j < 256 :: !Has(Zero(), j)
  {
    forall j: nat | j < 256
      ensures !Has(Zero(), j)
    {
      HasBit(Zero(), j);
      ZeroBit(j % 64);
    }
  }

  // ----- Rank -----

  lemma {:induction false} RankOfWord(b: Bitfield, a: nat, n: nat)
    requires a < 4 && n <= 64
    ensures Rank(b, 64 * a + n) == Rank(b, 64 * a) + Ones(b.words[a], n)
  {
    if n > 0 {
      RankOfWord(b, a, n - 1);
      HasBit(b, 64 * a + n - 1);
      assert (64 * a + n - 1) / 64 == a && (64 * a + n - 1) % 64 == n - 1;
    }
  }

  /** The population count over the four words is the number of set positions. */
  lemma CountOnesIsRank(b: Bitfield)
    ensures CountOnes(b) == Rank(b, 256)
  {
    RankOfWord(b, 0, 64);
    RankOfWord(b, 1, 64);
    RankOfWord(b, 2, 64);
    RankOfWord(b, 3, 64);
  }

  lemma {:induction false} RankOfPrefixMask(mask: Bitfield, bp: nat, n: nat)
    requires bp < 256 && n <= 256
    requires forall j: nat | j < 256 :: Has(mask, j) <==> j < bp
    ensures Rank(mask, n) == if n < bp then n else bp
  {
    if n > 0 {
      RankOfPrefixMask(mask, bp, n - 1);
    }
  }

  lemma {:induction false} RankOfMasked(masked: Bitfield, b: Bitfield, bp: nat, n: nat)
    requires bp < 256 && n <= 256
    requires forall j: nat | j < 256 :: Has(masked, j) <==> Has(b, j) && j < bp
    ensures Rank(masked, n) == Rank(b, if n < bp then n else bp)
  {
    if n > 0 {
      RankOfMasked(masked, b, bp, n - 1);
    }
  }

  /** Ranks of set bits are ordered like the bits themselves. */
  lemma {:induction false} RankMonotone(b: Bitfield, i: nat, j: nat)
    requires i <= j <= 256
    ensures Rank(b, i) <= Rank(b, j)
    ensures i < j && Has(b, i) ==> Rank(b, i) < Rank(b, j)
  {
    if i < j {
      RankMonotone(b, i, j - 1);
    }
  }

  lemma {:induction false} RankAfterSet(b: Bitfield, idx: nat, n: nat)
    requires idx < 256 && n <= 256 && !Has(b, idx)
    ensures Rank(SetBit(b, idx), n) == Rank(b, n) + if idx < n then 1 else 0
  {
    if n > 0 {
      RankAfterSet(b, idx, n - 1);
    }
  }

  lemma {:induction false} RankAfterClear(b: Bitfield, idx: nat, n: nat)
    requires idx < 256 && n <= 256 && Has(b, idx)
    ensures Rank(ClearBit(b, idx), n) == Rank(b, n) - if idx < n then 1 else 0
  {
    if n > 0 {
      RankAfterClear(b, idx, n - 1);
    }
  }

  /** The set position whose slot is `r`: the inverse of `Rank` on set bits. */
  ghost function Select(b: Bitfield, r: nat, n: nat): (i: nat)
    requires n <= 256 && r < Rank(b, n)
    ensures i < n && Has(b, i) && Rank(b, i) == r
  {
    assert Rank(b, n) == Rank(b, n - 1) + if Has(b, n - 1) then 1 else 0;
    if r < Rank(b, n - 1) then Select(b, r, n - 1) else n - 1
  }

  /** Two bitfields with the same set positions are the same four words. */
  lemma Extensional(a: Bitfield, b: Bitfield)
    requires forall j: nat | j < 256 :: Has(a, j) <==> Has(b, j)
    ensures a == b
  {
    forall w: nat | w < 4
      ensures a.words[w] == b.words[w]
    {
      forall i: nat | i < 64
        ensures Bit(a.words[w], i) <==> Bit(b.words[w], i)
      {
        HasBit(a, 64 * w + i);
        HasBit(b, 64 * w + i);
        assert (64 * w + i) / 64 == w && (64 * w + i) % 64 == i;
      }
      SameBits(a.words[w], b.words[w], 64);
    }
    assert a.words == b.words;
  }

  // ----- Serialization: big-endian bytes without leading zeros -----

  function FullBytes(b: Bitfield): (r: seq<Byte>)
    ensures |r| == 32
  {
    ToBytes(b.words[3], 8) + ToBytes(b.words[2], 8) + ToBytes(b.words[1], 8) + ToBytes(b.words[0], 8)
  }

  function Trim(v: seq<Byte>): seq<Byte>
  {
    if v == [] then [] else if v[0] != 0 then v else Trim(v[1..])
  }

  function Encoded(b: Bitfield): seq<Byte>
  {
    Trim(FullBytes(b))
  }

  /** `Serialize for Bitfield`: the suffix that starts at the first non-zero byte. */
  method Encode(b: Bitfield) returns (bytes: seq<Byte>)
    ensures bytes == Encoded(b)
  {
    var v := FullBytes(b);
    for i := 0 to |v|
      invariant Trim(v) == Trim(v[i..])
    {
      if v[i] != 0 {
        return v[i..];
      }
    }
    return [];
  }

  function Padded(bytes: seq<Byte>): (r: seq<Byte>)
    requires |bytes| <= 32
    ensures |r| == 32
  {
    seq(32 - |bytes|, _ => 0) + bytes
  }

  function Decoded(bytes: seq<Byte>): Bitfield
    requires |bytes| <= 32
  {
    var p := Padded(bytes);
    Bitfield([FromBytes(p[24..32]), FromBytes(p[16..24]), FromBytes(p[8..16]), FromBytes(p[0..8])])
  }

  /** `Deserialize for Bitfield`: right-align the bytes in a zeroed 32-byte buffer.
      More than 32 bytes underflow the source's slice index. */
  method Decode(bytes: seq<Byte>) returns (b: Bitfield)
    requires |bytes| <= 32
    ensures b == Decoded(bytes)
  {
    var arr: array<Byte> := new Byte[32](_ => 0);
    var len := |bytes|;
    for i := 0 to len
      invariant forall j | 0 <= j < 32 - len :: arr[j] == 0
      invariant forall j | 0 <= j < i :: arr[32 - len + j] == bytes[j]
    {
      arr[32 - len + i] := bytes[i];
    }
    assert arr[..] == Padded(bytes);
    var p := arr[..];
    b := Bitfield([FromBytes(p[24..32]), FromBytes(p[16..24]), FromBytes(p[8..16]), FromBytes(p[0..8])]);
  }

  lemma {:induction false} TrimIsZeroPadded(v: seq<Byte>)
    ensures |Trim(v)| <= |v|
    ensures v == seq(|v| - |Trim(v)|, _ => 0) + Trim(v)
  {
    if v != [] && v[0] == 0 {
      TrimIsZeroPadded(v[1..]);
      var t := Trim(v[1..]);
      assert v == [0] + v[1..];
      assert [0] + seq(|v| - 1 - |t|, _ => 0) == seq(|v| - |t|, _ => 0);
    }
  }

  /** Decoding the serialized form gives back the same words. */
  lemma EncodeDecode(b: Bitfield)
    ensures |Encoded(b)| <= 32 && Decoded(Encoded(b)) == b
  {
    var v := FullBytes(b);
    TrimIsZeroPadded(v);
    assert Padded(Encoded(b)) == v;
    assert v[0..8] == ToBytes(b.words[3], 8) && v[8..16] == ToBytes(b.words[2], 8);
    assert v[16..24] == ToBytes(b.words[1], 8) && v[24..32] == ToBytes(b.words[0], 8);
    forall i: nat | i < 4 ensures FromBytes(ToBytes(b.words[i], 8)) == b.words[i] {
      BytesRoundTrip(b.words[i], 8);
    }
    assert b.words == [b.words[0], b.words[1], b.words[2], b.words[3]];
  }

  // ----- What the bytes say -----

  lemma {:induction false} TrimStarts(v: seq<Byte>)
    ensures Trim(v) != [] ==> Trim(v)[0] != 0
    ensures Trim(v) == [] <==> forall i | 0 <= i < |v| :: v[i] == 0
  {
    if v != [] && v[0] == 0 {
      TrimStarts(v[1..]);
      assert forall i | 0 < i < |v| :: v[i] == v[1..][i - 1];
    }
  }

  lemma FullByteAt(b: Bitfield, w: nat, j: nat)
    requires w < 4 && j < 8
    ensures FullBytes(b)[31 - (8 * w + j)] == ToBytes(b.words[w], 8)[7 - j]
  {}

  lemma BitPosition(k: nat, t: nat)
    requires k < 32 && t < 8
    ensures (8 * k + t) / 64 == k / 8 && (8 * k + t) % 64 == 8 * (k % 8) + t && k == 8 * (k / 8) + k % 8
  {}

  lemma FullByteBits(b: Bitfield, k: nat, t: nat)
    requires k < 32 && t < 8
    ensures Bit(FullBytes(b)[31 - k], t) <==> Has(b, 8 * k + t)
  {
    BitPosition(k, t);
    FullByteAt(b, k / 8, k % 8);
    ByteBits(b.words[k / 8], 8, k % 8, t);
    HasBit(b, 8 * k + t);
  }

  lemma {:induction false} SomeBit(v: nat, n: nat) returns (t: nat)
    requires 0 < v < Pow2(n)
    ensures t < n && Bit(v, t)
    decreases n
  {
    if v % 2 == 1 {
      t := 0;
    } else {
      t := SomeBit(v / 2, n - 1);
      t := t + 1;
    }
  }

  /** The serialized bitfield, bit by bit: counted from its end, bit `t` of byte `k` says
      whether position `8 * k + t` is used, and no used position lies beyond its length. */
  lemma EncodedBits(b: Bitfield, k: nat, t: nat)
    requires k < 32 && t < 8
    ensures |Encoded(b)| <= 32
    ensures k < |Encoded(b)| ==> (Bit(Encoded(b)[|Encoded(b)| - 1 - k], t) <==> Has(b, 8 * k + t))
    ensures k >= |Encoded(b)| ==> !Has(b, 8 * k + t)
  {
    var v, e := FullBytes(b), Encoded(b);
    TrimIsZeroPadded(v);
    FullByteBits(b, k, t);
    if k < |e| {
      assert v[31 - k] == e[|e| - 1 - k];
    } else {
      assert v[31 - k] == 0;
      ZeroBit(t);
    }
  }

  /** It is empty exactly when no position is used, and otherwise starts with a byte that is
      not zero. */
  lemma EncodedIsShortest(b: Bitfield)
    ensures Encoded(b) == [] <==> forall i: nat | i < 256 :: !Has(b, i)
    ensures Encoded(b) != [] ==> Encoded(b)[0] != 0
  {
    var e := Encoded(b);
    TrimStarts(FullBytes(b));
    if e == [] {
      forall i: nat | i < 256
        ensures !Has(b, i)
      {
        EncodedBits(b, i / 8, i % 8);
      }
    } else {
      EncodedBits(b, 0, 0);
      assert Pow2(8) == 256;
      var t := SomeBit(e[0], 8);
      EncodedBits(b, |e| - 1, t);
    }
  }
}
