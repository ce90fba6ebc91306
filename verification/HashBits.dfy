/** The reader that consumes a 32-byte hash a few bits at a time, from the most
    significant bit of the first byte. `HashBits` is a `Copy` struct in the source,
    so it is a value here: `Next` returns the advanced reader. */
module HashBitReader {
  import opened Words
  import opened Wrappers

  type HashedKey = s: seq<Byte> | |s| == 32 witness seq(32, _ => 0)

  datatype HashBits = HashBits(b: HashedKey, consumed: nat)

  /** Bit `j` of the hash, counted from the most significant bit of byte 0. */
  predicate HashBit(b: HashedKey, j: nat)
    requires j < 256
  {
    Bit(b[j / 8], 7 - j % 8)
  }

  /** The big-endian value of bits `from .. from + n`. */
  function BitsValue(b: HashedKey, from: nat, n: nat): nat
    requires from + n <= 256
  {
    if n == 0 then 0 else 2 * BitsValue(b, from, n - 1) + if HashBit(b, from + n - 1) then 1 else 0
  }

  /** `((1u64 << n) - 1) as u32` */
  function MkMask(n: nat): (r: nat)
    requires n <= 8
    ensures r == Pow2(n) - 1 < 256
  {
    PowMonotone(n, 8);
    assert Pow2(8) == 256;
    (Pow2(n) - 1) % 0x1_0000_0000
  }

  /** `!x` for u32 */
  function Not32(x: nat): nat
    requires x < 0x1_0000_0000
  {
    0xFFFF_FFFF - x
  }

  /** `v << n` on a value small enough not to lose bits */
  function Shl(v: nat, n: nat): nat
  {
    if n == 0 then v else 2 * Shl(v, n - 1)
  }

  function New(b: HashedKey): HashBits
  {
    NewAtIndex(b, 0)
  }

  function NewAtIndex(b: HashedKey, consumed: nat): HashBits
  {
    HashBits(b, consumed)
  }

  /** `HashBits::next`. Reading no bits is allowed, except past the last one, where the source
      indexes out of bounds. */
  method Next(h: HashBits, i: nat) returns (h': HashBits, r: Result<nat>)
    requires i > 0 || h.consumed < 256
    ensures i > 8 || h.consumed + i > 256 ==> r == Err(if i > 8 then TooManyBits else MaximumDepth) && h' == h
    ensures i <= 8 && h.consumed + i <= 256 ==>
              && h' == h.(consumed := h.consumed + i)
              && r == Ok(BitsValue(h.b, h.consumed, i))
  {
    if i > 8 {
      return h, Err(TooManyBits);
    }
    if h.consumed + i > |h.b| * 8 {
      return h, Err(MaximumDepth);
    }
    var out;
    h', out := NextBits(h, i);
    r := Ok(out);
  }

  method NextBits(h: HashBits, i: nat) returns (h': HashBits, out: nat)
    requires i <= 8 && h.consumed + i <= 256 && (i > 0 || h.consumed < 256)
    ensures h' == h.(consumed := h.consumed + i)
    ensures out == BitsValue(h.b, h.consumed, i)
    decreases i
  {
    var curbi := h.consumed / 8;
    var leftb := 8 - h.consumed % 8;
    var curb := h.b[curbi];
    if i == leftb {
      out := And(MkMask(i), curb);
      h' := h.(consumed := h.consumed + i);
      LowBits(h.b, h.consumed, i);
    } else if i < leftb {
      var a := And(curb, MkMask(leftb));
      var b := And(a, Not32(MkMask(leftb - i)));
      out := Shr(b, leftb - i);
      h' := h.(consumed := h.consumed + i);
      MiddleBits(h.b, h.consumed, i);
    } else {
      out := Shl(And(MkMask(leftb), curb), i - leftb);
      CrossBits(h.b, h.consumed, i);
      var rest;
      h', rest := NextBits(h.(consumed := h.consumed + leftb), i - leftb);
      out := out + rest;
    }
  }

  lemma LowBit(b: HashedKey, from: nat, i: nat, t: nat)
    requires 1 <= i <= 8 && from < 256 && i == 8 - from % 8 && from + i <= 256 && t < i
    ensures Bit(And(MkMask(i), b[from / 8]), t) <==> Bit(BitsValue(b, from, i), t)
  {
    AndBit(MkMask(i), b[from / 8], t);
    OnesBit(i, t);
    ValueBit(b, from, i, t);
    assert (from + i - 1 - t) / 8 == from / 8;
  }

  /** The rest of the current byte. */
  lemma LowBits(b: HashedKey, from: nat, i: nat)
    requires 1 <= i <= 8 && from < 256 && i == 8 - from % 8
    ensures from + i <= 256
    ensures And(MkMask(i), b[from / 8]) == BitsValue(b, from, i)
  {
    var out := And(MkMask(i), b[from / 8]);
    ValueBound(b, from, i);
    AndBound(MkMask(i), b[from / 8]);
    forall t: nat | t < i
      ensures Bit(out, t) <==> Bit(BitsValue(b, from, i), t)
    {
      LowBit(b, from, i, t);
    }
    SameBits(out, BitsValue(b, from, i), i);
  }

  /** The rest of the current byte, followed by bits of the next one. */
  lemma CrossBits(b: HashedKey, from: nat, i: nat)
    requires i <= 8 && from + i <= 256 && 8 - from % 8 < i
    ensures var leftb := 8 - from % 8;
      Shl(And(MkMask(leftb), b[from / 8]), i - leftb) + BitsValue(b, from + leftb, i - leftb) == BitsValue(b, from, i)
  {
    var leftb := 8 - from % 8;
    LowBits(b, from, leftb);
    ValueSplit(b, from, leftb, i - leftb);
  }

  /** The bits of `curb` that a read inside the current byte keeps. */
  function Masked(curb: nat, leftb: nat, m: nat): nat
    requires leftb <= 8 && m <= 8
  {
    And(And(curb, MkMask(leftb)), Not32(MkMask(m)))
  }

  lemma MaskedBit(curb: nat, leftb: nat, m: nat, u: nat)
    requires leftb <= 8 && m <= 8 && u < 32
    ensures Bit(Masked(curb, leftb, m), u) <==> Bit(curb, u) && m <= u < leftb
  {
    AndBit(And(curb, MkMask(leftb)), Not32(MkMask(m)), u);
    NotMaskBit(m, u);
    AndBit(curb, MkMask(leftb), u);
    OnesBit(leftb, u);
  }

  lemma MaskedBound(curb: nat, leftb: nat, m: nat)
    requires leftb <= 8 && m <= 8
    ensures Masked(curb, leftb, m) < Pow2(leftb)
  {
    AndBound(curb, MkMask(leftb));
    AndBound(And(curb, MkMask(leftb)), Not32(MkMask(m)));
  }

  lemma MiddleBit(b: HashedKey, from: nat, i: nat, t: nat)
    requires from < 256 && i < 8 - from % 8 && from + i <= 256 && t < i
    ensures var leftb := 8 - from % 8;
      Bit(Shr(Masked(b[from / 8], leftb, leftb - i), leftb - i), t) <==> Bit(BitsValue(b, from, i), t)
  {
    var leftb := 8 - from % 8;
    ShrBit(Masked(b[from / 8], leftb, leftb - i), leftb - i, t);
    MaskedBit(b[from / 8], leftb, leftb - i, t + (leftb - i));
    ValueBit(b, from, i, t);
    assert (from + i - 1 - t) / 8 == from / 8;
  }

  /** A run of bits, possibly none, that ends inside the current byte. */
  lemma MiddleBits(b: HashedKey, from: nat, i: nat)
    requires from < 256 && i < 8 - from % 8
    ensures from + i <= 256
    ensures var leftb := 8 - from % 8; Shr(Masked(b[from / 8], leftb, leftb - i), leftb - i) == BitsValue(b, from, i)
  {
    var leftb := 8 - from % 8;
    var masked := Masked(b[from / 8], leftb, leftb - i);
    ValueBound(b, from, i);
    MaskedBound(b[from / 8], leftb, leftb - i);
    ShrBound(masked, leftb - i, i);
    forall t: nat | t < i
      ensures Bit(Shr(masked, leftb - i), t) <==> Bit(BitsValue(b, from, i), t)
    {
      MiddleBit(b, from, i, t);
    }
    SameBits(Shr(masked, leftb - i), BitsValue(b, from, i), i);
  }

  lemma {:induction false} ShrBound(v: nat, n: nat, i: nat)
    requires v < Pow2(n + i)
    ensures Shr(v, n) < Pow2(i)
  {
    if n > 0 {
      ShrBound(v / 2, n - 1, i);
    }
  }

  lemma Pow32()
    ensures Pow2(32) == 0x1_0000_0000
  {
    Pow2Byte(0);
    Pow2Byte(8);
    Pow2Byte(16);
    Pow2Byte(24);
  }

  lemma NotMaskBit(m: nat, u: nat)
    requires m <= 8 && u < 32
    ensures Bit(Not32(MkMask(m)), u) <==> m <= u
  {
    Pow32();
    HighMaskBit(32, m, u);
    assert Not32(MkMask(m)) == Pow2(32) - Pow2(m);
  }

  /** `Pow2(n) - Pow2(m)` has exactly the bits `m .. n`. */
  lemma {:induction false} HighMaskBit(n: nat, m: nat, u: nat)
    requires m <= n && u < n
    ensures Pow2(m) <= Pow2(n)
    ensures Bit(Pow2(n) - Pow2(m), u) <==> m <= u
  {
    PowMonotone(m, n);
    if m == 0 {
      OnesBit(n, u);
    } else if u > 0 {
      HighMaskBit(n - 1, m - 1, u - 1);
      assert (Pow2(n) - Pow2(m)) / 2 == Pow2(n - 1) - Pow2(m - 1);
    }
  }

  lemma {:induction false} ValueBound(b: HashedKey, from: nat, n: nat)
    requires from + n <= 256
    ensures BitsValue(b, from, n) < Pow2(n)
  {
    if n > 0 {
      ValueBound(b, from, n - 1);
    }
  }

  lemma {:induction false} ValueBit(b: HashedKey, from: nat, n: nat, t: nat)
    requires from + n <= 256 && t < n
    ensures Bit(BitsValue(b, from, n), t) <==> HashBit(b, from + n - 1 - t)
  {
    if t > 0 {
      ValueBit(b, from, n - 1, t - 1);
    }
  }

  lemma {:induction false} ValueSplit(b: HashedKey, from: nat, k: nat, n: nat)
    requires from + k + n <= 256
    ensures BitsValue(b, from, k + n) == Shl(BitsValue(b, from, k), n) + BitsValue(b, from + k, n)
  {
    if n > 0 {
      ValueSplit(b, from, k, n - 1);
    }
  }

  /** A fresh reader placed at the depth a walk has reached reads the digit that
      the walk itself would have read next. */
  method RestartAgrees(key: HashedKey, w: nat, depth: nat) returns (walk: HashBits, digit: nat, restarted: nat)
    requires 1 <= w <= 8 && (depth + 1) * w <= 256
    ensures walk.consumed == (depth + 1) * w
    ensures digit == restarted == BitsValue(key, depth * w, w)
  {
    walk := New(key);
    var r;
    for d := 0 to depth
      invariant walk == HashBits(key, d * w)
    {
      assert (d + 1) * w <= (depth + 1) * w by { assert (depth - d) * w >= 0; }
      walk, r := Next(walk, w);
    }
    assert depth * w + w == (depth + 1) * w;
    var fresh' := NewAtIndex(key, walk.consumed);
    walk, r := Next(walk, w);
    digit := r.value;
    fresh', r := Next(fresh', w);
    restarted := r.value;
  }

  // ----- The hash as one number -----

  /** Bit `j` of the hash is bit `255 - j` of the 256-bit big-endian number it spells. */
  lemma HashBitOfNumber(b: HashedKey, j: nat)
    requires j < 256
    ensures HashBit(b, j) <==> Bit(FromBytes(b), 255 - j)
  {
    WordBits(b, 31 - j / 8, 7 - j % 8);
    assert 8 * (31 - j / 8) + (7 - j % 8) == 255 - j;
  }

  /** Reading bits cuts that number: the value of the bits `from .. from + n` is what is left
      of it after dropping all lower bits and then all higher ones. */
  lemma BitsValueOfNumber(b: HashedKey, from: nat, n: nat)
    requires from + n <= 256
    ensures BitsValue(b, from, n) == Shr(FromBytes(b), 256 - from - n) % Pow2(n)
  {
    var cut := Shr(FromBytes(b), 256 - from - n);
    ValueBound(b, from, n);
    forall t: nat | t < n
      ensures Bit(BitsValue(b, from, n), t) <==> Bit(cut % Pow2(n), t)
    {
      ValueBit(b, from, n, t);
      HashBitOfNumber(b, from + n - 1 - t);
      ShrBit(FromBytes(b), 256 - from - n, t);
      BitOfRemainder(cut, n, t);
    }
    SameBits(BitsValue(b, from, n), cut % Pow2(n), n);
  }

  /** Eight bits at a byte boundary are that byte. */
  lemma BitsValueOfByte(b: HashedKey, i: nat)
    requires i < 32
    ensures BitsValue(b, 8 * i, 8) == b[i]
  {
    ValueBound(b, 8 * i, 8);
    assert Pow2(8) == 256;
    forall t: nat | t < 8
      ensures Bit(BitsValue(b, 8 * i, 8), t) <==> Bit(b[i], t)
    {
      ValueBit(b, 8 * i, 8, t);
      assert (8 * i + 7 - t) / 8 == i && (8 * i + 7 - t) % 8 == 7 - t;
    }
    SameBits(BitsValue(b, 8 * i, 8), b[i], 8);
  }
}
