/** Fixed-width unsigned integers as bounded naturals, with the bitwise operators
    defined on their binary expansion. */
module Words {

  function Pow2(n: nat): (r: nat)
    ensures r > 0
  {
    if n == 0 then 1 else 2 * Pow2(n - 1)
  }

  /** Bit `i` of `v`, counted from the least significant bit. */
  predicate Bit(v: nat, i: nat)
  {
    if i == 0 then v % 2 == 1 else Bit(v / 2, i - 1)
  }

  /** `a & b` */
  function And(a: nat, b: nat): nat
  {
    if a == 0 || b == 0 then 0
    else 2 * And(a / 2, b / 2) + if a % 2 == 1 && b % 2 == 1 then 1 else 0
  }

  /** `a | b` */
  function Or(a: nat, b: nat): nat
    decreases a + b
  {
    if a == 0 && b == 0 then 0
    else 2 * Or(a / 2, b / 2) + if a % 2 == 1 || b % 2 == 1 then 1 else 0
  }

  /** `v >> n` */
  function Shr(v: nat, n: nat): nat
  {
    if n == 0 then v else Shr(v / 2, n - 1)
  }

  /** `v.count_ones()`, restricted to the lowest `n` bits. */
  function Ones(v: nat, n: nat): nat
  {
    if n == 0 then 0 else Ones(v, n - 1) + if Bit(v, n - 1) then 1 else 0
  }

  lemma SmallMod(x: nat, y: nat)
    requires x < y
    ensures x % y == x
  {}

  lemma {:induction false} PowMonotone(i: nat, n: nat)
    requires i <= n
    ensures Pow2(i) <= Pow2(n)
  {
    if i < n {
      PowMonotone(i, n - 1);
    }
  }

  lemma {:induction false} ZeroBit(i: nat)
    ensures !Bit(0, i)
  {
    if i > 0 {
      ZeroBit(i - 1);
    }
  }

  lemma {:induction false} AndBit(a: nat, b: nat, i: nat)
    ensures Bit(And(a, b), i) <==> Bit(a, i) && Bit(b, i)
  {
    if a == 0 || b == 0 {
      ZeroBit(i);
    } else if i > 0 {
      AndBit(a / 2, b / 2, i - 1);
    }
  }

  lemma {:induction false} OrBit(a: nat, b: nat, i: nat)
    ensures Bit(Or(a, b), i) <==> Bit(a, i) || Bit(b, i)
    decreases i
  {
    if a == 0 && b == 0 {
      ZeroBit(i);
    } else if i > 0 {
      OrBit(a / 2, b / 2, i - 1);
    }
  }

  lemma {:induction false} OrBound(a: nat, b: nat, n: nat)
    requires a < Pow2(n) && b < Pow2(n)
    ensures Or(a, b) < Pow2(n)
    decreases n
  {
    if n > 0 && (a > 0 || b > 0) {
      OrBound(a / 2, b / 2, n - 1);
    }
  }

  lemma {:induction false} AndBound(a: nat, b: nat)
    ensures And(a, b) <= a && And(a, b) <= b
  {
    if a > 0 && b > 0 {
      AndBound(a / 2, b / 2);
    }
  }

  lemma {:induction false} PowBit(i: nat, j: nat)
    ensures Bit(Pow2(i), j) <==> i == j
  {
    if i == 0 && j > 0 {
      ZeroBit(j - 1);
    } else if i > 0 && j > 0 {
      PowBit(i - 1, j - 1);
    }
  }

  /** `(1 << n) - 1` has exactly the lowest `n` bits. */
  lemma {:induction false} OnesBit(n: nat, j: nat)
    ensures Bit(Pow2(n) - 1, j) <==> j < n
  {
    if n == 0 {
      ZeroBit(j);
    } else if j > 0 {
      assert (Pow2(n) - 1) / 2 == Pow2(n - 1) - 1;
      OnesBit(n - 1, j - 1);
    }
  }

  /** `MAX - (1 << i)` for an `n`-bit word has every bit but `i`. */
  lemma {:induction false} AllButBit(n: nat, i: nat, j: nat)
    requires i < n
    ensures Pow2(i) < Pow2(n)
    ensures Bit(Pow2(n) - 1 - Pow2(i), j) <==> j < n && j != i
  {
    if i == 0 {
      assert Pow2(n) - 2 == 2 * (Pow2(n - 1) - 1);
      if j > 0 {
        OnesBit(n - 1, j - 1);
      }
    } else {
      AllButBit(n - 1, i - 1, if j > 0 then j - 1 else 0);
      assert (Pow2(n) - 1 - Pow2(i)) / 2 == Pow2(n - 1) - 1 - Pow2(i - 1);
    }
  }

  lemma {:induction false} AndPow(v: nat, i: nat)
    ensures And(v, Pow2(i)) != 0 <==> Bit(v, i)
  {
    if v == 0 {
      ZeroBit(i);
    } else if i > 0 {
      AndPow(v / 2, i - 1);
    } else {
      assert And(v / 2, 0) == 0;
    }
  }

  /** Two `n`-bit words with the same bits are equal. */
  lemma {:induction false} SameBits(v: nat, w: nat, n: nat)
    requires v < Pow2(n) && w < Pow2(n)
    requires forall i: nat | i < n :: Bit(v, i) <==> Bit(w, i)
    ensures v == w
    decreases n
  {
    if n > 0 {
      assert Bit(v, 0) <==> Bit(w, 0);
      forall i: nat | i < n - 1
        ensures Bit(v / 2, i) <==> Bit(w / 2, i)
      {
        assert Bit(v, i + 1) <==> Bit(w, i + 1);
      }
      SameBits(v / 2, w / 2, n - 1);
    }
  }

  // ----- Big-endian bytes -----

  type Byte = b: nat | b < 256

  /** `BigEndian::write_u64` for an `n`-byte word. */
  function ToBytes(v: nat, n: nat): (r: seq<Byte>)
    ensures |r| == n
  {
    if n == 0 then [] else ToBytes(v / 256, n - 1) + [v % 256]
  }

  /** `BigEndian::read_u64` for an `n`-byte word. */
  function FromBytes(s: seq<Byte>): (r: nat)
    ensures r < Pow2(8 * |s|)
  {
    if s == [] then 0
    else
      assert Pow2(8 * |s|) == 256 * Pow2(8 * (|s| - 1)) by { Pow2Byte(8 * (|s| - 1)); }
      256 * FromBytes(s[..|s| - 1]) + s[|s| - 1]
  }

  lemma Pow2Byte(n: nat)
    ensures Pow2(n + 8) == 256 * Pow2(n)
  {
    assert Pow2(n + 8) == 2 * Pow2(n + 7) == 4 * Pow2(n + 6) == 8 * Pow2(n + 5) == 16 * Pow2(n + 4);
    assert Pow2(n + 4) == 2 * Pow2(n + 3) == 4 * Pow2(n + 2) == 8 * Pow2(n + 1) == 16 * Pow2(n);
  }

  lemma {:induction false} BytesRoundTrip(v: nat, n: nat)
    requires v < Pow2(8 * n)
    ensures FromBytes(ToBytes(v, n)) == v
  {
    if n > 0 {
      Pow2Byte(8 * (n - 1));
      BytesRoundTrip(v / 256, n - 1);
    }
  }

  // ----- Bits and arithmetic -----

  lemma {:induction false} ShrBit(v: nat, s: nat, i: nat)
    ensures Bit(Shr(v, s), i) <==> Bit(v, s + i)
    decreases s
  {
    if s > 0 {
      ShrBit(v / 2, s - 1, i);
    }
  }

  /** Shifting right divides by a power of two. */
  lemma {:induction false} ShrIsQuotient(v: nat, s: nat)
    ensures Shr(v, s) == v / Pow2(s)
    decreases s
  {
    if s > 0 {
      ShrIsQuotient(v / 2, s - 1);
      QuotientStep(v, s);
    }
  }

  lemma QuotientStep(v: nat, s: nat)
    requires s > 0
    ensures v / Pow2(s) == (v / 2) / Pow2(s - 1)
  {
    HalfQuotient(v, Pow2(s - 1));
  }

  lemma RemainderStep(v: nat, n: nat)
    requires n > 0
    ensures (v % Pow2(n)) / 2 == (v / 2) % Pow2(n - 1) && (v % Pow2(n)) % 2 == v % 2
  {
    HalfRemainder(v, Pow2(n - 1));
  }

  lemma HalfQuotient(v: nat, p: nat)
    requires p > 0
    ensures v / (2 * p) == (v / 2) / p
  {
    var q, r := (v / 2) / p, (v / 2) % p;
    assert v / 2 == q * p + r;
    assert v == 2 * (v / 2) + v % 2;
    assert v == q * (2 * p) + (2 * r + v % 2) && 2 * r + v % 2 < 2 * p;
    QuotientIs(v, 2 * p, q, 2 * r + v % 2);
  }

  lemma QuotientIs(v: nat, d: nat, q: nat, r: nat)
    requires r < d && v == q * d + r
    ensures v / d == q && v % d == r
  {
    var a, b := v / d, v % d;
    Divides(v, d);
    Distributes(q, a, d);
    OnlyZero(q - a, d);
  }

  lemma Divides(v: nat, d: nat)
    requires d > 0
    ensures v == (v / d) * d + v % d && 0 <= v % d < d
  {}

  lemma Distributes(a: int, b: int, d: int)
    ensures (a - b) * d == a * d - b * d
  {}

  lemma OnlyZero(k: int, d: int)
    requires d > 0 && -d < k * d < d
    ensures k == 0
  {
    if k > 0 {
      Distributes(k, 1, d);
      NotNegative(k - 1, d);
    } else if k < 0 {
      Distributes(-k, 1, d);
      Distributes(0, k, d);
      NotNegative(-k - 1, d);
    }
  }

  lemma NotNegative(a: nat, b: nat)
    ensures a * b >= 0
  {}

  /** The value of a bit: the binary digit at its position. */
  lemma BitIsDigit(v: nat, i: nat)
    ensures Bit(v, i) <==> (v / Pow2(i)) % 2 == 1
  {
    ShrBit(v, i, 0);
    ShrIsQuotient(v, i);
  }

  lemma {:induction false} BitOfRemainder(v: nat, n: nat, i: nat)
    ensures Bit(v % Pow2(n), i) <==> i < n && Bit(v, i)
    decreases n
  {
    if n == 0 {
      ZeroBit(i);
    } else {
      RemainderStep(v, n);
      if i > 0 {
        BitOfRemainder(v / 2, n - 1, i - 1);
      }
    }
  }

  lemma HalfRemainder(v: nat, p: nat)
    requires p > 0
    ensures (v % (2 * p)) / 2 == (v / 2) % p && (v % (2 * p)) % 2 == v % 2
  {
    var q, r := (v / 2) / p, (v / 2) % p;
    assert v / 2 == q * p + r;
    assert v == q * (2 * p) + (2 * r + v % 2);
    QuotientIs(v, 2 * p, q, 2 * r + v % 2);
  }

  lemma ShrByte(v: nat)
    ensures Shr(v, 8) == v / 256
  {
    ShrIsQuotient(v, 8);
    assert Pow2(8) == 256;
  }

  /** The bits of a word lie in its big-endian bytes, the lowest in the last one. */
  lemma {:induction false} ByteBits(v: nat, n: nat, j: nat, t: nat)
    requires j < n && t < 8
    ensures Bit(ToBytes(v, n)[n - 1 - j], t) <==> Bit(v, 8 * j + t)
    decreases n
  {
    assert Pow2(8) == 256;
    if j == 0 {
      BitOfRemainder(v, 8, t);
    } else {
      ByteBits(v / 256, n - 1, j - 1, t);
      ShrByte(v);
      ShrBit(v, 8, 8 * (j - 1) + t);
    }
  }

  /** And the other way: the bits of bytes read as a big-endian word. */
  lemma {:induction false} WordBits(s: seq<Byte>, j: nat, t: nat)
    requires j < |s| && t < 8
    ensures Bit(FromBytes(s), 8 * j + t) <==> Bit(s[|s| - 1 - j], t)
    decreases |s|
  {
    var init, last := s[..|s| - 1], s[|s| - 1];
    assert Pow2(8) == 256;
    QuotientIs(FromBytes(s), 256, FromBytes(init), last);
    if j == 0 {
      BitOfRemainder(FromBytes(s), 8, t);
    } else {
      WordBits(init, j - 1, t);
      ShrByte(FromBytes(s));
      ShrBit(FromBytes(s), 8, 8 * (j - 1) + t);
    }
  }
}
