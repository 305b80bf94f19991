/** Machine words as naturals, one bit at a time. */
module Words {
  import opened Triangular
  import opened RoundUp

  /** Bit `i` of `x`, that is, whether x & (1 << i) is non-zero. */
  predicate Bit(x: nat, i: nat)
    decreases i
  {
    if i == 0 then x % 2 == 1 else Bit(x / 2, i - 1)
  }

  /** x | (1 << i) */
  function SetBit(x: nat, i: nat): (r: nat)
    ensures r >= x
    decreases i
  {
    if i == 0 then x / 2 * 2 + 1 else SetBit(x / 2, i - 1) * 2 + x % 2
  }

  /** x & ~(1 << i) */
  function ClearBit(x: nat, i: nat): (r: nat)
    ensures r <= x
    decreases i
  {
    if i == 0 then x / 2 * 2 else ClearBit(x / 2, i - 1) * 2 + x % 2
  }

  lemma {:induction false} SetBitAt(x: nat, i: nat, j: nat)
    ensures Bit(SetBit(x, i), j) <==> i == j || Bit(x, j)
    decreases i
  {
    if i > 0 && j > 0 { SetBitAt(x / 2, i - 1, j - 1); }
  }

  lemma {:induction false} ClearBitAt(x: nat, i: nat, j: nat)
    ensures Bit(ClearBit(x, i), j) <==> i != j && Bit(x, j)
    decreases i
  {
    if i > 0 && j > 0 { ClearBitAt(x / 2, i - 1, j - 1); }
  }

  lemma {:induction false} Half(x: nat, n: nat)
    requires x < Pow2(n) && n > 0
    ensures x / 2 < Pow2(n - 1)
    ensures x == Pow2(n) - 1 <==> x % 2 == 1 && x / 2 == Pow2(n - 1) - 1
  {
  }

  lemma {:induction false} Unhalf(x: nat, h: nat, n: nat)
    requires n > 0 && h < Pow2(n - 1) && x <= h * 2 + 1
    ensures x < Pow2(n)
  {
  }

  lemma {:induction false} SetBitBound(x: nat, i: nat, n: nat)
    requires x < Pow2(n) && i < n
    ensures SetBit(x, i) < Pow2(n)
    decreases i
  {
    hide Pow2;
    Half(x, n);
    if i > 0 {
      SetBitBound(x / 2, i - 1, n - 1);
      Unhalf(SetBit(x, i), SetBit(x / 2, i - 1), n);
    } else {
      Unhalf(SetBit(x, i), x / 2, n);
    }
  }

  /** All of the `n` low bits of `x` are `b`. */
  predicate Uniform(x: nat, n: nat, b: bool)
    decreases n
  {
    n == 0 || ((x % 2 == 1) == b && Uniform(x / 2, n - 1, b))
  }

  lemma {:induction false} UniformBits(x: nat, n: nat, b: bool)
    ensures Uniform(x, n, b) ==> forall i :: 0 <= i < n ==> Bit(x, i) == b
    ensures !Uniform(x, n, b) ==> exists i :: 0 <= i < n && Bit(x, i) != b
    decreases n
  {
    if n > 0 {
      UniformBits(x / 2, n - 1, b);
      if Uniform(x, n, b) {
        forall i | 0 <= i < n ensures Bit(x, i) == b {
          if i > 0 { BitNext(x, i - 1); } else { BitZero(x); }
        }
      } else if (x % 2 == 1) == b {
        var i :| 0 <= i < n - 1 && Bit(x / 2, i) != b;
        BitNext(x, i);
        assert Bit(x, i + 1) != b;
      } else {
        BitZero(x);
        var z: nat := 0;
        assert Bit(x, z) != b;
      }
    }
  }

  lemma {:induction false} UniformValue(x: nat, n: nat)
    requires x < Pow2(n)
    ensures Uniform(x, n, false) <==> x == 0
    ensures Uniform(x, n, true) <==> x == Pow2(n) - 1
    decreases n
  {
    if n > 0 {
      Half(x, n);
      UniformValue(x / 2, n - 1);
    }
  }

  /** A word without bits is zero. */
  lemma {:induction false} NoBits(x: nat, n: nat)
    requires x < Pow2(n)
    ensures x == 0 ==> forall i :: 0 <= i < n ==> !Bit(x, i)
    ensures x != 0 ==> exists i :: 0 <= i < n && Bit(x, i)
  {
    UniformBits(x, n, false);
    UniformValue(x, n);
  }

  /** A word with all its bits is the largest. */
  lemma {:induction false} AllBits(x: nat, n: nat)
    requires x < Pow2(n)
    ensures x == Pow2(n) - 1 ==> forall i :: 0 <= i < n ==> Bit(x, i)
    ensures x != Pow2(n) - 1 ==> exists i :: 0 <= i < n && !Bit(x, i)
  {
    UniformBits(x, n, true);
    UniformValue(x, n);
  }

  lemma {:induction false} BitZero(x: nat)
    ensures forall i: nat :: i == 0 ==> (Bit(x, i) <==> x % 2 == 1)
  {
  }

  lemma {:induction false} BitNext(x: nat, i: nat)
    ensures Bit(x, i + 1) <==> Bit(x / 2, i)
  {
  }

  lemma {:induction false} BitBound(x: nat, i: nat, n: nat)
    requires x < Pow2(n) && n <= i
    ensures !Bit(x, i)
    decreases i
  {
    if n > 0 { BitBound(x / 2, i - 1, n - 1); } else if i > 0 { BitBound(0, i - 1, 0); }
  }

  // ----- The high half -----

  lemma {:induction false} HighBit(x: nat, k: nat, i: nat)
    ensures Bit(x, k + i) <==> Bit(Shr(x, k), i)
    decreases k
  {
    if k > 0 { HighBit(x / 2, k - 1, i); }
  }

  lemma {:induction false} SetHigh(x: nat, k: nat, i: nat)
    ensures Shr(SetBit(x, k + i), k) == SetBit(Shr(x, k), i)
    decreases k
  {
    if k > 0 { SetHigh(x / 2, k - 1, i); }
  }

  lemma {:induction false} ClearHigh(x: nat, k: nat, i: nat)
    ensures Shr(ClearBit(x, k + i), k) == ClearBit(Shr(x, k), i)
    decreases k
  {
    if k > 0 { ClearHigh(x / 2, k - 1, i); }
  }

  /** The four low bits of a word. */
  function Low4(x: nat): nat {
    x % 2 + 2 * (x / 2 % 2) + 4 * (x / 2 / 2 % 2) + 8 * (x / 2 / 2 / 2 % 2)
  }

  lemma {:induction false} Low4Is(x: nat)
    ensures Low4(x) == x % 16
  {
  }

  lemma {:induction false} SetAbove(x: nat, i: nat)
    requires i > 0
    ensures SetBit(x, i) % 2 == x % 2 && SetBit(x, i) / 2 == SetBit(x / 2, i - 1)
  {
  }

  lemma {:induction false} ClearAbove(x: nat, i: nat)
    requires i > 0
    ensures ClearBit(x, i) % 2 == x % 2 && ClearBit(x, i) / 2 == ClearBit(x / 2, i - 1)
  {
  }

  /** The four low bits are out of reach. */
  lemma {:induction false} SetLow(x: nat, i: nat)
    requires i >= 4
    ensures SetBit(x, i) % 16 == x % 16
  {
    hide SetBit;
    SetAbove(x, i);
    SetAbove(x / 2, i - 1);
    SetAbove(x / 2 / 2, i - 2);
    SetAbove(x / 2 / 2 / 2, i - 3);
    Low4Is(x);
    Low4Is(SetBit(x, i));
  }

  lemma {:induction false} ClearLow(x: nat, i: nat)
    requires i >= 4
    ensures ClearBit(x, i) % 16 == x % 16
  {
    hide ClearBit;
    ClearAbove(x, i);
    ClearAbove(x / 2, i - 1);
    ClearAbove(x / 2 / 2, i - 2);
    ClearAbove(x / 2 / 2 / 2, i - 3);
    Low4Is(x);
    Low4Is(ClearBit(x, i));
  }

  // ----- Bitwise operations -----

  function And(a: nat, b: nat): nat
    decreases a + b
  {
    if a == 0 || b == 0 then 0
    else (if a % 2 == 1 && b % 2 == 1 then 1 else 0) + 2 * And(a / 2, b / 2)
  }

  function Xor(a: nat, b: nat): nat
    decreases a + b
  {
    if a == 0 && b == 0 then 0
    else (if a % 2 == b % 2 then 0 else 1) + 2 * Xor(a / 2, b / 2)
  }

  /** x << k without loss */
  function Shl(x: nat, k: nat): nat {
    if k == 0 then x else 2 * Shl(x, k - 1)
  }

  lemma {:induction false} ZeroBits(i: nat)
    ensures !Bit(0, i)
  {
    if i > 0 { ZeroBits(i - 1); }
  }

  lemma {:induction false} AndBit(a: nat, b: nat, i: nat)
    ensures Bit(And(a, b), i) <==> Bit(a, i) && Bit(b, i)
    decreases i
  {
    if a == 0 || b == 0 {
      ZeroBits(i);
    } else if i > 0 {
      AndBit(a / 2, b / 2, i - 1);
      assert And(a, b) / 2 == And(a / 2, b / 2);
    }
  }

  lemma {:induction false} XorBit(a: nat, b: nat, i: nat)
    ensures Bit(Xor(a, b), i) <==> Bit(a, i) != Bit(b, i)
    decreases i
  {
    if a == 0 && b == 0 {
      ZeroBits(i);
    } else if i > 0 {
      XorBit(a / 2, b / 2, i - 1);
      assert Xor(a, b) / 2 == Xor(a / 2, b / 2);
    }
  }

  lemma {:induction false} OrBit(a: nat, b: nat, i: nat)
    ensures Bit(Or(a, b), i) <==> Bit(a, i) || Bit(b, i)
    decreases i
  {
    if a == 0 && b == 0 {
      ZeroBits(i);
    } else if i > 0 {
      OrBit(a / 2, b / 2, i - 1);
      assert Or(a, b) / 2 == Or(a / 2, b / 2);
    }
  }

  lemma {:induction false} ShlBit(x: nat, k: nat, i: nat)
    ensures Bit(Shl(x, k), i) <==> i >= k && Bit(x, i - k)
    decreases k
  {
    if k > 0 {
      if i > 0 {
        ShlBit(x, k - 1, i - 1);
        assert Shl(x, k) / 2 == Shl(x, k - 1);
      }
    }
  }

  lemma {:induction false} AndBound(a: nat, b: nat, n: nat)
    requires a < Pow2(n)
    ensures And(a, b) < Pow2(n)
    decreases n
  {
    if a != 0 && b != 0 {
      Half(a, n);
      AndBound(a / 2, b / 2, n - 1);
    }
  }

  lemma {:induction false} XorBound(a: nat, b: nat, n: nat)
    requires a < Pow2(n) && b < Pow2(n)
    ensures Xor(a, b) < Pow2(n)
    decreases n
  {
    if n > 0 {
      Half(a, n);
      Half(b, n);
      XorBound(a / 2, b / 2, n - 1);
      if !(a == 0 && b == 0) { Unhalf(Xor(a, b), Xor(a / 2, b / 2), n); }
    }
  }

  lemma {:induction false} OrBound(a: nat, b: nat, n: nat)
    requires a < Pow2(n) && b < Pow2(n)
    ensures Or(a, b) < Pow2(n)
    decreases n
  {
    if n > 0 {
      Half(a, n);
      Half(b, n);
      OrBound(a / 2, b / 2, n - 1);
      if !(a == 0 && b == 0) { Unhalf(Or(a, b), Or(a / 2, b / 2), n); }
    }
  }

  /** The lowest set bit of a non-zero word. */
  function Ffs(x: nat): (i: nat)
    requires x > 0
  {
    if x % 2 == 1 then 0 else 1 + Ffs(x / 2)
  }

  lemma {:induction false} FfsBit(x: nat, n: nat)
    requires 0 < x < Pow2(n)
    ensures Ffs(x) < n && Bit(x, Ffs(x)) && forall i: nat :: i < Ffs(x) ==> !Bit(x, i)
    decreases n
  {
    Half(x, n);
    if x % 2 == 0 {
      FfsBit(x / 2, n - 1);
      forall i: nat | i < Ffs(x) ensures !Bit(x, i) {
        if i > 0 { assert !Bit(x / 2, i - 1); }
      }
    }
  }

  /** Shifting out the low bits and masking them off take the word apart. */
  lemma {:induction false} ShiftAndMask(x: nat, k: nat)
    ensures x == Shr(x, k) * Pow2(k) + And(x, Pow2(k) - 1) && And(x, Pow2(k) - 1) < Pow2(k)
  {
    if k > 0 {
      ShiftAndMask(x / 2, k - 1);
      TimesTwo(Shr(x, k), Pow2(k - 1));
      assert (Pow2(k) - 1) / 2 == Pow2(k - 1) - 1;
    }
  }

  /** So masking is the remainder, and shifting the quotient. */
  lemma {:induction false} MaskIsHome(x: nat, k: nat)
    ensures And(x, Pow2(k) - 1) == Home(x, Pow2(k)) && Shr(x, k) == x / Pow2(k)
  {
    ShiftAndMask(x, k);
    DivModUnique(x, Shr(x, k), And(x, Pow2(k) - 1), Pow2(k));
  }

  // ----- Powers of two -----

  lemma {:induction false} Powers()
    ensures Pow2(1) == 2 && Pow2(2) == 4 && Pow2(3) == 8 && Pow2(4) == 16 && Pow2(5) == 32 && Pow2(6) == 64
    ensures Pow2(7) == 128 && Pow2(8) == 256 && Pow2(9) == 512 && Pow2(10) == 1024 && Pow2(11) == 2048
  {
    assert Pow2(2) == 4 && Pow2(4) == 16 && Pow2(6) == 64;
    assert Pow2(8) == 256 && Pow2(10) == 1024;
  }

  lemma {:induction false} TimesTwo(a: nat, b: nat)
    ensures a * (2 * b) == 2 * (a * b)
  {
  }

  lemma {:induction false} PowAdd(a: nat, b: nat)
    ensures Pow2(a + b) == Pow2(a) * Pow2(b)
  {
    if b > 0 {
      PowAdd(a, b - 1);
      TimesTwo(Pow2(a), Pow2(b - 1));
    }
  }

  lemma {:induction false} PowDouble(k: nat)
    ensures Pow2(k + k) == Pow2(k) * Pow2(k)
  {
    PowAdd(k, k);
  }

  lemma {:induction false} Pow64()
    ensures Pow2(64) - 1 == 0xffff_ffff_ffff_ffff
  {
    hide Pow2;
    Powers();
    PowDouble(8);
    PowDouble(16);
    PowDouble(32);
    assert Pow2(16) == 65536;
    assert Pow2(32) == 0x1_0000_0000;
  }
}
