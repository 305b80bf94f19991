/** khash's kroundup32: smearing the top bit downwards with shifts and ORs, on 32-bit words. */
module RoundUp {
  import opened Triangular

  const WORD: nat := 0x1_0000_0000
  const TOP: nat := 0x8000_0000

  /** Bitwise or of two naturals. */
  function Or(a: nat, b: nat): nat
    decreases a + b
  {
    if a == 0 && b == 0 then 0
    else (if a % 2 == 1 || b % 2 == 1 then 1 else 0) + 2 * Or(a / 2, b / 2)
  }

  /** x >> w */
  function Shr(x: nat, w: nat): nat
    decreases w
  {
    if w == 0 then x else Shr(x / 2, w - 1)
  }

  /** The word has its highest one at bit m, and its top w bits from there are all ones. */
  predicate TopOnes(x: nat, m: nat, w: nat) {
    Pow2(m + 1) - Pow2(LowOne(m, w)) <= x < Pow2(m + 1)
  }

  /** The lowest of the top w bits, counting down from bit m. */
  function LowOne(m: nat, w: nat): nat {
    if w <= m + 1 then m + 1 - w else 0
  }

  lemma {:induction false} Pow2Mono(a: nat, b: nat)
    requires a <= b
    ensures Pow2(a) <= Pow2(b)
  {
    if a < b { Pow2Mono(a, b - 1); }
  }

  lemma {:induction false} ShrBounds(x: nat, w: nat, a: nat, b: nat)
    requires Pow2(a + w) - Pow2(b + w) <= x < Pow2(a + w)
    ensures Pow2(a) - Pow2(b) <= Shr(x, w) < Pow2(a)
    decreases w
  {
    if w > 0 { ShrBounds(x / 2, w - 1, a, b); }
  }

  lemma {:induction false} ShrVanishes(x: nat, w: nat)
    requires x < Pow2(w)
    ensures Shr(x, w) == 0
    decreases w
  {
    if w > 0 { ShrVanishes(x / 2, w - 1); }
  }

  /** Or with a number below 2^p leaves the ones from bit p upwards alone and keeps both operands' low bits. */
  lemma {:induction false} OrBelowTop(x: nat, y: nat, t: nat, p: nat)
    requires p <= t && Pow2(t) - Pow2(p) <= x < Pow2(t) && y < Pow2(p)
    ensures Pow2(t) - Pow2(p) + y <= Or(x, y) < Pow2(t)
    decreases p
  {
    if p == 0 {
      OrZero(x);
    } else {
      OrBelowTop(x / 2, y / 2, t - 1, p - 1);
    }
  }

  lemma {:induction false} OrZero(a: nat)
    ensures Or(a, 0) == a
  {
    if a > 0 { OrZero(a / 2); }
  }

  lemma {:induction false} SmearDoubles(x: nat, m: nat, w: nat)
    requires w > 0 && TopOnes(x, m, w)
    ensures TopOnes(Or(x, Shr(x, w)), m, 2 * w)
  {
    var p, r := LowOne(m, w), LowOne(m, 2 * w);
    if w <= m + 1 {
      Pow2Mono(p, r + w);
      ShrBounds(x, w, p, r);
    } else {
      Pow2Mono(m + 1, w);
      ShrVanishes(x, w);
    }
    OrBelowTop(x, Shr(x, w), m + 1, p);
  }

  lemma {:induction false} TopBit(x: nat, p: nat) returns (m: nat)
    requires 0 < x < Pow2(p)
    ensures m < p && Pow2(m) <= x < Pow2(m + 1)
  {
    if x < Pow2(p - 1) {
      m := TopBit(x, p - 1);
    } else {
      m := p - 1;
    }
  }

  lemma {:induction false} WordIsPow2()
    ensures Pow2(32) == WORD && Pow2(31) == TOP
  {
    assert Pow2(8) == 256;
    assert Pow2(16) == 256 * Pow2(8);
    assert Pow2(24) == 256 * Pow2(16);
    assert Pow2(31) == 128 * Pow2(24);
    assert Pow2(32) == 2 * Pow2(31);
  }

  /** x |= x >> w */
  method Smear(x: nat, w: nat) returns (y: nat)
    requires w > 0
    ensures x == 0 ==> y == 0
    ensures forall m: nat :: TopOnes(x, m, w) ==> TopOnes(y, m, 2 * w)
  {
    y := Or(x, Shr(x, w));
    if x == 0 { ShrVanishes(x, w); }
    forall m: nat | TopOnes(x, m, w) ensures TopOnes(y, m, 2 * w) {
      SmearDoubles(x, m, w);
    }
  }

  /** The least power of two not below x, or 0 when that does not fit in 32 bits. */
  ghost predicate RoundedUp(x: nat, r: nat) {
    if 1 <= x <= TOP then
      exists k: nat :: k <= 31 && r == Pow2(k) && x <= r && (k > 0 ==> Pow2(k - 1) < x)
    else r == 0
  }

  lemma {:induction false} TopBitOfWord(d: nat) returns (m: nat)
    requires 0 < d < WORD
    ensures TopOnes(d, m, 1) && m <= 31
    ensures d < TOP ==> m < 31 && Pow2(m) <= d < Pow2(m + 1) <= TOP
    ensures d >= TOP ==> Pow2(m + 1) == WORD
  {
    WordIsPow2();
    m := TopBit(d, 32);
    if d < TOP {
      if m >= 31 { Pow2Mono(31, m); }
      Pow2Mono(m + 1, 31);
    } else if m < 31 {
      Pow2Mono(m + 1, 31);
    }
  }

  /** kroundup32: --x, five smears, ++x, on 32-bit words. */
  method RoundUp32(x: nat) returns (r: nat)
    requires x < WORD
    ensures RoundedUp(x, r)
  {
    hide TopOnes, Pow2;
    var d := (x + WORD - 1) % WORD;
    ghost var m := 0;
    if d > 0 { m := TopBitOfWord(d); }
    var e := Smear(d, 1);
    e := Smear(e, 2);
    e := Smear(e, 4);
    e := Smear(e, 8);
    e := Smear(e, 16);
    r := (e + 1) % WORD;
    if d > 0 { AllOnes(e, m); }
    RoundedFrom(x, d, m, r);
  }

  lemma {:induction false} AllOnes(e: nat, m: nat)
    requires m <= 31 && TopOnes(e, m, 32)
    ensures e == Pow2(m + 1) - 1
  {
  }

  lemma {:induction false} RoundedFrom(x: nat, d: nat, m: nat, r: nat)
    requires x < WORD && d == (x + WORD - 1) % WORD
    requires d == 0 ==> r == 1
    requires 0 < d < TOP ==> m < 31 && Pow2(m) <= d < Pow2(m + 1) == r
    requires d >= TOP ==> r == 0
    ensures RoundedUp(x, r)
  {
    if 1 <= x <= TOP {
      var k := if d == 0 then 0 else m + 1;
      assert r == Pow2(k) && k <= 31;
    }
  }

  /** Between 2^k and 2^(k+1) there is only one power of two to round up to. */
  lemma {:induction false} RoundedUpTo(x: nat, r: nat, k: nat)
    requires RoundedUp(x, r)
    requires k <= 31 && 1 <= x <= Pow2(k) && (k > 0 ==> Pow2(k - 1) < x)
    ensures r == Pow2(k)
  {
    WordIsPow2();
    Pow2Mono(k, 31);
    var j: nat :| j <= 31 && r == Pow2(j) && x <= r && (j > 0 ==> Pow2(j - 1) < x);
    if j < k { Pow2Mono(j, k - 1); }
    if k < j { Pow2Mono(k, j - 1); }
  }
}
