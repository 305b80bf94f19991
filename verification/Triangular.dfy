/** Triangular stepping modulo a power of two: the number theory behind khash's probe sequence. */
module Triangular {
  import opened Basics

  function Pow2(k: nat): (r: nat)
    ensures r >= 1
  {
    if k == 0 then 1 else 2 * Pow2(k - 1)
  }

  /** The sum 1 + 2 + ... + s: the total displacement after `s` increments of `step`. */
  function Tri(s: nat): nat {
    if s == 0 then 0 else Tri(s - 1) + s
  }

  /** The bucket visited after `s` steps from hash `h` in a table of `n` buckets. */
  function Probe(h: nat, s: nat, n: nat): (b: nat)
    requires n > 0
    ensures b < n
  {
    (h + Tri(s)) % n
  }

  /** k & mask */
  function Home(h: nat, n: nat): (b: nat)
    requires n > 0
    ensures b < n
  {
    h % n
  }

  /** (i + step) & mask */
  function Advance(i: nat, step: nat, n: nat): (b: nat)
    requires n > 0
    ensures b < n
  {
    (i + step) % n
  }

  lemma {:induction false} TriClosed(s: nat)
    ensures 2 * Tri(s) == s * (s + 1)
  {
    if s > 0 { TriClosed(s - 1); }
  }

  /** Twice the difference of two triangular numbers, as two factors of opposite parity. */
  lemma {:induction false} TriFactors(s: nat, t: nat) returns (lo: int, hi: int)
    requires s < t
    ensures lo * hi == 2 * (Tri(t) - Tri(s))
    ensures lo % 2 != hi % 2
    ensures 0 < lo <= t && 0 < hi <= 2 * t
  {
    lo, hi := t - s, t + s + 1;
    TriClosed(s);
    TriClosed(t);
    assert lo * hi == t * (t + 1) - s * (s + 1);
    assert hi == lo + 2 * s + 1;
  }

  lemma {:induction false} ModAdd(a: int, b: int, n: nat)
    requires n > 0
    ensures (a % n + b) % n == (a + b) % n
  {
    var q := a / n;
    assert a == q * n + a % n;
    ModShift(a % n + b, q, n);
    assert a % n + b + q * n == a + b;
  }

  lemma {:induction false} ModShift(a: int, q: int, n: nat)
    requires n > 0
    ensures (a + q * n) % n == a % n
  {
    var r, d := a % n, a / n;
    assert a + q * n == (d + q) * n + r;
    DivModUnique(a + q * n, d + q, r, n);
  }

  lemma {:induction false} DivModUnique(a: int, q: int, r: int, n: nat)
    requires n > 0 && 0 <= r < n && a == q * n + r
    ensures a % n == r && a / n == q
  {
    var q', r' := a / n, a % n;
    assert (q - q') * n == r' - r;
    MultipleInside(q - q', n);
  }

  lemma {:induction false} MultipleInside(m: int, n: nat)
    requires 0 - n < m * n < n
    ensures m == 0
  {
  }

  lemma {:induction false} ProbeStart(h: nat, n: nat)
    requires n > 0
    ensures Probe(h, 0, n) == Home(h, n)
  {
  }

  /** Adding the incremented step and masking moves to the next probe position. */
  lemma {:induction false} ProbeStep(h: nat, s: nat, n: nat)
    requires n > 0
    ensures Probe(h, s + 1, n) == Advance(Probe(h, s, n), s + 1, n)
  {
    ModAdd(h + Tri(s), s + 1, n);
  }

  /** An odd factor cannot supply any of the factors of two. */
  lemma {:induction false} OddFactor(m: nat, a: int, x: int, q: int) returns (r: int)
    requires a % 2 == 1
    requires a * x == q * Pow2(m)
    ensures x == r * Pow2(m)
  {
    if m == 0 {
      r := x;
    } else {
      var p := Pow2(m - 1);
      assert q * Pow2(m) == 2 * (q * p);
      var y := HalfOf(a, x, q * p);
      r := OddFactor(m - 1, a, y, q);
      assert 2 * (r * p) == r * (2 * p);
    }
  }

  /** If an odd number times `x` is twice `c`, then `x` is even and its half times that number is `c`. */
  lemma {:induction false} HalfOf(a: int, x: int, c: int) returns (y: int)
    requires a % 2 == 1 && a * x == 2 * c
    ensures x == 2 * y && a * y == c
  {
    var i := a / 2;
    y := c - i * x;
    assert a * x == (2 * i + 1) * x == 2 * (i * x) + x;
    assert x == 2 * y;
    assert a * (2 * y) == 2 * (a * y);
  }

  lemma {:induction false} Congruent(a: int, b: int, n: nat) returns (q: int)
    requires n > 0 && a % n == b % n
    ensures b - a == q * n
  {
    q := b / n - a / n;
    assert (b / n - a / n) * n == (b / n) * n - (a / n) * n;
  }

  lemma {:induction false} NoMultipleBetween(x: int, r: int, n: nat)
    requires 0 < x < n
    ensures x != r * n
  {
    if x == r * n { MultipleInside(r, n); }
  }

  /** Of two factors of opposite parity, both short of 2^(m), the product is no multiple of 2^(m). */
  lemma {:induction false} OppositeParity(m: nat, a: int, b: int, q: int)
    requires 0 < a < Pow2(m) && 0 < b < Pow2(m)
    requires a % 2 != b % 2
    ensures a * b != q * Pow2(m)
  {
    if a * b == q * Pow2(m) {
      if a % 2 == 1 {
        var r := OddFactor(m, a, b, q);
        NoMultipleBetween(b, r, Pow2(m));
      } else {
        assert b * a == a * b;
        var r := OddFactor(m, b, a, q);
        NoMultipleBetween(a, r, Pow2(m));
      }
    }
  }

  lemma {:induction false} TriNotCongruent(k: nat, s: nat, t: nat, q: int)
    requires s < t < Pow2(k)
    ensures Tri(t) - Tri(s) != q * Pow2(k)
  {
    var lo, hi := TriFactors(s, t);
    OppositeParity(k + 1, lo, hi, q);
    DoubleMultiple(q, Pow2(k));
  }

  lemma {:induction false} DoubleMultiple(q: int, p: int)
    ensures q * (2 * p) == 2 * (q * p)
  {
  }

  /** The first 2^k probes are pairwise distinct. */
  lemma {:induction false} ProbesDistinct(h: nat, k: nat, s: nat, t: nat)
    requires s < t < Pow2(k)
    ensures Probe(h, s, Pow2(k)) != Probe(h, t, Pow2(k))
  {
    if Probe(h, s, Pow2(k)) == Probe(h, t, Pow2(k)) {
      var q := Congruent(h + Tri(s), h + Tri(t), Pow2(k));
      TriNotCongruent(k, s, t, q);
    }
  }

  /** The set of buckets visited by the first `c` probes has exactly `c` members. */
  lemma {:induction false} VisitedCount(h: nat, k: nat, c: nat, visited: set<nat>)
    requires c <= Pow2(k)
    requires visited == set s | 0 <= s < c :: Probe(h, s, Pow2(k))
    ensures |visited| == c
  {
    if c == 0 {
      assert visited == {};
    } else {
      var before := set s | 0 <= s < c - 1 :: Probe(h, s, Pow2(k));
      var b := Probe(h, c - 1, Pow2(k));
      VisitedCount(h, k, c - 1, before);
      forall s | 0 <= s < c - 1 ensures Probe(h, s, Pow2(k)) != b {
        ProbesDistinct(h, k, s, c - 1);
      }
      assert visited == before + {b};
    }
  }

  function Below(n: nat): (r: set<nat>)
    ensures |r| == n
    ensures forall b: nat :: b in r <==> b < n
  {
    if n == 0 then {} else Below(n - 1) + {n - 1}
  }

  lemma {:induction false} SubsetOfEqualSize<T>(small: set<T>, big: set<T>)
    requires small <= big && |small| == |big|
    ensures small == big
  {
    if exists x :: x in big && x !in small {
      var x :| x in big && x !in small;
      SubsetSize(small, big - {x});
    }
  }

  /** Stepping by i*(i+1)/2 in a power-of-two table traverses every bucket. */
  lemma {:induction false} ProbesCover(h: nat, k: nat, b: nat)
    requires b < Pow2(k)
    ensures exists s: nat :: s < Pow2(k) && Probe(h, s, Pow2(k)) == b
  {
    var n := Pow2(k);
    var visited := set s | 0 <= s < n :: Probe(h, s, n);
    var range := Below(n);
    VisitedCount(h, k, n, visited);
    SubsetOfEqualSize(visited, range);
    assert b in range;
  }

  lemma {:induction false} TriNotMultiple(k: nat, s: nat, q: int)
    requires 0 < s < 2 * Pow2(k) - 1
    ensures Tri(s) != q * Pow2(k)
  {
    TriClosed(s);
    OppositeParity(k + 1, s, s + 1, q);
    DoubleMultiple(q, Pow2(k));
  }

  lemma {:induction false} TriLast(n: nat)
    requires n > 0
    ensures Tri(2 * n - 1) == (2 * n - 1) * n
  {
    TriClosed(2 * n - 1);
    DoubleMultiple(2 * n - 1, n);
  }

  /** The probe sequence is back at its first bucket after 2n - 1 steps, and not earlier. */
  lemma {:induction false} ProbeReturns(h: nat, k: nat, s: nat)
    requires 0 < s < 2 * Pow2(k)
    ensures Probe(h, s, Pow2(k)) == Probe(h, 0, Pow2(k)) <==> s == 2 * Pow2(k) - 1
  {
    if s == 2 * Pow2(k) - 1 {
      TriLast(Pow2(k));
      ModShift(h, s, Pow2(k));
    } else if Probe(h, s, Pow2(k)) == Probe(h, 0, Pow2(k)) {
      var q := Congruent(h, h + Tri(s), Pow2(k));
      TriNotMultiple(k, s, q);
    }
  }
}
