/** Every step of XXH32 that takes in a word or a byte is one-to-one, and a stripe keeps its four words apart, so a
    change in one word of the input changes the hash. */
module Xxh32Mix {
  import opened XxWords
  import opened Xxh32
  import X = XxStream

  // ----- The steps can be undone -----

  // The primes are odd, so multiplying by each can be undone by multiplying by its inverse.

  function Undo1(x: bv32): bv32 {
    x * 244002641
  }

  function Undo2(x: bv32): bv32 {
    x * 3066638151
  }

  function Undo3(x: bv32): bv32 {
    x * 2828982549
  }

  function Undo4(x: bv32): bv32 {
    x * 2701016015
  }

  function Undo5(x: bv32): bv32 {
    x * 2923004241
  }

  lemma {:induction false} Product1(x: bv32)
    ensures TimesP1(x) == x * 2654435761 && Undo1(x * 2654435761) == x
  {
  }

  lemma {:induction false} Product2(x: bv32)
    ensures TimesP2(x) == x * 2246822519 && Undo2(x * 2246822519) == x
  {
  }

  lemma {:induction false} Product3(x: bv32)
    ensures TimesP3(x) == x * 3266489917 && Undo3(x * 3266489917) == x
  {
  }

  lemma {:induction false} Product4(x: bv32)
    ensures TimesP4(x) == x * 668265263 && Undo4(x * 668265263) == x
  {
  }

  lemma {:induction false} Product5(x: bv32)
    ensures TimesP5(x) == x * 374761393 && Undo5(x * 374761393) == x
  {
  }

  lemma {:induction false} Back1(x: bv32)
    ensures Undo1(TimesP1(x)) == x
  {
    hide TimesP1, Undo1;
    Product1(x);
  }

  lemma {:induction false} Back2(x: bv32)
    ensures Undo2(TimesP2(x)) == x
  {
    hide TimesP2, Undo2;
    Product2(x);
  }

  lemma {:induction false} Back3(x: bv32)
    ensures Undo3(TimesP3(x)) == x
  {
    hide TimesP3, Undo3;
    Product3(x);
  }

  lemma {:induction false} Back4(x: bv32)
    ensures Undo4(TimesP4(x)) == x
  {
    hide TimesP4, Undo4;
    Product4(x);
  }

  lemma {:induction false} Back5(x: bv32)
    ensures Undo5(TimesP5(x)) == x
  {
    hide TimesP5, Undo5;
    Product5(x);
  }

  function Unfold15(x: bv32): bv32 {
    x ^ (x >> 15) ^ (x >> 30)
  }

  function Unfold13(x: bv32): bv32 {
    x ^ (x >> 13) ^ (x >> 26)
  }

  lemma {:induction false} Folded(x: bv32)
    ensures Fold15(x) == x ^ (x >> 15) && Unfold15(x ^ (x >> 15)) == x
    ensures Fold13(x) == x ^ (x >> 13) && Unfold13(x ^ (x >> 13)) == x
    ensures Fold16(x) == x ^ (x >> 16) && Fold16(x ^ (x >> 16)) == x
  {
  }

  lemma {:induction false} UnfoldBack(x: bv32)
    ensures Unfold15(Fold15(x)) == x && Unfold13(Fold13(x)) == x && Fold16(Fold16(x)) == x
  {
    hide Fold15, Fold13, Fold16, Unfold15, Unfold13;
    Folded(x);
  }

  lemma {:induction false} RotBack13(x: bv32)
    ensures Rot32(Rot32(x, 13), 19) == x
  {
  }

  lemma {:induction false} RotBack17(x: bv32)
    ensures Rot32(Rot32(x, 17), 15) == x
  {
  }

  lemma {:induction false} RotBack11(x: bv32)
    ensures Rot32(Rot32(x, 11), 21) == x
  {
  }

  lemma {:induction false} RotBack1(x: bv32)
    ensures Rot32(Rot32(x, 1), 31) == x
  {
  }

  lemma {:induction false} RotBack7(x: bv32)
    ensures Rot32(Rot32(x, 7), 25) == x
  {
  }

  lemma {:induction false} RotBack12(x: bv32)
    ensures Rot32(Rot32(x, 12), 20) == x
  {
  }

  lemma {:induction false} RotBack18(x: bv32)
    ensures Rot32(Rot32(x, 18), 14) == x
  {
  }

  lemma {:induction false} Sum(x: bv32, y: bv32)
    ensures Add32(x, y) == x + y && Add32(x + y, 0 - x) == y && Add32(x + y, 0 - y) == x
  {
  }

  lemma {:induction false} AddBack(x: bv32, y: bv32)
    ensures Add32(Add32(x, y), 0 - x) == y && Add32(Add32(x, y), 0 - y) == x
  {
    hide Add32;
    Sum(x, y);
  }

  // ----- So they are one-to-one -----

  /** One-to-one in the word, and one-to-one in the accumulator. */
  lemma {:induction false} Rounds(u: bv32, v: bv32, x: bv32, y: bv32)
    requires Round(u, x) == Round(v, y) && (u == v || x == y)
    ensures u == v && x == y
  {
    hide TimesP1, TimesP2, Undo1, Undo2, Rot32, Add32;
    var k, l := Add32(u, TimesP2(x)), Add32(v, TimesP2(y));
    Back1(Rot32(k, 13));
    Back1(Rot32(l, 13));
    RotBack13(k);
    RotBack13(l);
    AddBack(u, TimesP2(x));
    AddBack(v, TimesP2(y));
    Back2(x);
    Back2(y);
  }

  lemma {:induction false} Eats4(h: bv32, g: bv32, a: seq<Byte>, b: seq<Byte>)
    requires |a| == |b| == 4 && Eat4(h, a) == Eat4(g, b) && (h == g || a == b)
    ensures h == g && a == b
  {
    hide TimesP3, TimesP4, Undo3, Undo4, Rot32, Add32, Word32;
    var x, y := TimesP3(Word32(a)), TimesP3(Word32(b));
    Back4(Rot32(Add32(h, x), 17));
    Back4(Rot32(Add32(g, y), 17));
    RotBack17(Add32(h, x));
    RotBack17(Add32(g, y));
    AddBack(h, x);
    AddBack(g, y);
    if h == g {
      Back3(Word32(a));
      Back3(Word32(b));
      SameWord32(a, b);
    }
  }

  lemma {:induction false} Eats1(h: bv32, g: bv32, a: Byte, b: Byte)
    requires Eat1(h, a) == Eat1(g, b) && (h == g || a == b)
    ensures h == g && a == b
  {
    hide TimesP1, TimesP5, Undo1, Undo5, Rot32, Add32, Byte32;
    var x, y := TimesP5(Byte32(a)), TimesP5(Byte32(b));
    Back1(Rot32(Add32(h, x), 11));
    Back1(Rot32(Add32(g, y), 11));
    RotBack11(Add32(h, x));
    RotBack11(Add32(g, y));
    AddBack(h, x);
    AddBack(g, y);
    if h == g {
      Back5(Byte32(a));
      Back5(Byte32(b));
      SameWide8(a, b);
    }
  }

  lemma {:induction false} SameAvalanche(h: bv32, g: bv32)
    requires Avalanche(h) == Avalanche(g)
    ensures h == g
  {
    hide TimesP2, TimesP3, Undo2, Undo3, Fold15, Fold13, Fold16, Unfold15, Unfold13;
    UnfoldBack(TimesP3(Fold13(TimesP2(Fold15(h)))));
    UnfoldBack(TimesP3(Fold13(TimesP2(Fold15(g)))));
    Back3(Fold13(TimesP2(Fold15(h))));
    Back3(Fold13(TimesP2(Fold15(g))));
    UnfoldBack(TimesP2(Fold15(h)));
    UnfoldBack(TimesP2(Fold15(g)));
    Back2(Fold15(h));
    Back2(Fold15(g));
    UnfoldBack(h);
    UnfoldBack(g);
  }

  // ----- The last bytes -----

  lemma {:induction false} Tail1State(h: bv32, g: bv32, b: seq<Byte>)
    requires Tail1(h, b) == Tail1(g, b)
    ensures h == g
    decreases |b|
  {
    hide Eat1;
    if b != [] {
      Tail1State(Eat1(h, b[0]), Eat1(g, b[0]), b[1..]);
      Eats1(h, g, b[0], b[0]);
    }
  }

  /** For every tail, the hash tells what it started from. */
  lemma {:induction false} TailState(h: bv32, g: bv32, b: seq<Byte>)
    requires Tail4(h, b) == Tail4(g, b)
    ensures h == g
    decreases |b|
  {
    hide Eat4, Tail1;
    if |b| >= 4 {
      TailState(Eat4(h, b[..4]), Eat4(g, b[..4]), b[4..]);
      Eats4(h, g, b[..4], b[..4]);
    } else {
      Tail1State(h, g, b);
    }
  }

  lemma {:induction false} Tail1Bytes(h: bv32, a: seq<Byte>, b: seq<Byte>)
    requires |a| < 4 && OnePiece(a, b, 4) && Tail1(h, a) == Tail1(h, b)
    ensures a == b
    decreases |a|
  {
    hide Eat1;
    if a != [] {
      if a[1..] == b[1..] {
        Tail1State(Eat1(h, a[0]), Eat1(h, b[0]), a[1..]);
        Eats1(h, h, a[0], b[0]);
      } else {
        Tail1Bytes(Eat1(h, a[0]), a[1..], b[1..]);
      }
      Rejoin(a, b, 1);
    }
  }

  lemma {:induction false} TailBytes(h: bv32, a: seq<Byte>, b: seq<Byte>)
    requires OnePiece(a, b, 4) && Tail4(h, a) == Tail4(h, b)
    ensures a == b
    decreases |a|
  {
    hide Eat4, Tail1;
    if |a| >= 4 {
      if a[4..] == b[4..] {
        TailState(Eat4(h, a[..4]), Eat4(h, b[..4]), a[4..]);
        Eats4(h, h, a[..4], b[..4]);
      } else {
        TailBytes(Eat4(h, a[..4]), a[4..], b[4..]);
      }
      Rejoin(a, b, 4);
    } else {
      Tail1Bytes(h, a, b);
    }
  }

  // ----- Stripes -----

  /** The two differ in exactly one accumulator. */
  predicate OneLane(u: X.Acc<bv32>, v: X.Acc<bv32>) {
    u != v && (v == u.(v1 := v.v1) || v == u.(v2 := v.v2) || v == u.(v3 := v.v3) || v == u.(v4 := v.v4))
  }

  /** A stripe keeps the accumulators apart. */
  lemma {:induction false} StripeLane(u: X.Acc<bv32>, v: X.Acc<bv32>, b: seq<Byte>)
    requires OneLane(u, v)
    ensures OneLane(Stripe(u, b), Stripe(v, b))
  {
    hide Round, Word32;
    if |b| >= 16 && Stripe(u, b) == Stripe(v, b) {
      Rounds(u.v1, v.v1, Word32(b[0..4]), Word32(b[0..4]));
      Rounds(u.v2, v.v2, Word32(b[4..8]), Word32(b[4..8]));
      Rounds(u.v3, v.v3, Word32(b[8..12]), Word32(b[8..12]));
      Rounds(u.v4, v.v4, Word32(b[12..16]), Word32(b[12..16]));
    }
  }

  lemma {:induction false} StripesLane(u: X.Acc<bv32>, v: X.Acc<bv32>, data: seq<Byte>)
    requires OneLane(u, v)
    ensures OneLane(X.Stripes(ALGO, u, data), X.Stripes(ALGO, v, data))
    decreases |data|
  {
    hide OneLane, Stripe;
    if |data| >= 16 {
      StripeLane(u, v, data[..16]);
      StripesLane(Stripe(u, data[..16]), Stripe(v, data[..16]), data[16..]);
    }
  }

  /** The two differ in no word but the `j`-th. */
  ghost predicate OnlyWord(a: seq<Byte>, b: seq<Byte>, j: nat) {
    |a| == |b| && 4 * j + 4 <= |a| && a[..4 * j] == b[..4 * j] && a[4 * j + 4..] == b[4 * j + 4..]
  }

  function Quarter(a: seq<Byte>, k: nat): (r: seq<Byte>)
    requires 4 * k + 4 <= |a|
    ensures |r| == 4
  {
    a[4 * k..4 * k + 4]
  }

  function Lane(acc: X.Acc<bv32>, k: nat): bv32 {
    if k == 0 then acc.v1 else if k == 1 then acc.v2 else if k == 2 then acc.v3 else acc.v4
  }

  lemma {:induction false} StripeIs(acc: X.Acc<bv32>, a: seq<Byte>)
    requires |a| == 16
    ensures forall k: nat :: k < 4 ==> Lane(Stripe(acc, a), k) == Round(Lane(acc, k), Word32(Quarter(a, k)))
  {
    hide Round, Word32;
  }

  lemma {:induction false} SameQuarter(a: seq<Byte>, b: seq<Byte>, j: nat, k: nat)
    requires |a| == |b| == 16 && j < 4 && OnlyWord(a, b, j) && k < 4 && k != j
    ensures Quarter(a, k) == Quarter(b, k)
  {
    if k < j {
      assert Quarter(a, k) == a[..4 * j][4 * k..4 * k + 4];
      assert Quarter(b, k) == b[..4 * j][4 * k..4 * k + 4];
    } else {
      var f := 4 * j + 4;
      assert Quarter(a, k) == a[f..][4 * k - f..4 * k + 4 - f];
      assert Quarter(b, k) == b[f..][4 * k - f..4 * k + 4 - f];
    }
  }

  lemma {:induction false} SameWhole(a: seq<Byte>, b: seq<Byte>, j: nat)
    requires OnlyWord(a, b, j) && Quarter(a, j) == Quarter(b, j)
    ensures a == b
  {
    var f := 4 * j + 4;
    assert a == a[..4 * j] + Quarter(a, j) + a[f..];
    assert b == b[..4 * j] + Quarter(b, j) + b[f..];
  }

  lemma {:induction false} LanesApart(u: X.Acc<bv32>, v: X.Acc<bv32>, j: nat)
    requires j < 4 && Lane(u, j) != Lane(v, j) && forall k: nat :: k < 4 && k != j ==> Lane(u, k) == Lane(v, k)
    ensures OneLane(u, v)
  {
    assert 0 != j ==> Lane(u, 0) == Lane(v, 0);
    assert 1 != j ==> Lane(u, 1) == Lane(v, 1);
    assert 2 != j ==> Lane(u, 2) == Lane(v, 2);
    assert 3 != j ==> Lane(u, 3) == Lane(v, 3);
  }

  lemma {:induction false} StripeWord(acc: X.Acc<bv32>, a: seq<Byte>, b: seq<Byte>, j: nat)
    requires |a| == |b| == 16 && j < 4 && OnlyWord(a, b, j) && a != b
    ensures OneLane(Stripe(acc, a), Stripe(acc, b))
  {
    hide Round, Word32, Stripe, Lane, Quarter, OnlyWord, OneLane;
    StripeIs(acc, a);
    StripeIs(acc, b);
    var u, v := Stripe(acc, a), Stripe(acc, b);
    forall k: nat | k < 4 && k != j ensures Lane(u, k) == Lane(v, k) {
      SameQuarter(a, b, j, k);
    }
    if Lane(u, j) == Lane(v, j) {
      Rounds(Lane(acc, j), Lane(acc, j), Word32(Quarter(a, j)), Word32(Quarter(b, j)));
      SameWord32(Quarter(a, j), Quarter(b, j));
      SameWhole(a, b, j);
    }
    LanesApart(u, v, j);
  }

  /** The pieces of the first stripe are its four words. */
  lemma {:induction false} FirstStripe(a: seq<Byte>, b: seq<Byte>, k: nat) returns (j: nat)
    requires k <= 4 && |a| == |b| >= 16 && a[..4 * k] == b[..4 * k] && OnePiece(a[4 * k..], b[4 * k..], 4)
    ensures j <= 4
    ensures if j < 4 then OnlyWord(a, b, j) else a[..16] == b[..16] && OnePiece(a[16..], b[16..], 4)
    decreases 4 - k
  {
    var n := 4 * k + 4;
    if k == 4 {
      j := 4;
    } else {
      assert a[4 * k..][4..] == a[n..] && b[4 * k..][4..] == b[n..];
      if a[n..] == b[n..] {
        j := k;
      } else {
        assert a[4 * k..][..4] == b[4 * k..][..4];
        assert a[..n] == a[..4 * k] + a[4 * k..][..4] && b[..n] == b[..4 * k] + b[4 * k..][..4];
        j := FirstStripe(a, b, k + 1);
      }
    }
  }

  /** Inputs that differ in one piece: either the accumulators differ, in one, or the rests do. */
  lemma {:induction false} StripesBytes(acc: X.Acc<bv32>, a: seq<Byte>, b: seq<Byte>)
    requires OnePiece(a, b, 4) && a != b
    ensures var u, v, x, y := X.Stripes(ALGO, acc, a), X.Stripes(ALGO, acc, b), X.Rest(ALGO, a), X.Rest(ALGO, b);
      (x == y && OneLane(u, v)) || (u == v && OnePiece(x, y, 4) && x != y)
    decreases |a|
  {
    hide OneLane, Stripe, OneOf;
    if |a| >= 16 {
      assert a[..0] == b[..0] && a[0..] == a && b[0..] == b;
      var j := FirstStripe(a, b, 0);
      if j < 4 {
        InStripe(a, b, j);
        StripeWord(acc, a[..16], b[..16], j);
        StripesLane(Stripe(acc, a[..16]), Stripe(acc, b[..16]), a[16..]);
      } else {
        if a[16..] == b[16..] { Rejoin(a, b, 16); }
        StripesBytes(Stripe(acc, a[..16]), a[16..], b[16..]);
      }
    }
  }

  lemma {:induction false} InStripe(a: seq<Byte>, b: seq<Byte>, j: nat)
    requires j < 4 && |a| == |b| >= 16 && OnlyWord(a, b, j) && a != b
    ensures OnlyWord(a[..16], b[..16], j) && a[16..] == b[16..] && a[..16] != b[..16]
  {
    var f := 4 * j + 4;
    assert a[..16][..4 * j] == a[..4 * j] && b[..16][..4 * j] == b[..4 * j];
    assert a[..16][f..] == a[f..][..16 - f] && b[..16][f..] == b[f..][..16 - f];
    assert a[16..] == a[f..][16 - f..] && b[16..] == b[f..][16 - f..];
    if a[..16] == b[..16] { Rejoin(a, b, 16); }
  }

  lemma {:induction false} SameSum(x: bv32, y: bv32, z: bv32, w: bv32)
    requires Add32(x, y) == Add32(z, w) && (x == z || y == w)
    ensures x == z && y == w
  {
    hide Add32;
    AddBack(x, y);
    AddBack(z, w);
  }

  /** One accumulator that differs shows in their sum. */
  lemma {:induction false} SumTells(u: X.Acc<bv32>, v: X.Acc<bv32>)
    requires OneLane(u, v)
    ensures Converge(u) != Converge(v)
  {
    hide Add32, Rot32;
    if Converge(u) == Converge(v) {
      var a, b, c, d := Rot32(u.v1, 1), Rot32(u.v2, 7), Rot32(u.v3, 12), Rot32(u.v4, 18);
      var e, f, g, h := Rot32(v.v1, 1), Rot32(v.v2, 7), Rot32(v.v3, 12), Rot32(v.v4, 18);
      SameSum(Add32(Add32(a, b), c), d, Add32(Add32(e, f), g), h);
      SameSum(Add32(a, b), c, Add32(e, f), g);
      SameSum(a, b, e, f);
      RotsBack(u);
      RotsBack(v);
    }
  }

  lemma {:induction false} RotsBack(u: X.Acc<bv32>)
    ensures Rot32(Rot32(u.v1, 1), 31) == u.v1 && Rot32(Rot32(u.v2, 7), 25) == u.v2
    ensures Rot32(Rot32(u.v3, 12), 20) == u.v3 && Rot32(Rot32(u.v4, 18), 14) == u.v4
  {
    hide Rot32;
    RotBack1(u.v1);
    RotBack7(u.v2);
    RotBack12(u.v3);
    RotBack18(u.v4);
  }

  // ----- The hash -----

  /** What the tail starts from. */
  ghost function Begin(seed: bv32, data: seq<Byte>): bv32 {
    Add32(if |data| >= 16 then Converge(X.Stripes(ALGO, Start(seed), data)) else Short(seed), Len32(|data|))
  }

  /** No change within one word of the input, or of one byte after the last word, leaves the hash as it is. */
  lemma {:induction false} PieceMatters(seed: bv32, a: seq<Byte>, b: seq<Byte>)
    requires OnePiece(a, b, 4) && Hash(seed, a) == Hash(seed, b)
    ensures a == b
  {
    hide Start, X.Stripes, X.Rest, Avalanche, Converge, Tail4, Short, Add32, Len32, OneOf, OneLane;
    if a != b {
      StripesBytes(Start(seed), a, b);
      var x, y := X.Rest(ALGO, a), X.Rest(ALGO, b);
      SameAvalanche(Tail4(Begin(seed, a), x), Tail4(Begin(seed, b), y));
      if x == y {
        TailState(Begin(seed, a), Begin(seed, b), x);
        SumsDiffer(seed, a, b);
      } else {
        TailBytes(Begin(seed, a), x, y);
      }
    }
  }

  lemma {:induction false} SumsDiffer(seed: bv32, a: seq<Byte>, b: seq<Byte>)
    requires |a| == |b| && OneLane(X.Stripes(ALGO, Start(seed), a), X.Stripes(ALGO, Start(seed), b))
    ensures Begin(seed, a) != Begin(seed, b)
  {
    hide Start, Converge, Short, Add32, Len32, Stripe;
    var u, v := X.Stripes(ALGO, Start(seed), a), X.Stripes(ALGO, Start(seed), b);
    SumTells(u, v);
    AddBack(Converge(u), Len32(|a|));
    AddBack(Converge(v), Len32(|b|));
  }

  /** For an input shorter than a stripe different seeds give different hashes. */
  lemma {:induction false} SeedMatters(seed: bv32, other: bv32, a: seq<Byte>)
    requires |a| < 16 && Hash(seed, a) == Hash(other, a)
    ensures seed == other
  {
    hide Start, X.Stripes, Avalanche, Converge, Tail4, Add32, Len32;
    var h, g := Add32(Short(seed), Len32(|a|)), Add32(Short(other), Len32(|a|));
    SameAvalanche(Tail4(h, a), Tail4(g, a));
    TailState(h, g, a);
    AddBack(Short(seed), Len32(|a|));
    AddBack(Short(other), Len32(|a|));
    AddBack(seed, P5);
    AddBack(other, P5);
  }
}
