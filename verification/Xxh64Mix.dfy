/** Every step of XXH64 that takes in a word or a byte is one-to-one, so a change in one word of what follows the last
    full stripe changes the hash. */
module Xxh64Mix {
  import opened XxWords
  import opened Xxh64
  import X = XxStream

  // ----- The steps can be undone -----

  // The primes are odd, so multiplying by each can be undone by multiplying by its inverse.

  function Undo1(x: bv64): bv64 {
    x * 614540362697595703
  }

  function Undo2(x: bv64): bv64 {
    x * 839798700976720815
  }

  function Undo3(x: bv64): bv64 {
    x * 16855272203555305545
  }

  function Undo5(x: bv64): bv64 {
    x * 14236653164957433613
  }

  lemma {:induction false} Product1(x: bv64)
    ensures TimesP1(x) == x * 11400714785074694791 && Undo1(x * 11400714785074694791) == x
  {
  }

  lemma {:induction false} Product2(x: bv64)
    ensures TimesP2(x) == x * 14029467366897019727 && Undo2(x * 14029467366897019727) == x
  {
  }

  lemma {:induction false} Product3(x: bv64)
    ensures TimesP3(x) == x * 1609587929392839161 && Undo3(x * 1609587929392839161) == x
  {
  }

  lemma {:induction false} Product5(x: bv64)
    ensures TimesP5(x) == x * 2870177450012600261 && Undo5(x * 2870177450012600261) == x
  {
  }

  lemma {:induction false} Back1(x: bv64)
    ensures Undo1(TimesP1(x)) == x
  {
    hide TimesP1, Undo1;
    Product1(x);
  }

  lemma {:induction false} Back2(x: bv64)
    ensures Undo2(TimesP2(x)) == x
  {
    hide TimesP2, Undo2;
    Product2(x);
  }

  lemma {:induction false} Back3(x: bv64)
    ensures Undo3(TimesP3(x)) == x
  {
    hide TimesP3, Undo3;
    Product3(x);
  }

  lemma {:induction false} Back5(x: bv64)
    ensures Undo5(TimesP5(x)) == x
  {
    hide TimesP5, Undo5;
    Product5(x);
  }

  function Unfold29(x: bv64): bv64 {
    x ^ (x >> 29) ^ (x >> 58)
  }

  lemma {:induction false} Folded(x: bv64)
    ensures Fold33(x) == x ^ (x >> 33) && Fold33(x ^ (x >> 33)) == x
    ensures Fold29(x) == x ^ (x >> 29) && Unfold29(x ^ (x >> 29)) == x
    ensures Fold32(x) == x ^ (x >> 32) && Fold32(x ^ (x >> 32)) == x
  {
  }

  lemma {:induction false} UnfoldBack(x: bv64)
    ensures Fold33(Fold33(x)) == x && Unfold29(Fold29(x)) == x && Fold32(Fold32(x)) == x
  {
    hide Fold33, Fold29, Fold32, Unfold29;
    Folded(x);
  }

  lemma {:induction false} RotBack31(x: bv64)
    ensures Rot64(Rot64(x, 31), 33) == x
  {
  }

  lemma {:induction false} RotBack27(x: bv64)
    ensures Rot64(Rot64(x, 27), 37) == x
  {
  }

  lemma {:induction false} RotBack23(x: bv64)
    ensures Rot64(Rot64(x, 23), 41) == x
  {
  }

  lemma {:induction false} RotBack11(x: bv64)
    ensures Rot64(Rot64(x, 11), 53) == x
  {
  }

  lemma {:induction false} XorBack(x: bv64, y: bv64)
    ensures Xor64(Xor64(x, y), x) == y && Xor64(Xor64(x, y), y) == x
  {
  }

  lemma {:induction false} Sum(x: bv64, y: bv64)
    ensures Add64(x, y) == x + y && Add64(x + y, 0 - x) == y && Add64(x + y, 0 - y) == x
  {
  }

  lemma {:induction false} AddBack(x: bv64, y: bv64)
    ensures Add64(Add64(x, y), 0 - x) == y && Add64(Add64(x, y), 0 - y) == x
  {
    hide Add64;
    Sum(x, y);
  }

  // ----- So they are one-to-one -----

  lemma {:induction false} SameInput(acc: bv64, x: bv64, y: bv64)
    requires Round(acc, x) == Round(acc, y)
    ensures x == y
  {
    hide TimesP1, TimesP2, Undo1, Undo2, Rot64, Add64;
    var u, v := Add64(acc, TimesP2(x)), Add64(acc, TimesP2(y));
    Back1(Rot64(u, 31));
    Back1(Rot64(v, 31));
    RotBack31(u);
    RotBack31(v);
    AddBack(acc, TimesP2(x));
    AddBack(acc, TimesP2(y));
    Back2(x);
    Back2(y);
  }

  /** Before the word was mixed in. */
  lemma {:induction false} Before8(x: bv64, y: bv64)
    requires Add64(TimesP1(Rot64(x, 27)), P4) == Add64(TimesP1(Rot64(y, 27)), P4)
    ensures x == y
  {
    hide TimesP1, Undo1, Rot64, Add64;
    AddBack(TimesP1(Rot64(x, 27)), P4);
    AddBack(TimesP1(Rot64(y, 27)), P4);
    Back1(Rot64(x, 27));
    Back1(Rot64(y, 27));
    RotBack27(x);
    RotBack27(y);
  }

  lemma {:induction false} Before4(x: bv64, y: bv64)
    requires Add64(TimesP2(Rot64(x, 23)), P3) == Add64(TimesP2(Rot64(y, 23)), P3)
    ensures x == y
  {
    hide TimesP2, Undo2, Rot64, Add64;
    AddBack(TimesP2(Rot64(x, 23)), P3);
    AddBack(TimesP2(Rot64(y, 23)), P3);
    Back2(Rot64(x, 23));
    Back2(Rot64(y, 23));
    RotBack23(x);
    RotBack23(y);
  }

  lemma {:induction false} Before1(x: bv64, y: bv64)
    requires TimesP1(Rot64(x, 11)) == TimesP1(Rot64(y, 11))
    ensures x == y
  {
    hide TimesP1, Undo1, Rot64;
    Back1(Rot64(x, 11));
    Back1(Rot64(y, 11));
    RotBack11(x);
    RotBack11(y);
  }

  /** Eating a word: one-to-one in the word, and one-to-one in the state. */
  lemma {:induction false} Eats8(h: bv64, g: bv64, a: seq<Byte>, b: seq<Byte>)
    requires |a| == |b| == 8 && Eat8(h, a) == Eat8(g, b) && (h == g || a == b)
    ensures h == g && a == b
  {
    hide TimesP1, Rot64, Add64, Xor64, Round, Word64;
    var k, l := Round(0, Word64(a)), Round(0, Word64(b));
    Before8(Xor64(h, k), Xor64(g, l));
    XorBack(h, k);
    XorBack(g, l);
    if h == g {
      SameInput(0, Word64(a), Word64(b));
      SameWord64(a, b);
    }
  }

  lemma {:induction false} Eats4(h: bv64, g: bv64, a: seq<Byte>, b: seq<Byte>)
    requires |a| == |b| == 4 && Eat4(h, a) == Eat4(g, b) && (h == g || a == b)
    ensures h == g && a == b
  {
    hide TimesP1, TimesP2, Undo1, Rot64, Add64, Xor64, Word32, Wide;
    var x, y := Wide(Word32(a)), Wide(Word32(b));
    Before4(Xor64(h, TimesP1(x)), Xor64(g, TimesP1(y)));
    XorBack(h, TimesP1(x));
    XorBack(g, TimesP1(y));
    if h == g {
      Back1(x);
      Back1(y);
      SameWide(Word32(a), Word32(b));
      SameWord32(a, b);
    }
  }

  lemma {:induction false} Eats1(h: bv64, g: bv64, a: Byte, b: Byte)
    requires Eat1(h, a) == Eat1(g, b) && (h == g || a == b)
    ensures h == g && a == b
  {
    hide TimesP1, TimesP5, Undo5, Rot64, Xor64, Wide8;
    var x, y := Wide8(a), Wide8(b);
    Before1(Xor64(h, TimesP5(x)), Xor64(g, TimesP5(y)));
    XorBack(h, TimesP5(x));
    XorBack(g, TimesP5(y));
    if h == g {
      Back5(x);
      Back5(y);
      SameWide8(a, b);
    }
  }

  lemma {:induction false} SameAvalanche(h: bv64, g: bv64)
    requires Avalanche(h) == Avalanche(g)
    ensures h == g
  {
    hide TimesP2, TimesP3, Undo2, Undo3, Fold33, Fold29, Fold32, Unfold29;
    UnfoldBack(TimesP3(Fold29(TimesP2(Fold33(h)))));
    UnfoldBack(TimesP3(Fold29(TimesP2(Fold33(g)))));
    Back3(Fold29(TimesP2(Fold33(h))));
    Back3(Fold29(TimesP2(Fold33(g))));
    UnfoldBack(TimesP2(Fold33(h)));
    UnfoldBack(TimesP2(Fold33(g)));
    Back2(Fold33(h));
    Back2(Fold33(g));
    UnfoldBack(h);
    UnfoldBack(g);
  }

  // ----- The last bytes -----

  lemma {:induction false} Tail1State(h: bv64, g: bv64, b: seq<Byte>)
    requires Tail1(h, b) == Tail1(g, b)
    ensures h == g
    decreases |b|
  {
    hide Eat1;
    if b != [] {
      Tail1State(Eat1(h, b[0]), Eat1(g, b[0]), b[1..]);
      Eats1(h, g, b[0], b[0]);
    }
  }

  /** For every tail, the hash tells what it started from. */
  lemma {:induction false} TailState(h: bv64, g: bv64, b: seq<Byte>)
    requires Tail8(h, b) == Tail8(g, b)
    ensures h == g
    decreases |b|
  {
    hide Eat8, Eat4, Tail1;
    if |b| >= 8 {
      TailState(Eat8(h, b[..8]), Eat8(g, b[..8]), b[8..]);
      Eats8(h, g, b[..8], b[..8]);
    } else if |b| >= 4 {
      Tail1State(Eat4(h, b[..4]), Eat4(g, b[..4]), b[4..]);
      Eats4(h, g, b[..4], b[..4]);
    } else {
      Tail1State(h, g, b);
    }
  }

  lemma {:induction false} Tail1Bytes(h: bv64, a: seq<Byte>, b: seq<Byte>)
    requires |a| < 4 && OnePiece(a, b, 8) && Tail1(h, a) == Tail1(h, b)
    ensures a == b
    decreases |a|
  {
    hide Eat1;
    if a != [] {
      if a[1..] == b[1..] {
        Tail1State(Eat1(h, a[0]), Eat1(h, b[0]), a[1..]);
        Eats1(h, h, a[0], b[0]);
      } else {
        Tail1Bytes(Eat1(h, a[0]), a[1..], b[1..]);
      }
      Rejoin(a, b, 1);
    }
  }

  lemma {:induction false} Tail4Bytes(h: bv64, a: seq<Byte>, b: seq<Byte>)
    requires 4 <= |a| < 8 && OnePiece(a, b, 8) && Tail4(h, a) == Tail4(h, b)
    ensures a == b
  {
    hide Eat4, Tail1;
    if a[4..] == b[4..] {
      Tail1State(Eat4(h, a[..4]), Eat4(h, b[..4]), a[4..]);
      Eats4(h, h, a[..4], b[..4]);
    } else {
      Tail1Bytes(Eat4(h, a[..4]), a[4..], b[4..]);
    }
    Rejoin(a, b, 4);
  }

  lemma {:induction false} TailBytes(h: bv64, a: seq<Byte>, b: seq<Byte>)
    requires OnePiece(a, b, 8) && Tail8(h, a) == Tail8(h, b)
    ensures a == b
    decreases |a|
  {
    hide Eat8, Eat4, Tail1;
    if |a| >= 8 {
      if a[8..] == b[8..] {
        TailState(Eat8(h, a[..8]), Eat8(h, b[..8]), a[8..]);
        Eats8(h, h, a[..8], b[..8]);
      } else {
        TailBytes(Eat8(h, a[..8]), a[8..], b[8..]);
      }
      Rejoin(a, b, 8);
    } else if |a| >= 4 {
      Tail4Bytes(h, a, b);
    } else {
      Tail1Bytes(h, a, b);
    }
  }

  // ----- The hash -----

  /** Whole stripes `p`, then less than a stripe. */
  lemma {:induction false} AfterStripes(seed: bv64, p: seq<Byte>, a: seq<Byte>)
    requires X.Rest(ALGO, p) == [] && |a| < 32
    ensures X.Stripes(ALGO, Start(seed), p + a) == X.Stripes(ALGO, Start(seed), p) && X.Rest(ALGO, p + a) == a
    ensures |p + a| >= 32 <==> p != []
  {
    hide Start, Stripe, X.Stripes;
    X.Resume(ALGO, Start(seed), p, a);
    assert [] + a == a;
    X.NoStripe(ALGO, X.Stripes(ALGO, Start(seed), p), a);
  }

  /** After the last full stripe, no change within one word, or of one byte, leaves the hash as it is. */
  lemma {:induction false} PieceMatters(seed: bv64, p: seq<Byte>, a: seq<Byte>, b: seq<Byte>)
    requires X.Rest(ALGO, p) == [] && |a| < 32 && OnePiece(a, b, 8) && Hash(seed, p + a) == Hash(seed, p + b)
    ensures a == b
  {
    hide Start, X.Stripes, X.Rest, Avalanche, Converge, Tail8, Short, Add64, Len64, OneOf;
    AfterStripes(seed, p, a);
    AfterStripes(seed, p, b);
    var h := Add64(if p != [] then Converge(X.Stripes(ALGO, Start(seed), p)) else Short(seed), Len64(|p + a|));
    SameAvalanche(Tail8(h, a), Tail8(h, b));
    TailBytes(h, a, b);
  }

  /** For an input shorter than a stripe different seeds give different hashes. */
  lemma {:induction false} SeedMatters(seed: bv64, other: bv64, a: seq<Byte>)
    requires |a| < 32 && Hash(seed, a) == Hash(other, a)
    ensures seed == other
  {
    hide Start, X.Stripes, Avalanche, Converge, Tail8, Add64, Len64;
    var h, g := Add64(Short(seed), Len64(|a|)), Add64(Short(other), Len64(|a|));
    SameAvalanche(Tail8(h, a), Tail8(g, a));
    TailState(h, g, a);
    AddBack(Short(seed), Len64(|a|));
    AddBack(Short(other), Len64(|a|));
    AddBack(seed, P5);
    AddBack(other, P5);
  }
}
