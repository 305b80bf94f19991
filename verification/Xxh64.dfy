/** XXH64 in one call and in pieces. */
module Xxh64 {
  import opened XxWords
  import X = XxStream

  // ----- The primes -----

  function TimesP1(x: bv64): bv64 {
    x * 11400714785074694791
  }

  function TimesP2(x: bv64): bv64 {
    x * 14029467366897019727
  }

  function TimesP3(x: bv64): bv64 {
    x * 1609587929392839161
  }

  function TimesP5(x: bv64): bv64 {
    x * 2870177450012600261
  }

  const P1: bv64 := TimesP1(1)
  const P2: bv64 := TimesP2(1)
  const P3: bv64 := TimesP3(1)
  const P4: bv64 := 9650029242287828579
  const P5: bv64 := TimesP5(1)

  function Round(acc: bv64, input: bv64): bv64 {
    TimesP1(Rot64(Add64(acc, TimesP2(input)), 31))
  }

  function MergeRound(acc: bv64, val: bv64): bv64 {
    Add64(TimesP1(Xor64(acc, Round(0, val))), P4)
  }

  function Stripe(acc: X.Acc<bv64>, b: seq<Byte>): X.Acc<bv64> {
    if |b| < 32 then acc
    else X.Acc(Round(acc.v1, Word64(b[0..8])), Round(acc.v2, Word64(b[8..16])), Round(acc.v3, Word64(b[16..24])),
               Round(acc.v4, Word64(b[24..32])))
  }

  const ALGO: X.Algo<bv64> := X.Algo(32, Stripe)

  function Start(seed: bv64): X.Acc<bv64> {
    X.Acc(seed + P1 + P2, seed + P2, seed, seed - P1)
  }

  function Converge(a: X.Acc<bv64>): bv64 {
    var h := Rot64(a.v1, 1) + Rot64(a.v2, 7) + Rot64(a.v3, 12) + Rot64(a.v4, 18);
    MergeRound(MergeRound(MergeRound(MergeRound(h, a.v1), a.v2), a.v3), a.v4)
  }

  /** What an input that fills no stripe starts with. */
  function Short(seed: bv64): bv64 {
    Add64(seed, P5)
  }

  // ----- The last bytes -----

  function Eat8(h: bv64, b: seq<Byte>): bv64
    requires |b| == 8
  {
    Add64(TimesP1(Rot64(Xor64(h, Round(0, Word64(b))), 27)), P4)
  }

  function Eat4(h: bv64, b: seq<Byte>): bv64
    requires |b| == 4
  {
    Add64(TimesP2(Rot64(Xor64(h, TimesP1(Wide(Word32(b)))), 23)), P3)
  }

  function Eat1(h: bv64, b: Byte): bv64 {
    TimesP1(Rot64(Xor64(h, TimesP5(Wide8(b))), 11))
  }

  ghost function Tail8(h: bv64, b: seq<Byte>): bv64
    decreases |b|
  {
    if |b| < 8 then Tail4(h, b) else Tail8(Eat8(h, b[..8]), b[8..])
  }

  ghost function Tail4(h: bv64, b: seq<Byte>): bv64 {
    if |b| < 4 then Tail1(h, b) else Tail1(Eat4(h, b[..4]), b[4..])
  }

  ghost function Tail1(h: bv64, b: seq<Byte>): bv64
    decreases |b|
  {
    if b == [] then h else Tail1(Eat1(h, b[0]), b[1..])
  }

  function Fold33(x: bv64): bv64 {
    x ^ (x >> 33)
  }

  function Fold29(x: bv64): bv64 {
    x ^ (x >> 29)
  }

  function Fold32(x: bv64): bv64 {
    x ^ (x >> 32)
  }

  function Avalanche(h: bv64): bv64 {
    Fold32(TimesP3(Fold29(TimesP2(Fold33(h)))))
  }

  /** The value both ways of hashing must give. */
  ghost function Hash(seed: bv64, data: seq<Byte>): bv64 {
    var h := if |data| >= 32 then Converge(X.Stripes(ALGO, Start(seed), data)) else Short(seed);
    Avalanche(Tail8(Add64(h, Len64(|data|)), X.Rest(ALGO, data)))
  }

  /** The loops that both endings share. */
  method Finish(h: bv64, b: seq<Byte>, from: nat) returns (r: bv64)
    requires from <= |b|
    ensures r == Avalanche(Tail8(h, b[from..]))
  {
    hide Eat8, Eat4, Eat1, Avalanche;
    r := h;
    var p := from;
    while p + 8 <= |b|
      invariant from <= p <= |b| && Tail8(r, b[p..]) == Tail8(h, b[from..])
    {
      X.Slide(b, p, 8);
      r := Eat8(r, b[p..p + 8]);
      p := p + 8;
    }
    if p + 4 <= |b| {
      X.Slide(b, p, 4);
      r := Eat4(r, b[p..p + 4]);
      p := p + 4;
    }
    while p < |b|
      invariant from <= p <= |b| && Tail1(r, b[p..]) == Tail8(h, b[from..])
    {
      assert b[p..][0] == b[p] && b[p..][1..] == b[p + 1..];
      r := Eat1(r, b[p]);
      p := p + 1;
    }
    r := Avalanche(r);
  }

  /** XXH64_endian_align */
  method OneShot(input: seq<Byte>, seed: bv64) returns (h: bv64)
    ensures h == Hash(seed, input)
  {
    hide Converge, Start, Avalanche, Stripe, X.Stripes, X.Rest, Tail8, Short, Add64, Len64;
    var p := 0;
    assert input[0..] == input;
    if |input| >= 32 {
      var acc;
      acc, p := X.Consume(ALGO, Start(seed), input, 0);
      h := Converge(acc);
    } else {
      h := Short(seed);
      X.NoStripe(ALGO, Start(seed), input);
    }
    h := Add64(h, Len64(|input|));
    h := Finish(h, input, p);
  }

  /** The streaming state. */
  class State {
    var total: nat
    var feed: X.Feed<bv64>
    ghost var seed: bv64
    /** All input so far. */
    ghost var seen: seq<Byte>

    ghost predicate Valid()
      reads this
    {
      total == |seen| % W64 && X.Fed(ALGO, feed, Start(seed), seen)
    }

    /** XXH64_reset */
    constructor (seed: bv64)
      ensures Valid() && seen == [] && this.seed == seed
    {
      total := 0;
      feed := X.Feed(Start(seed), seq(32, _ => 0), 0);
      this.seed := seed;
      seen := [];
      new;
      X.NoStripe(ALGO, Start(seed), []);
    }

    /** XXH64_update */
    method Update(input: seq<Byte>)
      requires Valid()
      modifies this
      ensures Valid() && seen == old(seen) + input && seed == old(seed)
    {
      hide Start, X.Fed;
      AddMod(|seen|, |input|, W64);
      total := (total + |input|) % W64;
      feed := X.Update(ALGO, feed, input, Start(seed), seen);
      seen := seen + input;
    }

    /** XXH64_digest: the same as hashing everything at once, as long as the whole input is one that has a length. */
    method Digest() returns (h: bv64)
      requires Valid() && |seen| < W64
      ensures h == Hash(seed, seen)
    {
      hide Converge, Avalanche, Stripe, Start, X.Stripes, X.Rest, Tail8, Short, Add64, Len64;
      Small(|seen|);
      if total >= 32 {
        h := Converge(feed.acc);
      } else {
        X.NoStripe(ALGO, Start(seed), seen);
        StartSeed(seed);
        h := Short(feed.acc.v3);
      }
      LenOf64(|seen|);
      h := Add64(h, Len64(total));
      var bytes := feed.mem[..feed.memsize];
      assert bytes[0..] == bytes;
      h := Finish(h, bytes, 0);
    }
  }

  lemma {:induction false} Small(n: nat)
    requires n < W64
    ensures n % W64 == n
  {
  }

  lemma {:induction false} StartSeed(seed: bv64)
    ensures Start(seed).v3 == seed
  {
  }

  /** However the input is cut, into whatever pieces, streaming gives what one call gives. */
  method StreamedIsOneShot(pieces: seq<seq<Byte>>, whole: seq<Byte>, seed: bv64)
    returns (streamed: bv64, atOnce: bv64)
    requires whole == Flatten(pieces) && |whole| < W64
    ensures streamed == atOnce == Hash(seed, whole)
  {
    hide Hash;
    var st := new State(seed);
    for i := 0 to |pieces|
      invariant st.Valid() && st.seed == seed && st.seen == Flatten(pieces[..i]) && fresh(st)
    {
      assert pieces[..i + 1][..i] == pieces[..i];
      st.Update(pieces[i]);
    }
    assert pieces[..|pieces|] == pieces;
    streamed := st.Digest();
    atOnce := OneShot(whole, seed);
  }
}
