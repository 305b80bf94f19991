/** XXH32 in one call and in pieces. */
module Xxh32 {
  import opened XxWords
  import X = XxStream

  // ----- The primes -----

  function TimesP1(x: bv32): bv32 {
    x * 2654435761
  }

  function TimesP2(x: bv32): bv32 {
    x * 2246822519
  }

  function TimesP3(x: bv32): bv32 {
    x * 3266489917
  }

  function TimesP4(x: bv32): bv32 {
    x * 668265263
  }

  function TimesP5(x: bv32): bv32 {
    x * 374761393
  }

  const P1: bv32 := TimesP1(1)
  const P2: bv32 := TimesP2(1)
  const P5: bv32 := TimesP5(1)

  function Round(acc: bv32, input: bv32): bv32 {
    TimesP1(Rot32(Add32(acc, TimesP2(input)), 13))
  }

  function Stripe(acc: X.Acc<bv32>, b: seq<Byte>): X.Acc<bv32> {
    if |b| < 16 then acc
    else X.Acc(Round(acc.v1, Word32(b[0..4])), Round(acc.v2, Word32(b[4..8])), Round(acc.v3, Word32(b[8..12])),
               Round(acc.v4, Word32(b[12..16])))
  }

  const ALGO: X.Algo<bv32> := X.Algo(16, Stripe)

  function Start(seed: bv32): X.Acc<bv32> {
    X.Acc(seed + P1 + P2, seed + P2, seed, seed - P1)
  }

  function Converge(a: X.Acc<bv32>): bv32 {
    Add32(Add32(Add32(Rot32(a.v1, 1), Rot32(a.v2, 7)), Rot32(a.v3, 12)), Rot32(a.v4, 18))
  }

  /** What an input that fills no stripe starts with. */
  function Short(seed: bv32): bv32 {
    Add32(seed, P5)
  }

  // ----- The last bytes -----

  function Eat4(h: bv32, b: seq<Byte>): bv32
    requires |b| == 4
  {
    TimesP4(Rot32(Add32(h, TimesP3(Word32(b))), 17))
  }

  function Eat1(h: bv32, b: Byte): bv32 {
    TimesP1(Rot32(Add32(h, TimesP5(Byte32(b))), 11))
  }

  ghost function Tail4(h: bv32, b: seq<Byte>): bv32
    decreases |b|
  {
    if |b| < 4 then Tail1(h, b) else Tail4(Eat4(h, b[..4]), b[4..])
  }

  ghost function Tail1(h: bv32, b: seq<Byte>): bv32
    decreases |b|
  {
    if b == [] then h else Tail1(Eat1(h, b[0]), b[1..])
  }

  function Fold15(x: bv32): bv32 {
    x ^ (x >> 15)
  }

  function Fold13(x: bv32): bv32 {
    x ^ (x >> 13)
  }

  function Fold16(x: bv32): bv32 {
    x ^ (x >> 16)
  }

  function Avalanche(h: bv32): bv32 {
    Fold16(TimesP3(Fold13(TimesP2(Fold15(h)))))
  }

  /** The value both ways of hashing must give. */
  ghost function Hash(seed: bv32, data: seq<Byte>): bv32 {
    var h := if |data| >= 16 then Converge(X.Stripes(ALGO, Start(seed), data)) else Short(seed);
    Avalanche(Tail4(Add32(h, Len32(|data|)), X.Rest(ALGO, data)))
  }

  /** The loops that both endings share. */
  method Finish(h: bv32, b: seq<Byte>, from: nat) returns (r: bv32)
    requires from <= |b|
    ensures r == Avalanche(Tail4(h, b[from..]))
  {
    hide Eat4, Eat1, Avalanche;
    r := h;
    var p := from;
    while p + 4 <= |b|
      invariant from <= p <= |b| && Tail4(r, b[p..]) == Tail4(h, b[from..])
    {
      X.Slide(b, p, 4);
      r := Eat4(r, b[p..p + 4]);
      p := p + 4;
    }
    while p < |b|
      invariant from <= p <= |b| && Tail1(r, b[p..]) == Tail4(h, b[from..])
    {
      assert b[p..][0] == b[p] && b[p..][1..] == b[p + 1..];
      r := Eat1(r, b[p]);
      p := p + 1;
    }
    r := Avalanche(r);
  }

  /** XXH32_endian_align */
  method OneShot(input: seq<Byte>, seed: bv32) returns (h: bv32)
    ensures h == Hash(seed, input)
  {
    hide Converge, Start, Avalanche, Stripe, X.Stripes, X.Rest, Tail4, Short, Add32, Len32;
    var p := 0;
    assert input[0..] == input;
    if |input| >= 16 {
      var acc;
      acc, p := X.Consume(ALGO, Start(seed), input, 0);
      h := Converge(acc);
    } else {
      h := Short(seed);
      X.NoStripe(ALGO, Start(seed), input);
    }
    h := Add32(h, Len32(|input|));
    h := Finish(h, input, p);
  }

  /** The streaming state. The length is kept modulo 2^32, with a flag for lengths of 16 and more. */
  class State {
    var total: nat
    var large: bool
    var feed: X.Feed<bv32>
    ghost var seed: bv32
    /** All input so far. */
    ghost var seen: seq<Byte>

    ghost predicate Valid()
      reads this
    {
      && total == |seen| % W32 && (large <==> |seen| >= 16)
      && X.Fed(ALGO, feed, Start(seed), seen)
    }

    /** XXH32_reset */
    constructor (seed: bv32)
      ensures Valid() && seen == [] && this.seed == seed
    {
      total := 0;
      large := false;
      feed := X.Feed(Start(seed), seq(16, _ => 0), 0);
      this.seed := seed;
      seen := [];
      new;
      X.NoStripe(ALGO, Start(seed), []);
    }

    /** XXH32_update */
    method Update(input: seq<Byte>)
      requires Valid()
      modifies this
      ensures Valid() && seen == old(seen) + input && seed == old(seed)
    {
      hide Start, X.Fed;
      AddMod(|seen|, |input|, W32);
      Crosses(|seen|, |input|);
      total := (total + |input| % W32) % W32;
      large := large || |input| >= 16 || total >= 16;
      feed := X.Update(ALGO, feed, input, Start(seed), seen);
      seen := seen + input;
    }

    /** XXH32_digest: the same as hashing everything at once, for every input. */
    method Digest() returns (h: bv32)
      requires Valid()
      ensures h == Hash(seed, seen)
    {
      hide Converge, Avalanche, Stripe, Start, X.Stripes, X.Rest, Tail4, Short, Add32, Len32;
      if large {
        h := Converge(feed.acc);
      } else {
        X.NoStripe(ALGO, Start(seed), seen);
        StartSeed(seed);
        h := Short(feed.acc.v3);
      }
      LenOf32(|seen|);
      h := Add32(h, Len32(total));
      var bytes := feed.mem[..feed.memsize];
      assert bytes[0..] == bytes;
      h := Finish(h, bytes, 0);
    }
  }

  lemma {:induction false} StartSeed(seed: bv32)
    ensures Start(seed).v3 == seed
  {
  }

  /** The wrapped length and the flag still tell when 16 bytes have come. */
  lemma {:induction false} Crosses(a: nat, b: nat)
    ensures a >= 16 || b >= 16 || (a + b) % W32 >= 16 <==> a + b >= 16
  {
  }

  /** However the input is cut, into whatever pieces, streaming gives what one call gives. */
  method StreamedIsOneShot(pieces: seq<seq<Byte>>, whole: seq<Byte>, seed: bv32)
    returns (streamed: bv32, atOnce: bv32)
    requires whole == Flatten(pieces)
    ensures streamed == atOnce == Hash(seed, whole)
  {
    hide Hash;
    var st := new State(seed);
    for i := 0 to |pieces|
      invariant st.Valid() && st.seed == seed && st.seen == Flatten(pieces[..i]) && fresh(st)
    {
      assert pieces[..i + 1][..i] == pieces[..i];
      st.Update(pieces[i]);
    }
    assert pieces[..|pieces|] == pieces;
    streamed := st.Digest();
    atOnce := OneShot(whole, seed);
  }
}
