/** Values of the two hashes with seed 0, step by step. */
module XxKnown {
  import opened XxWords
  import X = XxStream
  import A = Xxh32
  import B = Xxh64

  /** Consecutive bytes. */
  function Four(k: Byte): (r: seq<Byte>)
    ensures |r| == 4
  {
    [k, k + 1, k + 2, k + 3]
  }

  function Eight(k: Byte): (r: seq<Byte>)
    ensures |r| == 8
  {
    [k, k + 1, k + 2, k + 3, k + 4, k + 5, k + 6, k + 7]
  }

  // ----- XXH64 -----

  lemma {:induction false} Empty64()
    ensures B.Hash(0, []) == 0xef46db3751d8e999
  {
  }

  lemma {:induction false} Begin64()
    ensures Add64(B.Short(0), Len64(3)) == 0x27d4eb2f165667c8
  {
  }

  lemma {:induction false} Abc64Steps()
    ensures B.Eat1(0x27d4eb2f165667c8, 0x61) == 0xe6d11bdc91f0215
    ensures B.Eat1(0xe6d11bdc91f0215, 0x62) == 0x791983e9ab307069
    ensures B.Eat1(0x791983e9ab307069, 0x63) == 0xe87a46f8b9a4c39e
    ensures B.Avalanche(0xe87a46f8b9a4c39e) == 0x44bc2cf5ad770999
  {
  }

  lemma {:induction false} Abc64()
    ensures B.Hash(0, [0x61, 0x62, 0x63]) == 0x44bc2cf5ad770999
  {
    hide Add64, Len64, B.Short, B.Eat1, B.Avalanche, B.Start, B.Converge, B.Stripe;
    var d: seq<Byte> := [0x61, 0x62, 0x63];
    X.NoStripe(B.ALGO, B.Start(0), d);
    Begin64();
    Abc64Steps();
    assert d[1..] == [0x62, 0x63] && d[1..][1..] == [0x63] && d[1..][1..][1..] == [];
  }

  lemma {:induction false} Words64()
    ensures Word64(Eight(0)) == 0x706050403020100
    ensures Word64(Eight(8)) == 0xf0e0d0c0b0a0908
    ensures Word64(Eight(16)) == 0x1716151413121110
    ensures Word64(Eight(24)) == 0x1f1e1d1c1b1a1918
  {
  }

  lemma {:induction false} Rounds64()
    ensures B.Start(0) == X.Acc(0x60ea27eeadc0b5d6, 0xc2b2ae3d27d4eb4f, 0x0, 0x61c8864e7a143579)
    ensures B.Round(0x60ea27eeadc0b5d6, 0x706050403020100) == 0xf4b53b57406b5e99
    ensures B.Round(0xc2b2ae3d27d4eb4f, 0xf0e0d0c0b0a0908) == 0xc3d34b511fc32561
    ensures B.Round(0x0, 0x1716151413121110) == 0xcb26c007c8a1553f
    ensures B.Round(0x61c8864e7a143579, 0x1f1e1d1c1b1a1918) == 0x9a44d001a7f91c07
  {
  }

  lemma {:induction false} Stripe64()
    ensures B.Stripe(B.Start(0), Eight(0) + Eight(8) + Eight(16) + Eight(24)) ==
      X.Acc(0xf4b53b57406b5e99, 0xc3d34b511fc32561, 0xcb26c007c8a1553f, 0x9a44d001a7f91c07)
  {
    hide Word64, B.Round, B.Start, Eight;
    Words64();
    Rounds64();
    var b := Eight(0) + Eight(8) + Eight(16) + Eight(24);
    assert b[0..8] == Eight(0)
      && b[8..16] == Eight(8)
      && b[16..24] == Eight(16)
      && b[24..32] == Eight(24);
  }

  lemma {:induction false} Converge64()
    ensures B.Converge(X.Acc(0xf4b53b57406b5e99, 0xc3d34b511fc32561, 0xcb26c007c8a1553f, 0x9a44d001a7f91c07))
      == 0xc845dbc88c411c2d
  {
  }

  lemma {:induction false} Count64()
    ensures Add64(0xc845dbc88c411c2d, Len64(45)) == 0xc845dbc88c411c5a
  {
  }

  lemma {:induction false} Word64At32()
    ensures Word64(Eight(32)) == 0x2726252423222120
  {
  }

  lemma {:induction false} Step64_8()
    ensures B.Eat8(0xc845dbc88c411c5a, Eight(32)) == 0xef1f7486253bde8d
  {
    hide Word64;
    Word64At32();
  }

  lemma {:induction false} Word32At40()
    ensures Word32(Four(40)) == 0x2b2a2928
  {
  }

  lemma {:induction false} Step64_4()
    ensures B.Eat4(0xef1f7486253bde8d, Four(40)) == 0xa246b855fd2a4741
  {
    hide Word32;
    Word32At40();
  }

  lemma {:induction false} Step64_1()
    ensures B.Eat1(0xa246b855fd2a4741, 44) == 0xf5b3eb29c01139da
    ensures B.Avalanche(0xf5b3eb29c01139da) == 0x10fdd84d6409abdf
  {
  }

  lemma {:induction false} LastPieces64(h: bv64)
    ensures B.Tail8(h, Eight(32) + Four(40) + [44]) == B.Eat1(B.Eat4(B.Eat8(h, Eight(32)), Four(40)), 44)
  {
    hide B.Eat8, B.Eat4, B.Eat1, Eight, Four;
    var r := Eight(32) + Four(40) + [44];
    assert r[..8] == Eight(32) && r[8..] == Four(40) + [44] && r[8..][..4] == Four(40) && r[8..][4..] == [44];
    assert r[8..][4..][1..] == [];
    var x := B.Eat8(h, Eight(32));
    assert B.Tail8(h, r) == B.Tail8(x, r[8..]) == B.Tail4(x, r[8..]);
    assert B.Tail1(B.Eat4(x, Four(40)), r[8..][4..]) == B.Eat1(B.Eat4(x, Four(40)), 44);
  }

  /** A full stripe, then a piece of each size. */
  lemma {:induction false} Long64()
    ensures B.Hash(0, Eight(0) + Eight(8) + Eight(16) + Eight(24)
                      + Eight(32) + Four(40) + [44]) == 0x10fdd84d6409abdf
  {
    hide Add64, Len64, B.Short, B.Eat8, B.Eat4, B.Eat1, B.Avalanche, B.Start, B.Converge, B.Stripe, Eight, Four,
      B.Tail8;
    var s, r := Eight(0) + Eight(8) + Eight(16) + Eight(24), Eight(32) + Four(40) + [44];
    var d := s + r;
    assert d == Eight(0) + Eight(8) + Eight(16) + Eight(24) + Eight(32) + Four(40) + [44];
    assert |d| == 45 && d[..32] == s && d[32..] == r;
    X.OneStripe(B.ALGO, B.Start(0), d);
    X.NoStripe(B.ALGO, B.Stripe(B.Start(0), s), r);
    Stripe64();
    Converge64();
    Count64();
    Step64_8();
    Step64_4();
    Step64_1();
    LastPieces64(0xc845dbc88c411c5a);
  }

  // ----- XXH32 -----

  lemma {:induction false} Empty32()
    ensures A.Hash(0, []) == 0x2cc5d05
  {
  }

  lemma {:induction false} Begin32()
    ensures Add32(A.Short(0), Len32(3)) == 0x165667b4
  {
  }

  lemma {:induction false} Abc32Steps()
    ensures A.Eat1(0x165667b4, 0x61) == 0xdca1dbe8
    ensures A.Eat1(0xdca1dbe8, 0x62) == 0x4f80fd3d
    ensures A.Eat1(0x4f80fd3d, 0x63) == 0x760a1e67
    ensures A.Avalanche(0x760a1e67) == 0x32d153ff
  {
  }

  lemma {:induction false} Abc32()
    ensures A.Hash(0, [0x61, 0x62, 0x63]) == 0x32d153ff
  {
    hide Add32, Len32, A.Short, A.Eat1, A.Avalanche, A.Start, A.Converge, A.Stripe;
    var d: seq<Byte> := [0x61, 0x62, 0x63];
    X.NoStripe(A.ALGO, A.Start(0), d);
    Begin32();
    Abc32Steps();
    assert d[1..] == [0x62, 0x63] && d[1..][1..] == [0x63] && d[1..][1..][1..] == [];
  }

  lemma {:induction false} Words32()
    ensures Word32(Four(0)) == 0x3020100
    ensures Word32(Four(4)) == 0x7060504
    ensures Word32(Four(8)) == 0xb0a0908
    ensures Word32(Four(12)) == 0xf0e0d0c
  {
  }

  lemma {:induction false} Rounds32()
    ensures A.Start(0) == X.Acc(0x24234428, 0x85ebca77, 0x0, 0x61c8864f)
    ensures A.Round(0x24234428, 0x3020100) == 0xf817bccb
    ensures A.Round(0x85ebca77, 0x7060504) == 0x222719b
    ensures A.Round(0x0, 0xb0a0908) == 0xd4b0c0a4
    ensures A.Round(0x61c8864f, 0xf0e0d0c) == 0xdebb7574
  {
  }

  lemma {:induction false} Stripe32()
    ensures A.Stripe(A.Start(0), Four(0) + Four(4) + Four(8) + Four(12)) ==
      X.Acc(0xf817bccb, 0x222719b, 0xd4b0c0a4, 0xdebb7574)
  {
    hide Word32, A.Round, A.Start, Four;
    Words32();
    Rounds32();
    var b := Four(0) + Four(4) + Four(8) + Four(12);
    assert b[0..4] == Four(0)
      && b[4..8] == Four(4)
      && b[8..12] == Four(8)
      && b[12..16] == Four(12);
  }

  lemma {:induction false} Converge32()
    ensures A.Converge(X.Acc(0xf817bccb, 0x222719b, 0xd4b0c0a4, 0xdebb7574))
      == 0xe3460f50
  {
  }

  lemma {:induction false} Count32()
    ensures Add32(0xe3460f50, Len32(21)) == 0xe3460f65
  {
  }

  lemma {:induction false} Word32At16()
    ensures Word32(Four(16)) == 0x13121110
  {
  }

  lemma {:induction false} Step32_4()
    ensures A.Eat4(0xe3460f65, Four(16)) == 0x186f3446
  {
    hide Word32;
    Word32At16();
  }

  lemma {:induction false} Step32_1()
    ensures A.Eat1(0x186f3446, 20) == 0x4d40e6e9
    ensures A.Avalanche(0x4d40e6e9) == 0xc6bab491
  {
  }

  lemma {:induction false} LastPieces32(h: bv32)
    ensures A.Tail4(h, Four(16) + [20]) == A.Eat1(A.Eat4(h, Four(16)), 20)
  {
    hide A.Eat4, A.Eat1, Four;
    var r := Four(16) + [20];
    assert r[..4] == Four(16) && r[4..] == [20] && r[4..][1..] == [];
    var x := A.Eat4(h, Four(16));
    assert A.Tail4(h, r) == A.Tail4(x, r[4..]) == A.Tail1(x, r[4..]);
    assert A.Tail1(x, r[4..]) == A.Eat1(x, 20);
  }

  /** A full stripe, then a piece of each size. */
  lemma {:induction false} Long32()
    ensures A.Hash(0, Four(0) + Four(4) + Four(8) + Four(12)
                      + Four(16) + [20]) == 0xc6bab491
  {
    hide Add32, Len32, A.Short, A.Eat4, A.Eat1, A.Avalanche, A.Start, A.Converge, A.Stripe, Eight, Four,
      A.Tail4;
    var s, r := Four(0) + Four(4) + Four(8) + Four(12), Four(16) + [20];
    var d := s + r;
    assert d == Four(0) + Four(4) + Four(8) + Four(12) + Four(16) + [20];
    assert |d| == 21 && d[..16] == s && d[16..] == r;
    X.OneStripe(A.ALGO, A.Start(0), d);
    X.NoStripe(A.ALGO, A.Stripe(A.Start(0), s), r);
    Stripe32();
    Converge32();
    Count32();
    Step32_4();
    Step32_1();
    LastPieces32(0xe3460f65);
  }
}
