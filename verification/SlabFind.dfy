/** The scans over occupancy bits, and what keeps a pool's chunk pages in order. */
module SlabFind {
  import opened Triangular
  import opened RoundUp
  import opened Words
  import opened SlabList
  import opened SlabRuns
  import opened SlabSlots
  import opened SlabChunks

  /** The lowest clear bit among bits [lo, hi). */
  method LowestClear(x: nat, lo: nat, hi: nat) returns (i: nat)
    requires exists j: nat :: lo <= j < hi && !Bit(x, j)
    ensures lo <= i < hi && !Bit(x, i) && forall j: nat :: lo <= j < i ==> Bit(x, j)
  {
    hide Bit;
    i := lo;
    while Bit(x, i)
      invariant lo <= i < hi && forall j: nat :: lo <= j < i ==> Bit(x, j)
      decreases hi - i
    {
      i := i + 1;
    }
  }

  /** The first chunk that is not taken, found as each class looks for it. */
  method FindClear(p: Pool, i: nat) returns (c: nat)
    requires i < |p.m.pages| == |p.words| && IsChunks(p.m, i) && MapOk(p, i) && 3 <= ShiftOf(p.m.pages[i]) <= 11
    requires !Full(p, i)
    ensures Chunk(p, i, c) && !Used(p, i, c)
    ensures forall e: nat :: e < c ==> Used(p, i, e)
  {
    hide Bit, Pow2, Shr;
    Powers();
    var d := p.m.pages[i];
    match d.kind
    case Exact =>
      ClearInPage(p, i);
      c := LowestClear(d.slab, 0, 64);
    case Big =>
      ClearInPage(p, i);
      var b := LowestClear(d.slab, 32, 32 + Count(d.slab % 16));
      c := b - 32;
    case Small =>
      SmallFull(p, i);
      var n := 0;
      while p.words[i][n] == BUSY
        invariant 0 <= n < |p.words[i]|
        invariant forall w :: 0 <= w < n ==> p.words[i][w] == BUSY
        decreases |p.words[i]| - n
      {
        n := n + 1;
      }
      Pow64();
      AllBits(p.words[i][n], 64);
      var b := LowestClear(p.words[i][n], 0, 64);
      c := n * 64 + b;
      Split64(n, b);
      SmallBefore(p, i, n, b);
  }

  lemma {:induction false} ClearInPage(p: Pool, i: nat)
    requires i < |p.m.pages| == |p.words| && MapOk(p, i) && 3 <= ShiftOf(p.m.pages[i]) <= 11 && !Full(p, i)
    ensures p.m.pages[i].kind == Exact ==> exists j: nat :: j < 64 && !Bit(p.m.pages[i].slab, j)
    ensures p.m.pages[i].kind == Big ==>
      exists j: nat :: 32 <= j < 32 + Count(p.m.pages[i].slab % 16) && !Bit(p.m.pages[i].slab, j)
  {
    hide Bit, Pow2, Shr;
    Powers();
    var c: nat :| c < Count(ShiftOf(p.m.pages[i])) && !Used(p, i, c);
    var b: nat := c + 32;
    assert p.m.pages[i].kind == Exact ==> !Bit(p.m.pages[i].slab, c);
    assert p.m.pages[i].kind == Big ==> !Bit(p.m.pages[i].slab, b);
  }

  lemma {:induction false} SmallBefore(p: Pool, i: nat, n: nat, b: nat)
    requires i < |p.m.pages| == |p.words| && p.m.pages[i].kind == Small && MapOk(p, i) && n < |p.words[i]| && b < 64
    requires forall w :: 0 <= w < n ==> p.words[i][w] == BUSY
    requires forall j: nat :: j < b ==> Bit(p.words[i][n], j)
    ensures forall e: nat :: e < n * 64 + b ==> Used(p, i, e)
  {
    hide Bit, Pow2, Shr;
    Pow64();
    forall e: nat | e < n * 64 + b ensures Used(p, i, e) {
      if e / 64 < n {
        AllBits(p.words[i][e / 64], 64);
      } else {
        assert e / 64 == n;
        assert Bit(p.words[i][n], e % 64);
      }
    }
  }

  /** Whether a page has no chunk taken, by word comparisons. */
  method IsIdle(p: Pool, i: nat) returns (idle: bool)
    requires i < |p.m.pages| == |p.words| && IsChunks(p.m, i) && MapOk(p, i) && 3 <= ShiftOf(p.m.pages[i]) <= 11
    ensures idle <==> forall c: nat :: !Taken(p, i, c)
  {
    hide Bit, Pow2, Shr, Taken;
    var d := p.m.pages[i];
    match d.kind
    case Exact =>
      idle := d.slab == 0;
      ExactIdle(p, i);
    case Big =>
      idle := Shr(d.slab, 32) == 0;
      BigIdle(p, i);
    case Small =>
      SmallWords(p, i);
      idle := Shr(p.words[i][0], Reserved(d.slab)) == 0;
      var n := 1;
      while idle && n < |p.words[i]|
        invariant 1 <= n <= |p.words[i]|
        invariant idle <==> Shr(p.words[i][0], Reserved(d.slab)) == 0 && forall w :: 1 <= w < n ==> p.words[i][w] == 0
      {
        idle := p.words[i][n] == 0;
        n := n + 1;
      }
      SmallIdle(p, i);
  }

  lemma {:induction false} SmallWords(p: Pool, i: nat)
    requires i < |p.m.pages| == |p.words| && p.m.pages[i].kind == Small && MapOk(p, i)
    ensures 0 < |p.words[i]|
  {
    Geometry(p.m.pages[i].slab);
  }

  lemma {:induction false} ExactIdle(p: Pool, i: nat)
    requires i < |p.m.pages| == |p.words| && p.m.pages[i].kind == Exact && MapOk(p, i)
    ensures p.m.pages[i].slab == 0 <==> forall c: nat :: !Taken(p, i, c)
  {
    hide Bit, Pow2, Shr;
    Powers();
    NoBits(p.m.pages[i].slab, 64);
    if p.m.pages[i].slab != 0 {
      var c: nat :| c < 64 && Bit(p.m.pages[i].slab, c);
      assert Taken(p, i, c);
    }
  }

  lemma {:induction false} BigIdle(p: Pool, i: nat)
    requires i < |p.m.pages| == |p.words| && p.m.pages[i].kind == Big && MapOk(p, i)
    ensures Shr(p.m.pages[i].slab, 32) == 0 <==> forall c: nat :: !Taken(p, i, c)
  {
    hide Bit, Pow2, Shr;
    var x, n := p.m.pages[i].slab, Count(p.m.pages[i].slab % 16);
    NoBits(Shr(x, 32), n);
    forall c: nat ensures Used(p, i, c) <==> Bit(Shr(x, 32), c) { HighBit(x, 32, c); }
    if Shr(x, 32) != 0 {
      var c: nat :| c < n && Bit(Shr(x, 32), c);
      assert Taken(p, i, c);
    }
  }

  lemma {:induction false} SmallIdle(p: Pool, i: nat)
    requires i < |p.m.pages| == |p.words| && p.m.pages[i].kind == Small && MapOk(p, i) && 0 < |p.words[i]|
    ensures
      (Shr(p.words[i][0], Reserved(p.m.pages[i].slab)) == 0 && forall w :: 1 <= w < |p.words[i]| ==> p.words[i][w] == 0)
      <==> forall c: nat :: !Taken(p, i, c)
  {
    hide Bit, Pow2, Shr;
    var n := Reserved(p.m.pages[i].slab);
    Geometry(p.m.pages[i].slab);
    if Shr(p.words[i][0], n) != 0 {
      var c := SmallTaken0(p, i);
    } else if w :| 1 <= w < |p.words[i]| && p.words[i][w] != 0 {
      var c := SmallTaken(p, i, w);
    } else {
      forall c: nat ensures !Taken(p, i, c) { SmallFree(p, i, c); }
    }
  }

  lemma {:induction false} SmallTaken0(p: Pool, i: nat) returns (c: nat)
    requires i < |p.m.pages| == |p.words| && p.m.pages[i].kind == Small && MapOk(p, i) && 0 < |p.words[i]|
    requires Shr(p.words[i][0], Reserved(p.m.pages[i].slab)) != 0
    ensures Taken(p, i, c)
  {
    hide Bit, Pow2;
    var n, x := Reserved(p.m.pages[i].slab), p.words[i][0];
    Geometry(p.m.pages[i].slab);
    ShrBound(x, n, 64);
    NoBits(Shr(x, n), 64 - n);
    var b: nat :| b < 64 - n && Bit(Shr(x, n), b);
    HighBit(x, n, b);
    c := n + b;
    assert c / 64 == 0 && c % 64 == c;
  }

  lemma {:induction false} ShrBound(x: nat, k: nat, n: nat)
    requires x < Pow2(n) && k <= n
    ensures Shr(x, k) < Pow2(n - k)
    decreases k
  {
    if k > 0 {
      Half(x, n);
      ShrBound(x / 2, k - 1, n - 1);
    }
  }

  lemma {:induction false} SmallTaken(p: Pool, i: nat, w: nat) returns (c: nat)
    requires i < |p.m.pages| == |p.words| && p.m.pages[i].kind == Small && MapOk(p, i) && 1 <= w < |p.words[i]|
    requires p.words[i][w] != 0
    ensures Taken(p, i, c)
  {
    hide Bit, Pow2;
    Geometry(p.m.pages[i].slab);
    NoBits(p.words[i][w], 64);
    var b: nat :| b < 64 && Bit(p.words[i][w], b);
    c := w * 64 + b;
    Split64(w, b);
  }

  lemma {:induction false} SmallFree(p: Pool, i: nat, c: nat)
    requires i < |p.m.pages| == |p.words| && p.m.pages[i].kind == Small && MapOk(p, i) && 0 < |p.words[i]|
    requires Shr(p.words[i][0], Reserved(p.m.pages[i].slab)) == 0
    requires forall w :: 1 <= w < |p.words[i]| ==> p.words[i][w] == 0
    ensures !Taken(p, i, c)
  {
    hide Bit, Pow2, Shr;
    var n := Reserved(p.m.pages[i].slab);
    Geometry(p.m.pages[i].slab);
    if c / 64 < |p.words[i]| {
      if c < 64 {
        if c >= n {
          HighBit(p.words[i][0], n, c - n);
          ZeroBits(c - n);
        }
      } else {
        ZeroBits(c % 64);
      }
    }
  }
}
