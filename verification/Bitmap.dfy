/** Bitmaps of 64-bit words: word-level search, setting, clearing, and the search for a clear area. */
module Bitmap {
  import opened Triangular
  import opened RoundUp
  import opened Words

  const ONES: nat := 0xffff_ffff_ffff_ffff

  type Map = seq<nat>

  ghost predicate Words64(m: Map) {
    forall w :: 0 <= w < |m| ==> m[w] < Pow2(64)
  }

  /** Bit `i` of the bitmap. */
  predicate BitAt(m: Map, i: nat) {
    i / 64 < |m| && Bit(m[i / 64], i % 64)
  }

  // ----- Masks -----

  /** ~0UL << (start & 63), in 64 bits */
  function FirstMask(start: nat): nat {
    Shl(Shr(ONES, start % 64), start % 64)
  }

  /** ~0UL >> (-nbits & 63) */
  function LastMask(nbits: nat): nat {
    Shr(ONES, (64 - nbits % 64) % 64)
  }

  lemma {:induction false} OnesBit(i: nat)
    ensures Bit(ONES, i) <==> i < 64
  {
    hide Bit;
    Pow64();
    AllBits(ONES, 64);
    if i >= 64 { BitBound(ONES, i, 64); }
  }

  lemma {:induction false} ShrBit(x: nat, k: nat, i: nat)
    ensures Bit(Shr(x, k), i) <==> Bit(x, k + i)
  {
    HighBit(x, k, i);
  }

  lemma {:induction false} FirstMaskBit(start: nat, i: nat)
    ensures Bit(FirstMask(start), i) <==> start % 64 <= i < 64
  {
    hide Bit, Shl, Shr;
    var s := start % 64;
    ShlBit(Shr(ONES, s), s, i);
    if i >= s {
      ShrBit(ONES, s, i - s);
      OnesBit(i);
    }
  }

  lemma {:induction false} LastMaskBit(nbits: nat, i: nat)
    ensures Bit(LastMask(nbits), i) <==> i < if nbits % 64 == 0 then 64 else nbits % 64
  {
    hide Bit, Shr;
    var k := (64 - nbits % 64) % 64;
    ShrBit(ONES, k, i);
    OnesBit(k + i);
  }

  lemma {:induction false} MaskBounds(start: nat)
    ensures FirstMask(start) < Pow2(64) && LastMask(start) < Pow2(64)
  {
    hide Pow2;
    Pow64();
    ShrLess(ONES, (64 - start % 64) % 64, 64);
    ShrLess(ONES, start % 64, 64);
    ShlLess(Shr(ONES, start % 64), start % 64, 64 - start % 64);
  }

  lemma {:induction false} ShrLess(x: nat, k: nat, n: nat)
    requires x < Pow2(n) && k <= n
    ensures Shr(x, k) < Pow2(n - k) <= Pow2(n)
    decreases k
  {
    Pow2Mono(n - k, n);
    if k > 0 {
      Half(x, n);
      ShrLess(x / 2, k - 1, n - 1);
    }
  }

  lemma {:induction false} ShlLess(x: nat, k: nat, n: nat)
    requires x < Pow2(n)
    ensures Shl(x, k) < Pow2(n + k)
    decreases k
  {
    if k > 0 { ShlLess(x, k - 1, n); }
  }

  // ----- _find_next_bit -----

  /** Bit `i`, or its complement. */
  predicate Wanted(m: Map, invert: bool, i: nat) {
    i / 64 < |m| && Bit(m[i / 64], i % 64) != invert
  }

  function Flip(invert: bool): nat {
    if invert then ONES else 0
  }

  lemma {:induction false} FlipBit(x: nat, invert: bool, i: nat)
    requires x < Pow2(64) && i < 64
    ensures Bit(Xor(x, Flip(invert)), i) <==> Bit(x, i) != invert
    ensures Xor(x, Flip(invert)) < Pow2(64)
  {
    hide Bit, Xor, Pow2;
    XorBit(x, Flip(invert), i);
    OnesBit(i);
    ZeroBits(i);
    Pow64();
    Pow2Mono(0, 64);
    XorBound(x, Flip(invert), 64);
  }

  /** The word at `w` as the search sees it. */
  function Fetch(m: Map, invert: bool, w: nat): nat
    requires w < |m|
  {
    Xor(m[w], Flip(invert))
  }

  lemma {:induction false} FetchBit(m: Map, invert: bool, w: nat, b: nat)
    requires Words64(m) && w < |m| && b < 64
    ensures Bit(Fetch(m, invert, w), b) <==> Wanted(m, invert, w * 64 + b)
    ensures Fetch(m, invert, w) < Pow2(64)
  {
    hide Bit, Xor, Pow2;
    FlipBit(m[w], invert, b);
    assert (w * 64 + b) / 64 == w && (w * 64 + b) % 64 == b;
  }

  /** The word-level search is the bit-by-bit one: the first wanted bit at or after `start`, or `nbits`. */
  method FindNextBit(m: Map, nbits: nat, start: nat, invert: bool) returns (r: nat)
    requires Words64(m) && nbits <= |m| * 64
    ensures r <= nbits && (start < nbits ==> start <= r)
    ensures start >= nbits ==> r == nbits
    ensures forall i: nat :: start <= i < r ==> !Wanted(m, invert, i)
    ensures r < nbits ==> Wanted(m, invert, r)
  {
    hide Bit, Xor, And, Pow2, Shl, Shr, Wanted, Fetch, Ffs, FirstMask;
    if nbits == 0 || start >= nbits {
      return nbits;
    }
    var w := start / 64;
    var tmp: nat := And(Fetch(m, invert, w), FirstMask(start));
    FirstWord(m, invert, start);
    var at: nat := w * 64;
    while tmp == 0
      invariant at % 64 == 0 && at / 64 < |m| && at < nbits && at + 64 > start && tmp < Pow2(64)
      invariant forall i: nat :: start <= i < at ==> !Wanted(m, invert, i)
      invariant forall b: nat :: b < 64 ==> (Bit(tmp, b) <==> at + b >= start && Wanted(m, invert, at + b))
      decreases nbits - at
    {
      NoneHere(m, invert, start, at, tmp);
      at := at + 64;
      if at >= nbits {
        return nbits;
      }
      tmp := Fetch(m, invert, at / 64);
      NextWord(m, invert, at);
    }
    FfsBit(tmp, 64);
    r := at + Ffs(tmp);
    Found(m, invert, start, at, tmp);
    if r > nbits {
      r := nbits;
    }
  }

  lemma {:induction false} FirstWord(m: Map, invert: bool, start: nat)
    requires Words64(m) && start / 64 < |m|
    ensures var at := start / 64 * 64; var tmp := And(Fetch(m, invert, start / 64), FirstMask(start));
      && tmp < Pow2(64)
      && forall b: nat :: b < 64 ==> (Bit(tmp, b) <==> at + b >= start && Wanted(m, invert, at + b))
  {
    hide Bit, Xor, And, Pow2, Wanted, Fetch, FirstMask;
    var w := start / 64;
    FetchBit(m, invert, w, 0);
    AndBound(Fetch(m, invert, w), FirstMask(start), 64);
    forall b: nat | b < 64
      ensures Bit(And(Fetch(m, invert, w), FirstMask(start)), b) <==>
        w * 64 + b >= start && Wanted(m, invert, w * 64 + b)
    {
      AndBit(Fetch(m, invert, w), FirstMask(start), b);
      FetchBit(m, invert, w, b);
      FirstMaskBit(start, b);
    }
  }

  lemma {:induction false} NextWord(m: Map, invert: bool, at: nat)
    requires Words64(m) && at % 64 == 0 && at / 64 < |m|
    ensures Fetch(m, invert, at / 64) < Pow2(64)
    ensures forall b: nat :: b < 64 ==> (Bit(Fetch(m, invert, at / 64), b) <==> Wanted(m, invert, at + b))
  {
    hide Bit, Xor, Pow2, Wanted, Fetch;
    FetchBit(m, invert, at / 64, 0);
    forall b: nat | b < 64 ensures Bit(Fetch(m, invert, at / 64), b) <==> Wanted(m, invert, at + b) {
      FetchBit(m, invert, at / 64, b);
    }
  }

  lemma {:induction false} NoneHere(m: Map, invert: bool, start: nat, at: nat, tmp: nat)
    requires tmp == 0 && forall b: nat :: b < 64 ==> (Bit(tmp, b) <==> at + b >= start && Wanted(m, invert, at + b))
    ensures forall i: nat :: at <= i < at + 64 && start <= i ==> !Wanted(m, invert, i)
  {
    hide Bit, Wanted;
    forall i: nat | at <= i < at + 64 && start <= i ensures !Wanted(m, invert, i) {
      ZeroBits(i - at);
      assert Bit(tmp, i - at) <==> at + (i - at) >= start && Wanted(m, invert, at + (i - at));
    }
  }

  lemma {:induction false} Found(m: Map, invert: bool, start: nat, at: nat, tmp: nat)
    requires 0 < tmp < Pow2(64)
    requires forall b: nat :: b < 64 ==> (Bit(tmp, b) <==> at + b >= start && Wanted(m, invert, at + b))
    ensures Ffs(tmp) < 64 && at + Ffs(tmp) >= start && Wanted(m, invert, at + Ffs(tmp))
    ensures forall i: nat :: at <= i < at + Ffs(tmp) && start <= i ==> !Wanted(m, invert, i)
  {
    hide Bit, Wanted, Ffs;
    FfsBit(tmp, 64);
    forall i: nat | at <= i < at + Ffs(tmp) && start <= i ensures !Wanted(m, invert, i) {
      assert Bit(tmp, i - at) <==> at + (i - at) >= start && Wanted(m, invert, at + (i - at));
    }
  }

  // ----- Aligning -----

  const WORD: nat := 0x1_0000_0000_0000_0000

  /** The distance from `x` to the next multiple of `a`. */
  function Gap(x: nat, a: nat): (d: nat)
    requires a > 0
    ensures d < a
  {
    (a - Home(x, a)) % a
  }

  /** The least index from `i` on that, with the offset added, is a multiple of `a`. */
  function Up(i: nat, off: nat, a: nat): (r: nat)
    requires a > 0
    ensures i <= r < i + a
  {
    i + Gap(i + off, a)
  }

  predicate Aligned(i: nat, off: nat, a: nat)
    requires a > 0
  {
    Home(i + off, a) == 0
  }

  lemma {:induction false} ModIs(x: nat, q: int, r: nat, a: nat)
    requires a > 0 && x == q * a + r && r < a
    ensures Home(x, a) == r
  {
    DivModUnique(x, q, r, a);
  }

  lemma {:induction false} HomeIs(x: nat, a: nat) returns (q: nat)
    requires a > 0
    ensures x == q * a + Home(x, a)
  {
    q := x / a;
  }

  lemma {:induction false} UpAligned(i: nat, off: nat, a: nat)
    requires a > 0
    ensures Aligned(Up(i, off, a), off, a)
  {
    hide Home;
    var q := HomeIs(i + off, a);
    var r := Home(i + off, a);
    if r == 0 {
      GapZero(a);
    } else {
      GapSome(a, r);
      assert i + off + (a - r) == (q + 1) * a + 0;
      ModIs(i + off + (a - r), q + 1, 0, a);
    }
  }

  lemma {:induction false} GapZero(a: nat)
    requires a > 0
    ensures a % a == 0
  {
    DivModUnique(a, 1, 0, a);
  }

  lemma {:induction false} GapSome(a: nat, r: nat)
    requires 0 < r < a
    ensures (a - r) % a == a - r
  {
    DivModUnique(a - r, 0, a - r, a);
  }

  lemma {:induction false} UpLeast(i: nat, off: nat, a: nat, j: nat)
    requires a > 0 && i <= j && Aligned(j, off, a)
    ensures Up(i, off, a) <= j
  {
    hide Home;
    var q := HomeIs(i + off, a);
    var r := Home(i + off, a);
    var p := HomeIs(j + off, a);
    if r == 0 {
      GapZero(a);
    } else {
      GapSome(a, r);
      Above(p, q, a, r, j + off);
    }
  }

  lemma {:induction false} Above(p: nat, q: nat, a: nat, r: nat, y: nat)
    requires 0 < r < a && y == p * a && y >= q * a + r
    ensures y >= (q + 1) * a
  {
    if p <= q { Times(p, q, a); } else { Times(q + 1, p, a); }
  }

  lemma {:induction false} Times(p: nat, q: nat, a: nat)
    requires p <= q
    ensures p * a <= q * a
  {
  }

  /** x & ~mask for mask == a - 1 */
  function Down(x: nat, a: nat): nat
    requires a > 0
  {
    x - Home(x, a)
  }

  /** __ALIGN_MASK(index + offset, mask) - offset in 64-bit arithmetic */
  function AlignCode(index: nat, off: nat, a: nat): nat
    requires a > 0
  {
    (Down(((index + off) % WORD + (a - 1)) % WORD, a) + WORD - off % WORD) % WORD
  }

  /** Gap from the remainder after rounding up. */
  lemma {:induction false} GapFrom(s: nat, a: nat, m: int, h: nat)
    requires a > 0 && s + a - 1 == m * a + h && h < a
    ensures Gap(s, a) == a - 1 - h
  {
    hide Home;
    if h == a - 1 {
      ModIs(s, m, 0, a);
      GapZero(a);
    } else {
      assert s == (m - 1) * a + (h + 1);
      ModIs(s, m - 1, h + 1, a);
      GapSome(a, h + 1);
    }
  }

  lemma {:induction false} Rounded(s: nat, a: nat, k: nat) returns (v: nat)
    requires a > 0 && WORD == k * a
    ensures Down((s % WORD + (a - 1)) % WORD, a) == s + Gap(s, a) - v * WORD
  {
    hide Home, Gap;
    var x, t := s % WORD, s / WORD;
    var y, u := (x + (a - 1)) % WORD, (x + (a - 1)) / WORD;
    v := t + u;
    var p := HomeIs(y, a);
    Regroup(p, v, k, a);
    assert s + a - 1 == y + v * WORD;
    GapFrom(s, a, p + v * k, Home(y, a));
  }

  lemma {:induction false} Unwrap(r: nat, v: nat, z: nat, off: nat)
    requires r < WORD && off < WORD && z == r + off - v * WORD
    ensures (z + WORD - off % WORD) % WORD == r
  {
  }

  /** The wrap-around of the 64-bit sums cancels out. */
  lemma {:induction false} AlignIsUp(index: nat, off: nat, a: nat, k: nat)
    requires a > 0 && WORD == k * a && off < WORD && index + a <= WORD
    ensures AlignCode(index, off, a) == Up(index, off, a)
  {
    hide Home, Gap, Down;
    var v := Rounded(index + off, a, k);
    Unwrap(Up(index, off, a), v, Down(((index + off) % WORD + (a - 1)) % WORD, a), off);
  }

  lemma {:induction false} Regroup(p: nat, v: nat, k: nat, a: nat)
    ensures (p + v * k) * a == p * a + v * (k * a)
  {
  }

  // ----- bitmap_find_next_zero_area_off -----

  /** `nr` clear bits from `i` on, inside the bitmap, suitably aligned. */
  ghost predicate Area(m: Map, size: nat, start: nat, nr: nat, off: nat, a: nat, i: nat)
    requires a > 0
  {
    start <= i && i + nr <= size && Aligned(i, off, a) && forall j: nat :: i <= j < i + nr ==> Wanted(m, true, j)
  }

  /** The promise: the least area, or a value above `size` when there is none. */
  ghost predicate Least(m: Map, size: nat, start: nat, nr: nat, off: nat, a: nat, r: nat)
    requires a > 0
  {
    if r <= size then
      Area(m, size, start, nr, off, a, r) && forall i: nat :: i < r ==> !Area(m, size, start, nr, off, a, i)
    else forall i: nat :: !Area(m, size, start, nr, off, a, i)
  }

  /** No area begins before `from`. */
  ghost predicate NoneBefore(m: Map, size: nat, start: nat, nr: nat, off: nat, a: nat, from: nat)
    requires a > 0
  {
    forall i: nat :: i < from ==> !Area(m, size, start, nr, off, a, i)
  }

  /** The first clear bit at or after `from`, or `size`. */
  ghost predicate FirstClear(m: Map, size: nat, from: nat, z: nat) {
    && z <= size && (from < size ==> from <= z) && (from >= size ==> z == size)
    && (forall i: nat :: from <= i < z ==> !Wanted(m, true, i)) && (z < size ==> Wanted(m, true, z))
  }

  /** An area begins at a clear bit, so not before the aligned first clear bit. */
  lemma {:induction false} SkipToClear(m: Map, size: nat, start: nat, nr: nat, off: nat, a: nat, from: nat, z: nat)
    requires a > 0 && nr > 0 && NoneBefore(m, size, start, nr, off, a, from) && FirstClear(m, size, from, z)
    ensures NoneBefore(m, size, start, nr, off, a, Up(z, off, a))
  {
    hide Up, Aligned, Wanted;
    forall i: nat | i < Up(z, off, a) ensures !Area(m, size, start, nr, off, a, i) {
      if i >= from && Area(m, size, start, nr, off, a, i) {
        assert Wanted(m, true, i);
        UpLeast(z, off, a, i);
      }
    }
  }

  /** An area cannot reach past a set bit. */
  lemma {:induction false} SkipPastSet(m: Map, size: nat, start: nat, nr: nat, off: nat, a: nat, index: nat, i: nat)
    requires a > 0 && NoneBefore(m, size, start, nr, off, a, index) && index <= i < index + nr && Wanted(m, false, i)
    ensures NoneBefore(m, size, start, nr, off, a, i + 1)
  {
    hide Aligned;
    assert !Wanted(m, true, i);
    forall j: nat | j < i + 1 ensures !Area(m, size, start, nr, off, a, j) { }
  }

  /** For every bitmap, start, alignment and positive length: the least area, or a value above `size`. For length 0 the
      aligned first clear bit, which is not always the least. */
  method FindArea(m: Map, size: nat, start: nat, nr: nat, off: nat, a: nat, ghost k: nat) returns (r: nat)
    requires Words64(m) && size <= |m| * 64 && a > 0 && WORD == k * a && off < WORD && size + a + nr <= WORD
    ensures nr > 0 ==> Least(m, size, start, nr, off, a, r)
    ensures nr == 0 ==> exists z: nat :: FirstClear(m, size, start, z) && r == Up(z, off, a)
  {
    hide Up, Aligned, Wanted, AlignCode, Words64, NoneBefore, Area;
    var from := start;
    NoneYet(m, size, start, nr, off, a);
    while true
      invariant nr > 0 ==> NoneBefore(m, size, start, nr, off, a, from) && start <= from
      invariant nr == 0 ==> from == start
      decreases size - from
    {
      var z := FindNextBit(m, size, from, true);
      assert FirstClear(m, size, from, z);
      AlignIsUp(z, off, a, k);
      var index := AlignCode(z, off, a);
      UpAligned(z, off, a);
      if nr > 0 { SkipToClear(m, size, start, nr, off, a, from, z); }
      var end := index + nr;
      if end > size {
        if nr > 0 { NoRoom(m, size, start, nr, off, a, index); }
        return end;
      }
      var i := FindNextBit(m, end, index, false);
      if i < end {
        SkipPastSet(m, size, start, nr, off, a, index, i);
        from := i + 1;
      } else {
        if nr > 0 { IsArea(m, size, start, nr, off, a, index, i); }
        return index;
      }
    }
  }

  lemma {:induction false} NoneYet(m: Map, size: nat, start: nat, nr: nat, off: nat, a: nat)
    requires a > 0
    ensures NoneBefore(m, size, start, nr, off, a, start)
  {
  }

  lemma {:induction false} NoRoom(m: Map, size: nat, start: nat, nr: nat, off: nat, a: nat, index: nat)
    requires a > 0 && NoneBefore(m, size, start, nr, off, a, index) && index + nr > size
    ensures Least(m, size, start, nr, off, a, index + nr)
  {
    hide Aligned, Wanted;
    forall i: nat ensures !Area(m, size, start, nr, off, a, i) {
      if i < index { assert !Area(m, size, start, nr, off, a, i); }
    }
  }

  lemma {:induction false} IsArea(m: Map, size: nat, start: nat, nr: nat, off: nat, a: nat, index: nat, i: nat)
    requires a > 0 && NoneBefore(m, size, start, nr, off, a, index) && nr > 0 && start <= index
    requires Aligned(index, off, a)
    requires index + nr <= size <= |m| * 64 && i >= index + nr && forall j: nat :: index <= j < i ==>
      !Wanted(m, false, j)
    ensures Least(m, size, start, nr, off, a, index)
  {
    hide Aligned;
    forall j: nat | index <= j < index + nr ensures Wanted(m, true, j) {
      assert !Wanted(m, false, j);
    }
  }

  // ----- Areas of length 0 -----

  /** With length 0 the promise holds exactly when no suitably aligned index lies between `start` and the first clear
      bit, or none lies inside the bitmap at all. */
  lemma {:induction false} EmptyArea(m: Map, size: nat, start: nat, off: nat, a: nat, z: nat)
    requires a > 0 && FirstClear(m, size, start, z)
    ensures Least(m, size, start, 0, off, a, Up(z, off, a)) <==>
      if start > size then Up(z, off, a) > size else Up(start, off, a) > size || Up(z, off, a) == Up(start, off, a)
  {
    hide Wanted, Aligned, Up;
    var r, s := Up(z, off, a), Up(start, off, a);
    UpAligned(z, off, a);
    UpAligned(start, off, a);
    if start <= size {
      UpLeast(start, off, a, r);
      if s <= size { assert Area(m, size, start, 0, off, a, s); }
      forall i: nat | Area(m, size, start, 0, off, a, i) ensures s <= i { UpLeast(start, off, a, i); }
    }
  }

  lemma {:induction false} OneBit()
    ensures !Wanted([1], true, 0) && Wanted([1], true, 1)
  {
    assert Bit(1, 0);
    assert !Bit(0, 0);
    assert Bit(1, 1) == Bit(1 / 2, 0);
  }

  lemma {:induction false} NoAlignment(i: nat)
    ensures Up(i, 0, 1) == i && Aligned(i, 0, 1)
  {
  }

  /** One word with only bit 0 set: the empty area at 0 is passed over. */
  lemma {:induction false} EmptyAreaMissed()
    ensures FirstClear([1], 64, 0, 1) && Up(1, 0, 1) == 1 && !Least([1], 64, 0, 0, 0, 1, 1)
  {
    hide Wanted, Up, Aligned, Bit;
    OneBit();
    NoAlignment(0);
    NoAlignment(1);
    var zero: nat := 0;
    assert Area([1], 64, 0, 0, 0, 1, zero);
  }
}
