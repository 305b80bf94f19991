/** bitmap_set and bitmap_clear: whole words at a time, with masks for the first and the last. */
module BitmapRange {
  import opened Triangular
  import opened RoundUp
  import opened Words
  import opened Bitmap

  /** The word with the masked bits set, or cleared. */
  function Apply(x: nat, mask: nat, on: bool): nat {
    if on then Or(x, mask) else And(x, Xor(mask, ONES))
  }

  /** `mask` covers bits [lo, hi). */
  ghost predicate Covers(mask: nat, lo: nat, hi: nat) {
    mask < Pow2(64) && hi <= 64 && forall i: nat :: Bit(mask, i) <==> lo <= i < hi
  }

  lemma {:induction false} ApplyBit(x: nat, mask: nat, on: bool, lo: nat, hi: nat, i: nat)
    requires x < Pow2(64) && Covers(mask, lo, hi) && i < 64
    ensures Bit(Apply(x, mask, on), i) <==> if lo <= i < hi then on else Bit(x, i)
    ensures Apply(x, mask, on) < Pow2(64)
  {
    hide Bit, Or, And, Xor, Pow2;
    if on {
      OrBit(x, mask, i);
      OrBound(x, mask, 64);
    } else {
      XorBit(mask, ONES, i);
      OnesBit(i);
      AndBit(x, Xor(mask, ONES), i);
      AndBound(x, Xor(mask, ONES), 64);
    }
  }

  lemma {:induction false} FirstCovers(start: nat)
    ensures Covers(FirstMask(start), start % 64, 64)
  {
    hide Bit, FirstMask, Pow2;
    MaskBounds(start);
    forall i: nat ensures Bit(FirstMask(start), i) <==> start % 64 <= i < 64 { FirstMaskBit(start, i); }
  }

  lemma {:induction false} OnesCovers()
    ensures Covers(ONES, 0, 64)
  {
    hide Bit, Pow2;
    Pow64();
    forall i: nat ensures Bit(ONES, i) <==> i < 64 { OnesBit(i); }
  }

  lemma {:induction false} LastCovers(mask: nat, lo: nat, size: nat)
    requires Covers(mask, lo, 64) && size % 64 != 0
    ensures Covers(And(mask, LastMask(size)), lo, size % 64)
  {
    hide Bit, And, LastMask, Pow2;
    AndBound(mask, LastMask(size), 64);
    forall i: nat ensures Bit(And(mask, LastMask(size)), i) <==> lo <= i < size % 64 {
      AndBit(mask, LastMask(size), i);
      LastMaskBit(size, i);
    }
  }

  /** Changing bits [lo, hi) of word `p`. */
  lemma {:induction false} ApplyWord(m: Map, p: nat, mask: nat, on: bool, lo: nat, hi: nat, j: nat)
    requires Words64(m) && p < |m| && Covers(mask, lo, hi) && j < |m| * 64
    ensures BitAt(m[p := Apply(m[p], mask, on)], j) <==> if p * 64 + lo <= j < p * 64 + hi then on else BitAt(m, j)
    ensures Words64(m[p := Apply(m[p], mask, on)])
  {
    hide Bit, Apply, Pow2, Covers;
    ApplyBit(m[p], mask, on, lo, hi, j % 64);
    CoversHigh(mask, lo, hi);
  }

  lemma {:induction false} CoversHigh(mask: nat, lo: nat, hi: nat)
    requires Covers(mask, lo, hi)
    ensures hi <= 64
  {
  }

  /** The bits [start, at) of `m` are `on` and the others are those of `from`. */
  ghost predicate Changed(from: Map, m: Map, start: nat, at: nat, on: bool) {
    && |m| == |from| && Words64(m)
    && forall j: nat :: j < |m| * 64 ==> (BitAt(m, j) <==> if start <= j < at then on else BitAt(from, j))
  }

  lemma {:induction false} ChangedNext(from: Map, m: Map, start: nat, at: nat, mask: nat, to: nat, on: bool)
    requires Changed(from, m, start, at, on) && start <= at < to <= |m| * 64 && at / 64 * 64 + 64 >= to
    requires Covers(mask, at % 64, to - at / 64 * 64)
    ensures Changed(from, m[at / 64 := Apply(m[at / 64], mask, on)], start, to, on)
  {
    hide Apply, Covers, Words64, BitAt;
    var p := at / 64;
    var m' := m[p := Apply(m[p], mask, on)];
    ApplyWord(m, p, mask, on, at % 64, to - p * 64, at);
    forall j: nat | j < |m'| * 64 ensures BitAt(m', j) <==> if start <= j < to then on else BitAt(from, j) {
      ApplyWord(m, p, mask, on, at % 64, to - p * 64, j);
    }
  }

  /** bitmap_set for `on`, bitmap_clear otherwise: exactly the bits [start, start + len) change. */
  method ChangeRange(a: array<nat>, start: nat, len: nat, on: bool)
    requires Words64(a[..]) && start + len <= a.Length * 64
    modifies a
    ensures Changed(old(a[..]), a[..], start, start + len, on)
  {
    hide Words64, BitAt, Changed, Covers, FirstMask, LastMask, Apply, And;
    ghost var from := a[..];
    Unchanged(from, start, on);
    FirstCovers(start);
    var p, left, bits, mask := start / 64, len, 64 - start % 64, FirstMask(start);
    ghost var at := start;
    while left >= bits
      invariant p == at / 64 && bits == 64 - at % 64 && at + left == start + len && start <= at && 0 <= left
      invariant mask >= 0 && Covers(mask, at % 64, 64) && Changed(from, a[..], start, at, on)
      decreases left
    {
      ChangedNext(from, a[..], start, at, mask, at + bits, on);
      ghost var before := a[..];
      a[p] := Apply(a[p], mask, on);
      assert a[..] == before[p := Apply(before[p], mask, on)];
      left := left - bits;
      at := at + bits;
      bits, mask := 64, ONES;
      OnesCovers();
      p := p + 1;
    }
    if left != 0 {
      LastCovers(mask, at % 64, start + len);
      mask := And(mask, LastMask(start + len));
      ChangedNext(from, a[..], start, at, mask, start + len, on);
      ghost var before := a[..];
      a[p] := Apply(a[p], mask, on);
      assert a[..] == before[p := Apply(before[p], mask, on)];
    }
  }

  lemma {:induction false} Unchanged(from: Map, start: nat, on: bool)
    requires Words64(from)
    ensures Changed(from, from, start, start, on)
  {
  }
}
