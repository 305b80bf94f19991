/** Chunk pages: three classes that keep their occupancy bits in different places. */
module SlabChunks {
  import opened Lists
  import opened Triangular
  import opened RoundUp
  import opened Words
  import opened SlabList
  import opened SlabRuns
  import opened SlabSlots

  /** `words[i]` are the bitmap words at the start of page `i` while it is a page of small chunks. */
  datatype Pool = Pool(m: Memory, words: seq<seq<nat>>)

  const LISTS: nat := 10

  /** Bytes of a chunk, 1 << shift. */
  function ChunkSize(shift: nat): nat
    requires 3 <= shift <= 11
  {
    Pow2(shift)
  }

  /** Chunks of a page, 1 << (12 - shift). */
  function Count(shift: nat): nat
    requires 3 <= shift <= 11
  {
    Pow2(12 - shift)
  }

  /** Chunks of a page that hold its bitmap. */
  function Reserved(shift: nat): nat
    requires 3 <= shift <= 11
  {
    if shift >= 6 then 0
    else if Count(shift) / 8 / ChunkSize(shift) == 0 then 1
    else Count(shift) / 8 / ChunkSize(shift)
  }

  /** The shift of a chunk page. */
  function ShiftOf(d: Desc): nat {
    if d.kind == Exact then 6 else d.slab % 16
  }

  /** Chunk `c` of page `i` is taken. */
  predicate Used(p: Pool, i: nat, c: nat) {
    i < |p.m.pages| && i < |p.words| &&
    match p.m.pages[i].kind
    case PageKind => false
    case Exact => Bit(p.m.pages[i].slab, c)
    case Big => Bit(p.m.pages[i].slab, 32 + c)
    case Small => c / 64 < |p.words[i]| && Bit(p.words[i][c / 64], c % 64)
  }

  /** The bits have their proper places. */
  ghost predicate MapOk(p: Pool, i: nat)
    requires i < |p.m.pages| == |p.words|
  {
    var d := p.m.pages[i];
    match d.kind
    case PageKind => true
    case Exact => d.slab < Pow2(64)
    case Big => 7 <= d.slab % 16 <= 11 && Shr(d.slab, 32) < Pow2(Count(d.slab % 16))
    case Small =>
      && 3 <= d.slab <= 5 && |p.words[i]| * 64 == Count(d.slab)
      && forall w :: 0 <= w < |p.words[i]| ==> p.words[i][w] < Pow2(64)
  }

  ghost predicate Full(p: Pool, i: nat)
    requires i < |p.m.pages| && 3 <= ShiftOf(p.m.pages[i]) <= 11
  {
    forall c: nat :: c < Count(ShiftOf(p.m.pages[i])) ==> Used(p, i, c)
  }

  /** Chunk `c` of page `i` belongs to a caller. */
  ghost predicate Taken(p: Pool, i: nat, c: nat) {
    && IsChunks(p.m, i) && 3 <= ShiftOf(p.m.pages[i]) <= 11
    && Reserved(ShiftOf(p.m.pages[i])) <= c < Count(ShiftOf(p.m.pages[i])) && Used(p, i, c)
  }

  /** A chunk page: its bitmap chunks are marked, some chunk is taken, and it is on the list of its shift exactly when
      some chunk is not. */
  ghost predicate ChunkOk(p: Pool, s: Shape, i: nat)
    requires i < |p.m.pages| == |p.words|
  {
    && MapOk(p, i) && 3 <= ShiftOf(p.m.pages[i]) <= 11
    && (forall c: nat :: c < Reserved(ShiftOf(p.m.pages[i])) ==> Used(p, i, c))
    && (exists c: nat :: Taken(p, i, c))
    && (p.m.pages[i].next == Null <==> Full(p, i))
    && (p.m.pages[i].next != Null ==> OnList(s.lists, ShiftOf(p.m.pages[i]) - 2, i))
  }

  ghost predicate PoolOk(p: Pool, s: Shape) {
    && Ok(p.m, s) && |s.lists| == LISTS && |p.words| == |p.m.pages|
    && forall i: nat :: IsChunks(p.m, i) ==> ChunkOk(p, s, i)
  }

  // ----- Sizes -----

  /** The chunks fill the page and the reserved ones cover the bitmap. */
  lemma {:induction false} Geometry(shift: nat)
    requires 3 <= shift <= 11
    ensures Count(shift) * ChunkSize(shift) == 4096
    ensures shift < 6 ==>
      Count(shift) / 8 <= Reserved(shift) * ChunkSize(shift) && Reserved(shift) < 64 && Count(shift) % 64 == 0
    ensures Reserved(shift) < Count(shift) && 2 <= Count(shift) <= 512
    ensures shift == 6 ==> Count(shift) == 64
    ensures shift > 6 ==> Count(shift) <= 32
  {
    Powers();
  }

  // ----- Marking -----

  /** Setting the bit of chunk `c`, wherever the class keeps it. */
  function Mark(p: Pool, i: nat, c: nat): (r: Pool)
    requires i < |p.m.pages| == |p.words| && (p.m.pages[i].kind == Small ==> c / 64 < |p.words[i]|)
  {
    var d := p.m.pages[i];
    match d.kind
    case PageKind => p
    case Exact => p.(m := p.m.(pages := p.m.pages[i := d.(slab := SetBit(d.slab, c))]))
    case Big => p.(m := p.m.(pages := p.m.pages[i := d.(slab := SetBit(d.slab, 32 + c))]))
    case Small => p.(words := p.words[i := Replace(p.words[i], c / 64, SetBit(p.words[i][c / 64], c % 64))])
  }

  function Unmark(p: Pool, i: nat, c: nat): (r: Pool)
    requires i < |p.m.pages| == |p.words| && (p.m.pages[i].kind == Small ==> c / 64 < |p.words[i]|)
  {
    var d := p.m.pages[i];
    match d.kind
    case PageKind => p
    case Exact => p.(m := p.m.(pages := p.m.pages[i := d.(slab := ClearBit(d.slab, c))]))
    case Big => p.(m := p.m.(pages := p.m.pages[i := d.(slab := ClearBit(d.slab, 32 + c))]))
    case Small => p.(words := p.words[i := Replace(p.words[i], c / 64, ClearBit(p.words[i][c / 64], c % 64))])
  }

  /** Chunk `c` of a page with proper bits. */
  ghost predicate Chunk(p: Pool, i: nat, c: nat) {
    && i < |p.m.pages| == |p.words| && p.m.pages[i].kind != PageKind && MapOk(p, i)
    && 3 <= ShiftOf(p.m.pages[i]) <= 11 && c < Count(ShiftOf(p.m.pages[i]))
  }

  /** Only the slab word or the bitmap of page `i` changed, and not its shift. */
  predicate SamePages(p: Pool, p': Pool, i: nat)
    requires i < |p.m.pages|
  {
    && |p'.m.pages| == |p.m.pages| == |p.words| == |p'.words|
    && p'.m == p.m.(pages := p.m.pages[i := p.m.pages[i].(slab := p'.m.pages[i].slab)])
    && p'.words == p.words[i := p'.words[i]]
    && ShiftOf(p'.m.pages[i]) == ShiftOf(p.m.pages[i])
  }

  lemma {:induction false} MarkOk(p: Pool, i: nat, c: nat)
    requires Chunk(p, i, c)
    ensures p.m.pages[i].kind == Small ==> c / 64 < |p.words[i]|
    ensures SamePages(p, Mark(p, i, c), i) && MapOk(Mark(p, i, c), i)
  {
    hide Bit, Pow2, SetBit, Shr, Reserved;
    Powers();
    var d := p.m.pages[i];
    match d.kind
    case Exact => SetBitBound(d.slab, c, 64);
    case Big =>
      SetHigh(d.slab, 32, c);
      SetBitBound(Shr(d.slab, 32), c, Count(d.slab % 16));
      SetLow(d.slab, 32 + c);
    case Small => SetBitBound(p.words[i][c / 64], c % 64, 64);
  }

  lemma {:induction false} WordOf(p: Pool, i: nat, c: nat)
    requires Chunk(p, i, c)
    ensures p.m.pages[i].kind == Small ==> c / 64 < |p.words[i]|
  {
    hide Bit, Pow2, Shr, Reserved;
    Powers();
  }

  lemma {:induction false} MarkUsed(p: Pool, i: nat, c: nat, j: nat, e: nat)
    requires Chunk(p, i, c)
    ensures p.m.pages[i].kind == Small ==> c / 64 < |p.words[i]|
    ensures Used(Mark(p, i, c), j, e) <==> Used(p, j, e) || (j == i && e == c)
  {
    hide Bit, SetBit, Pow2, Shr, Reserved, Count;
    WordOf(p, i, c);
    var d := p.m.pages[i];
    if j == i {
      match d.kind
      case Exact => SetBitAt(d.slab, c, e);
      case Big => SetBitAt(d.slab, 32 + c, 32 + e);
      case Small => SetBitAt(p.words[i][c / 64], c % 64, e % 64);
    }
  }

  lemma {:induction false} UnmarkOk(p: Pool, i: nat, c: nat)
    requires Chunk(p, i, c)
    ensures p.m.pages[i].kind == Small ==> c / 64 < |p.words[i]|
    ensures SamePages(p, Unmark(p, i, c), i) && MapOk(Unmark(p, i, c), i)
  {
    hide Bit, Pow2, ClearBit, Shr, Reserved;
    Powers();
    var d := p.m.pages[i];
    match d.kind
    case Exact =>
    case Big =>
      ClearHigh(d.slab, 32, c);
      ClearLow(d.slab, 32 + c);
    case Small =>
  }

  lemma {:induction false} UnmarkUsed(p: Pool, i: nat, c: nat, j: nat, e: nat)
    requires Chunk(p, i, c)
    ensures p.m.pages[i].kind == Small ==> c / 64 < |p.words[i]|
    ensures Used(Unmark(p, i, c), j, e) <==> Used(p, j, e) && !(j == i && e == c)
  {
    hide Bit, ClearBit, Pow2, Shr, Reserved, Count;
    WordOf(p, i, c);
    var d := p.m.pages[i];
    if j == i {
      match d.kind
      case Exact => ClearBitAt(d.slab, c, e);
      case Big => ClearBitAt(d.slab, 32 + c, 32 + e);
      case Small => ClearBitAt(p.words[i][c / 64], c % 64, e % 64);
    }
  }

  // ----- The tests the code makes -----

  /** Whether every bit of the page is set, by word comparisons. */
  method IsFull(p: Pool, i: nat) returns (full: bool)
    requires i < |p.m.pages| == |p.words| && IsChunks(p.m, i) && MapOk(p, i) && 3 <= ShiftOf(p.m.pages[i]) <= 11
    ensures full <==> Full(p, i)
  {
    hide Bit, Pow2, Shr, Full, Used;
    var d := p.m.pages[i];
    match d.kind
    case Exact =>
      full := d.slab == BUSY;
      ExactFull(p, i);
    case Big =>
      full := Shr(d.slab, 32) == Pow2(Count(d.slab % 16)) - 1;
      BigFull(p, i);
    case Small =>
      var w := 0;
      while w < |p.words[i]| && p.words[i][w] == BUSY
        invariant 0 <= w <= |p.words[i]|
        invariant forall v :: 0 <= v < w ==> p.words[i][v] == BUSY
      {
        w := w + 1;
      }
      full := w == |p.words[i]|;
      SmallFull(p, i);
  }

  lemma {:induction false} ExactFull(p: Pool, i: nat)
    requires i < |p.m.pages| == |p.words| && p.m.pages[i].kind == Exact && MapOk(p, i)
    ensures Full(p, i) <==> p.m.pages[i].slab == BUSY
  {
    hide Bit, Pow2, Shr;
    Powers();
    Pow64();
    AllBits(p.m.pages[i].slab, 64);
    if p.m.pages[i].slab != BUSY {
      var c: nat :| c < 64 && !Bit(p.m.pages[i].slab, c);
      assert !Used(p, i, c);
    }
  }

  lemma {:induction false} BigFull(p: Pool, i: nat)
    requires i < |p.m.pages| == |p.words| && p.m.pages[i].kind == Big && MapOk(p, i)
    ensures 3 <= ShiftOf(p.m.pages[i]) <= 11
    ensures Full(p, i) <==> Shr(p.m.pages[i].slab, 32) == Pow2(Count(p.m.pages[i].slab % 16)) - 1
  {
    hide Bit, Pow2, Shr;
    var x, n := p.m.pages[i].slab, Count(p.m.pages[i].slab % 16);
    AllBits(Shr(x, 32), n);
    forall c: nat ensures Used(p, i, c) <==> Bit(Shr(x, 32), c) { HighBit(x, 32, c); }
    if Shr(x, 32) != Pow2(n) - 1 {
      var c: nat :| c < n && !Bit(Shr(x, 32), c);
      assert !Used(p, i, c);
    }
  }

  lemma {:induction false} Split64(w: nat, b: nat)
    requires b < 64
    ensures (w * 64 + b) / 64 == w && (w * 64 + b) % 64 == b
  {
  }

  lemma {:induction false} SmallFull(p: Pool, i: nat)
    requires i < |p.m.pages| == |p.words| && p.m.pages[i].kind == Small && MapOk(p, i)
    ensures 3 <= ShiftOf(p.m.pages[i]) <= 11
    ensures Full(p, i) <==> forall w :: 0 <= w < |p.words[i]| ==> p.words[i][w] == BUSY
  {
    hide Bit, Pow2, Shr;
    Powers();
    Pow64();
    if Full(p, i) {
      forall w: nat | w < |p.words[i]| ensures p.words[i][w] == BUSY {
        AllBits(p.words[i][w], 64);
        forall b: nat | b < 64 ensures Bit(p.words[i][w], b) {
          Split64(w, b);
          assert Used(p, i, w * 64 + b);
        }
      }
    }
    if forall w :: 0 <= w < |p.words[i]| ==> p.words[i][w] == BUSY {
      forall c: nat | c < Count(ShiftOf(p.m.pages[i])) ensures Used(p, i, c) {
        AllBits(p.words[i][c / 64], 64);
      }
    }
  }
}
