/** ncx_slab_alloc_locked. */
module SlabAlloc {
  import opened Lists
  import opened Triangular
  import opened RoundUp
  import opened Words
  import opened SlabList
  import opened SlabRuns
  import opened SlabPages
  import opened SlabMerge
  import opened SlabSlots
  import opened C = SlabChunks
  import opened SlabFind
  import opened SlabHeld

  // ----- Choosing the size class -----

  /** The least shift from 3 up whose chunks hold `size` bytes. */
  method ShiftFor(size: nat) returns (shift: nat)
    requires size < 2048
    ensures 3 <= shift <= 11 && size <= ChunkSize(shift) && (shift > 3 ==> ChunkSize(shift - 1) < size)
  {
    hide Pow2, Quotient;
    Powers();
    if size <= 8 {
      return 3;
    }
    QuotientTwo(size);
    shift := 1;
    var s: nat := (size - 1) / 2;
    PowNext(0);
    while s != 0
      invariant shift >= 1 && Quotient(s, Pow2(shift), size - 1) && Pow2(shift - 1) <= size - 1
      decreases s
    {
      Halve(s, Pow2(shift), size - 1);
      PowNext(shift);
      shift := shift + 1;
      s := s / 2;
    }
    Halve(s, Pow2(shift), size - 1);
    ShiftRange(shift, size);
  }

  /** s == x / p */
  predicate Quotient(s: nat, p: nat, x: nat) {
    s * p <= x < (s + 1) * p
  }

  lemma {:induction false} Halve(s: nat, p: nat, x: nat)
    requires Quotient(s, p, x)
    ensures Quotient(s / 2, 2 * p, x)
    ensures if s == 0 then x < p else p <= x
  {
    var h := s / 2;
    assert h * (2 * p) == (2 * h) * p;
    assert (h + 1) * (2 * p) == (2 * h + 2) * p;
    if s == 2 * h {
      assert (2 * h + 2) * p == (s + 1) * p + p;
    } else {
      assert s * p == (2 * h) * p + p;
    }
    if s > 0 { Mul(1, s, p); }
  }

  lemma {:induction false} QuotientTwo(size: nat)
    requires size > 0
    ensures Quotient((size - 1) / 2, 2, size - 1) && Pow2(0) == 1
  {
  }

  lemma {:induction false} PowNext(k: nat)
    ensures Pow2(k + 1) == 2 * Pow2(k)
  {
  }

  lemma {:induction false} ShiftRange(shift: nat, size: nat)
    requires 8 < size < 2048 && size <= Pow2(shift) && shift >= 1 && Pow2(shift - 1) < size
    ensures 4 <= shift <= 11
  {
    Powers();
    if shift > 11 { Pow2Mono(11, shift - 1); }
    if shift < 4 { Pow2Mono(shift, 3); }
  }

  // ----- A chunk of a page that has one -----

  /** Page `i`, the first on list `l`, has a chunk free. */
  lemma {:induction false} FirstHasRoom(p: Pool, s: Shape, l: nat)
    requires PoolOk(p, s) && 0 < l < |s.lists| && 0 < |s.lists[l]|
    ensures var i := s.lists[l][0];
      && IsChunks(p.m, i) && i < |p.words| == |p.m.pages| && ChunkOk(p, s, i)
      && p.m.pages[i].next != Null && !Full(p, i)
      && l == ShiftOf(p.m.pages[i]) - 2 && OnList(s.lists, l, i)
  {
    hide DescOk, Coalesced, Runs, Linked, Used, C.Taken, MapOk, ChunkOk;
    var i := s.lists[l][0];
    assert i in s.lists[l];
    assert Member(p.m, s, l, i);
    assert OnList(s.lists, l, i);
    MemberNext(p.m, s.lists, l, i);
    HasNext(p, s, i);
    ApartOf(p.m, s.lists);
    SameList(s.lists, l, ShiftOf(p.m.pages[i]) - 2, i);
  }

  lemma {:induction false} HasNext(p: Pool, s: Shape, i: nat)
    requires PoolOk(p, s) && IsChunks(p.m, i) && p.m.pages[i].next != Null
    ensures ChunkOk(p, s, i) && 3 <= ShiftOf(p.m.pages[i]) <= 11 && !Full(p, i)
    ensures OnList(s.lists, ShiftOf(p.m.pages[i]) - 2, i)
  {
    assert ChunkOk(p, s, i);
  }

  lemma {:induction false} SameList(lists: Lists, l: nat, l': nat, i: nat)
    requires Apart(lists) && OnList(lists, l, i) && OnList(lists, l', i)
    ensures l == l'
  {
    var k :| 0 <= k < |lists[l]| && lists[l][k] == i;
    var k' :| 0 <= k' < |lists[l']| && lists[l'][k'] == i;
  }

  /** Marking leaves the page allocator's state good. */
  lemma {:induction false} MarkPool(p: Pool, s: Shape, i: nat, c: nat)
    requires PoolOk(p, s) && Chunk(p, i, c)
    ensures p.m.pages[i].kind == Small ==> c / 64 < |p.words[i]|
    ensures Ok(Mark(p, i, c).m, s) && SamePages(p, Mark(p, i, c), i)
  {
    hide DescOk, Coalesced, Runs, Linked, Used, C.Taken, MapOk, ChunkOk, SetBit;
    MarkOk(p, i, c);
    var p' := Mark(p, i, c);
    ChunksOffFree(p.m, s, i);
    var d := p.m.pages[i];
    match d.kind
    case Exact => WriteOk(p.m, s, i, SetBit(d.slab, c));
    case Big => WriteOk(p.m, s, i, SetBit(d.slab, 32 + c));
    case Small => assert p'.m == p.m;
  }

  /** What marking chunk `c` and then perhaps unlinking the page amounts to. */
  ghost predicate Marked(p: Pool, s: Shape, i: nat, c: nat, p': Pool, s': Shape) {
    && Elsewhere(p, s, p', s', i) && IsChunks(p.m, i) && IsChunks(p'.m, i)
    && ShiftOf(p'.m.pages[i]) == ShiftOf(p.m.pages[i])
    && (forall e: nat :: Used(p', i, e) <==> Used(p, i, e) || e == c)
  }

  lemma {:induction false} MarkedGrants(p: Pool, s: Shape, i: nat, c: nat, p': Pool, s': Shape)
    requires PoolOk(p, s) && Marked(p, s, i, c, p', s') && Chunk(p, i, c) && !Used(p, i, c)
    requires ShiftOf(p.m.pages[i]) >= 3 && Reserved(ShiftOf(p.m.pages[i])) <= c
    ensures Grants(p, s, p', s', ChunkOf(i, c))
  {
    hide DescOk, Coalesced, Runs, Linked, Used, MapOk, ChunkOk, Elsewhere, PoolOk, Reserved, Count, ChunkSize;
    var a := ChunkOf(i, c);
    SameLength(p, s, p', s', i);
    forall b | b != a
      ensures Held(p', s', b) <==> Held(p, s, b)
      ensures Held(p, s, b) ==> Start(p', s', b) == Start(p, s, b) && Length(p', s', b) == Length(p, s, b)
    {
      if b.page != i { HeldElsewhere(p, s, p', s', i, b); }
    }
  }

  /** The page stays in order: on its list while a chunk is free, off it when full. */
  lemma {:induction false} MarkedChunkOk(p: Pool, s: Shape, i: nat, c: nat, p': Pool, s': Shape)
    requires i < |p.m.pages| == |p.words| && |p'.m.pages| == |p'.words| && Marked(p, s, i, c, p', s')
    requires ChunkOk(p, s, i) && MapOk(p', i)
    requires p'.m.pages[i].next == Null <==> Full(p', i)
    requires p'.m.pages[i].next != Null ==> OnList(s'.lists, ShiftOf(p'.m.pages[i]) - 2, i)
    ensures ChunkOk(p', s', i)
  {
    hide MapOk, Elsewhere, Used, Reserved, Count;
    var e :| C.Taken(p, i, e);
    assert C.Taken(p', i, e);
  }

  /** Taking the lowest free chunk of the first page on list `l`; a page that becomes full leaves the list. */
  method TakeChunk(p: Pool, i: nat, ghost s: Shape, ghost l: nat)
    returns (p': Pool, c: nat, ghost s': Shape)
    requires PoolOk(p, s) && 0 < l < |s.lists| && 0 < |s.lists[l]| && i == s.lists[l][0]
    ensures PoolOk(p', s') && Chunk(p, i, c) && Grants(p, s, p', s', ChunkOf(i, c))
    ensures Held(p', s', ChunkOf(i, c)) && ShiftOf(p'.m.pages[i]) == l + 2 && ShiftOf(p.m.pages[i]) == l + 2
    ensures Lowest(p, i, c) && (s' == s || s' == Dropped(s, l))
  {
    hide DescOk, Coalesced, Runs, Linked, Used, C.Taken, MapOk, ChunkOk, Mark, Full, Marked, Elsewhere, Grants, Unlink;
    FirstHasRoom(p, s, l);
    RoomFacts(p, s, i);
    c := FindClear(p, i);
    ReservedBefore(p, s, i, c);
    MarkPool(p, s, i, c);
    MarkOk(p, i, c);
    var p1 := Mark(p, i, c);
    MarkMarked(p, s, i, c);
    var full := IsFull(p1, i);
    if full {
      UnlinkOk(p1.m, s, l, 0);
      p' := p1.(m := Unlink(p1.m, i));
      s' := Dropped(s, l);
      UnlinkMarked(p, s, i, c, p1, l, p', s');
    } else {
      p', s' := p1, s;
    }
    MarkedChunkOk(p, s, i, c, p', s');
    MarkedGrants(p, s, i, c, p', s');
    MarkedElsewhere(p, s, i, c, p', s');
    PoolFrame(p, s, p', s', i);
    GrantHeld(p, s, p', s', ChunkOf(i, c));
    MarkedShift(p, s, i, c, p', s');
  }

  /** `c` is the first chunk of the page that is not in use. */
  ghost predicate Lowest(p: Pool, i: nat, c: nat) {
    !Used(p, i, c) && forall e: nat :: e < c ==> Used(p, i, e)
  }

  /** The first page of a list leaves it. */
  ghost function Dropped(s: Shape, l: nat): Shape
    requires l < |s.lists| && 0 < |s.lists[l]|
  {
    s.(lists := s.lists[l := Without(s.lists[l], 0)])
  }

  lemma {:induction false} RoomFacts(p: Pool, s: Shape, i: nat)
    requires i < |p.m.pages| == |p.words| && ChunkOk(p, s, i)
    ensures MapOk(p, i) && 3 <= ShiftOf(p.m.pages[i]) <= 11
  {
  }

  lemma {:induction false} ReservedBefore(p: Pool, s: Shape, i: nat, c: nat)
    requires i < |p.m.pages| == |p.words| && ChunkOk(p, s, i) && !Used(p, i, c)
    ensures 3 <= ShiftOf(p.m.pages[i]) <= 11 && Reserved(ShiftOf(p.m.pages[i])) <= c
  {
  }

  lemma {:induction false} GrantHeld(p: Pool, s: Shape, p': Pool, s': Shape, a: Alloc)
    requires Grants(p, s, p', s', a)
    ensures Held(p', s', a)
  {
  }

  lemma {:induction false} MarkedShift(p: Pool, s: Shape, i: nat, c: nat, p': Pool, s': Shape)
    requires Marked(p, s, i, c, p', s')
    ensures i < |p.m.pages| && i < |p'.m.pages| && ShiftOf(p'.m.pages[i]) == ShiftOf(p.m.pages[i])
  {
  }

  lemma {:induction false} MarkedElsewhere(p: Pool, s: Shape, i: nat, c: nat, p': Pool, s': Shape)
    requires Marked(p, s, i, c, p', s')
    ensures Elsewhere(p, s, p', s', i)
  {
  }

  lemma {:induction false} MarkMarked(p: Pool, s: Shape, i: nat, c: nat)
    requires PoolOk(p, s) && Chunk(p, i, c)
    ensures p.m.pages[i].kind == Small ==> c / 64 < |p.words[i]|
    ensures Marked(p, s, i, c, Mark(p, i, c), s)
  {
    hide DescOk, Coalesced, Runs, Linked, Used, MapOk, ChunkOk, Mark, PoolOk;
    MarkOk(p, i, c);
    WordOf(p, i, c);
    var p' := Mark(p, i, c);
    forall e: nat ensures Used(p', i, e) <==> Used(p, i, e) || e == c { MarkUsed(p, i, c, i, e); }
    forall j: nat | j != i ensures SameAt(p, s, p', s, j) { }
  }

  lemma {:induction false} UnlinkMarked(p: Pool, s: Shape, i: nat, c: nat, p1: Pool, l: nat, p': Pool, s': Shape)
    requires Marked(p, s, i, c, p1, s) && SlotFrame(p1.m, s, p'.m, s', l, i) && p'.words == p1.words
    requires p'.m.pages[i] == p1.m.pages[i].(next := Null, prev := Null) && MapOk(p1, i)
    ensures Marked(p, s, i, c, p', s') && MapOk(p', i) && (Full(p1, i) ==> Full(p', i))
  {
    hide Bit, Shr, Pow2, Reserved;
    SlotElsewhere(p, s, p1, s, p', s', l, i);
    forall e: nat ensures Used(p', i, e) <==> Used(p1, i, e) { }
  }

  lemma {:induction false} SlotElsewhere(p: Pool, s: Shape, p1: Pool, s1: Shape, p': Pool, s': Shape, l: nat, i: nat)
    requires Elsewhere(p, s, p1, s1, i) && SlotFrame(p1.m, s1, p'.m, s', l, i) && p'.words == p1.words
    ensures Elsewhere(p, s, p', s', i)
  {
    forall j: nat | j != i ensures SameAt(p, s, p', s', j) {
      assert SameAt(p, s, p1, s1, j);
      forall l2: nat | 0 < l2 < |s.lists| ensures j in s'.lists[l2] <==> j in s.lists[l2] { }
    }
  }

  // ----- A page of chunks from a free page -----

  lemma {:induction false} FreePlain(m: Memory, s: Shape, j: nat)
    requires Sound(m, s, -1) && j < |m.pages| && Free(s, j)
    ensures m.pages[j].kind == PageKind
  {
    assert DescOk(m, s, j);
  }

  /** Allocating pages [h, h + n) leaves every other chunk page and run alone. */
  lemma {:induction false} AllocElsewhere(p: Pool, s: Shape, h: nat, n: nat, m': Memory, s': Shape)
    requires PoolOk(p, s) && Ok(m', s') && Allocated(p.m, s, h, n, m', s')
    ensures Elsewhere(p, s, p.(m := m'), s', h)
    ensures !IsChunks(p.m, h) && !IsRun(p, s, h) && !Free(s', h) && IsHead(s'.owner, h)
  {
    hide DescOk, Coalesced, Linked, ChunkOk, Runs;
    var p' := p.(m := m');
    assert Free(s, h);
    FreePlain(p.m, s, h);
    forall j: nat | j != h ensures SameAt(p, s, p', s', j) {
      if j < |p.m.pages| {
        AllocSame(p, s, h, n, m', s', j);
      }
      forall l: nat | 0 < l < |s.lists| && l < |s'.lists| ensures j in s'.lists[l] <==> j in s.lists[l] { }
    }
  }

  lemma {:induction false} AllocSame(p: Pool, s: Shape, h: nat, n: nat, m': Memory, s': Shape, j: nat)
    requires PoolOk(p, s) && Ok(m', s') && Allocated(p.m, s, h, n, m', s') && j < |p.m.pages| && j != h
    ensures IsChunks(m', j) <==> IsChunks(p.m, j)
    ensures IsChunks(p.m, j) ==> m'.pages[j] == p.m.pages[j]
    ensures IsRun(p.(m := m'), s', j) <==> IsRun(p, s, j)
    ensures IsRun(p, s, j) ==> s'.size[j] == s.size[j]
  {
    hide Coalesced, Linked, ChunkOk;
    if Free(s, j) {
      FreePlain(p.m, s, j);
      if Free(s', j) {
        FreePlain(m', s', j);
      } else {
        assert RunFrom(s'.owner, s'.size, h);
        assert DescOk(m', s', j);
      }
    }
  }

  lemma {:induction false} OnesBits(n: nat, e: nat)
    ensures Bit(Pow2(n) - 1, e) <==> e < n
  {
    if e < n {
      AllBits(Pow2(n) - 1, n);
    } else {
      BitBound(Pow2(n) - 1, e, n);
    }
  }

  /** The slab word of a fresh chunk page. */
  function FreshSlab(shift: nat): nat {
    if shift < 6 then shift else if shift == 6 then 1 else 0x1_0000_0000 + shift
  }

  /** The bitmap of a fresh page of small chunks: its own chunks and the first one after them. */
  function FreshWords(shift: nat): (w: seq<nat>)
    requires 3 <= shift <= 11
  {
    if shift < 6 then [Pow2(Reserved(shift) + 1) - 1] + seq(Max(Count(shift) / 64, 1) - 1, _ => 0) else []
  }

  function Max(a: nat, b: nat): nat {
    if a < b then b else a
  }

  /** A fresh chunk page has its bitmap chunks and one chunk more in use. */
  lemma {:induction false} FreshUsed(p: Pool, i: nat, shift: nat, e: nat)
    requires 3 <= shift <= 11 && i < |p.m.pages| == |p.words|
    requires p.m.pages[i].kind == ListKind(shift - 2) && p.m.pages[i].slab == FreshSlab(shift)
    requires p.words[i] == FreshWords(shift)
    ensures ShiftOf(p.m.pages[i]) == shift && MapOk(p, i)
    ensures e < Count(shift) ==> (Used(p, i, e) <==> e <= Reserved(shift))
  {
    hide Bit, Pow2, Shr;
    Geometry(shift);
    Powers();
    Pow64();
    if shift < 6 {
      FreshSmall(p, i, shift, e);
    } else if shift == 6 {
      OnesBits(1, e);
    } else {
      FreshBig(shift, e);
      Pow2Pos(Count(shift));
    }
  }

  lemma {:induction false} Pow2Pos(n: nat)
    requires n >= 1
    ensures Pow2(n) >= 2
  {
    if n > 1 { Pow2Pos(n - 1); }
  }

  lemma {:induction false} FreshBig(shift: nat, e: nat)
    requires 7 <= shift <= 11
    ensures Shr(0x1_0000_0000 + shift, 32) == 1 && (0x1_0000_0000 + shift) % 16 == shift
    ensures Bit(0x1_0000_0000 + shift, 32 + e) <==> e == 0
  {
    hide Bit, Pow2, Shr;
    Powers();
    PowDouble(8);
    PowDouble(16);
    assert Pow2(16) == 65536;
    ShrOf(32, shift);
    HighBit(0x1_0000_0000 + shift, 32, e);
    OnesBits(1, e);
  }

  lemma {:induction false} ShrOf(k: nat, b: nat)
    requires b < Pow2(k)
    ensures Shr(Pow2(k) + b, k) == 1
  {
    if k > 0 {
      ShrOf(k - 1, b / 2);
      assert (Pow2(k) + b) / 2 == Pow2(k - 1) + b / 2;
    }
  }

  lemma {:induction false} FreshSmall(p: Pool, i: nat, shift: nat, e: nat)
    requires 3 <= shift < 6 && i < |p.m.pages| == |p.words|
    requires p.m.pages[i].kind == Small && p.m.pages[i].slab == shift && p.words[i] == FreshWords(shift)
    ensures MapOk(p, i)
    ensures e < Count(shift) ==> (Used(p, i, e) <==> e <= Reserved(shift))
  {
    hide Bit, Pow2, Shr;
    Geometry(shift);
    Powers();
    Pow64();
    var n := Reserved(shift) + 1;
    Pow2Mono(n, 64);
    if e / 64 == 0 {
      OnesBits(n, e);
    } else if e < Count(shift) {
      ZeroBits(e % 64);
    }
  }
}
