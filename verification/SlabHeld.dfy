/** What callers hold: live chunks and page runs, where they lie, and how an operation may change them. */
module SlabHeld {
  import opened Lists
  import opened SlabList
  import opened SlabRuns
  import opened SlabPages
  import opened SlabSlots
  import opened C = SlabChunks

  /** A live allocation: chunk `c` of a chunk page, or a run of whole pages. */
  datatype Alloc = ChunkOf(page: nat, c: nat) | RunOf(page: nat)

  ghost predicate IsRun(p: Pool, s: Shape, i: nat) {
    i < |p.m.pages| && IsHead(s.owner, i) && !Free(s, i) && p.m.pages[i].kind == PageKind && i < |s.size|
  }

  ghost predicate Held(p: Pool, s: Shape, a: Alloc) {
    match a
    case ChunkOf(i, c) => C.Taken(p, i, c)
    case RunOf(i) => IsRun(p, s, i)
  }

  /** The first byte of an allocation, counted from the start of the pool. */
  ghost function Start(p: Pool, s: Shape, a: Alloc): nat
    requires Held(p, s, a)
  {
    match a
    case ChunkOf(i, c) => i * 4096 + c * ChunkSize(ShiftOf(p.m.pages[i]))
    case RunOf(i) => i * 4096
  }

  ghost function Length(p: Pool, s: Shape, a: Alloc): nat
    requires Held(p, s, a)
  {
    match a
    case ChunkOf(i, c) => ChunkSize(ShiftOf(p.m.pages[i]))
    case RunOf(i) => s.size[i] * 4096
  }

  // ----- No two allocations overlap -----

  lemma {:induction false} ChunkInside(shift: nat, c: nat)
    requires 3 <= shift <= 11 && c < Count(shift)
    ensures c * ChunkSize(shift) + ChunkSize(shift) <= 4096
    ensures Reserved(shift) <= c ==> Reserved(shift) * ChunkSize(shift) <= c * ChunkSize(shift)
  {
    Geometry(shift);
    Mul(c + 1, Count(shift), ChunkSize(shift));
    if Reserved(shift) <= c { Mul(Reserved(shift), c, ChunkSize(shift)); }
  }

  lemma {:induction false} Mul(a: nat, b: nat, k: nat)
    requires a <= b
    ensures a * k <= b * k && (a + 1) * k == a * k + k
  {
  }

  lemma {:induction false} RunInside(p: Pool, s: Shape, i: nat)
    requires PoolOk(p, s) && i < |p.m.pages| && IsHead(s.owner, i) && !Free(s, i)
    ensures i < |s.size| == |p.m.pages| && 0 < s.size[i] && i + s.size[i] <= |p.m.pages|
    ensures p.m.pages[i].kind != PageKind ==> s.size[i] == 1
    ensures forall j :: i <= j < i + s.size[i] ==> s.owner[j] == i
  {
    assert RunFrom(s.owner, s.size, i) && DescOk(p.m, s, i);
  }

  lemma {:induction false} SoundPool(p: Pool, s: Shape)
    requires PoolOk(p, s)
    ensures Sound(p.m, s, -1) && |p.m.pages| == |p.words|
  {
  }

  /** Every allocation lies in the run of its page. */
  lemma {:induction false} InOwnRun(p: Pool, s: Shape, a: Alloc)
    requires PoolOk(p, s) && Held(p, s, a)
    ensures a.page < |p.m.pages| == |s.size| && IsHead(s.owner, a.page) && a.page + s.size[a.page] <= |p.m.pages|
    ensures forall j :: a.page <= j < a.page + s.size[a.page] ==> s.owner[j] == a.page
    ensures a.page * 4096 <= Start(p, s, a) && Start(p, s, a) + Length(p, s, a) <= (a.page + s.size[a.page]) * 4096
  {
    hide DescOk, Coalesced, Runs, Reserved, Count, ChunkSize, Linked, Used, PoolOk;
    var i := a.page;
    SoundPool(p, s);
    if a.ChunkOf? {
      ChunksOffFree(p.m, s, i);
      ChunkInside(ShiftOf(p.m.pages[i]), a.c);
    }
    RunInside(p, s, i);
  }

  /** Live allocations of all four classes are disjoint. */
  lemma {:induction false} HeldDisjoint(p: Pool, s: Shape, a: Alloc, b: Alloc)
    requires PoolOk(p, s) && Held(p, s, a) && Held(p, s, b) && a != b
    ensures Start(p, s, a) + Length(p, s, a) <= Start(p, s, b) || Start(p, s, b) + Length(p, s, b) <= Start(p, s, a)
  {
    hide DescOk, Coalesced, Runs, Reserved, Count, ChunkSize;
    InOwnRun(p, s, a);
    InOwnRun(p, s, b);
    if a.page == b.page {
      var k := ChunkSize(ShiftOf(p.m.pages[a.page]));
      if a.c < b.c { Mul(a.c + 1, b.c, k); Mul(a.c, b.c, k); } else { Mul(b.c + 1, a.c, k); Mul(b.c, a.c, k); }
    }
  }

  /** No allocation touches the bitmap of a page of small chunks. */
  lemma {:induction false} HeldOffBitmap(p: Pool, s: Shape, a: Alloc, i: nat)
    requires PoolOk(p, s) && Held(p, s, a) && IsChunks(p.m, i) && p.m.pages[i].kind == Small
    ensures 3 <= ShiftOf(p.m.pages[i]) <= 5
    ensures var bytes := Count(ShiftOf(p.m.pages[i])) / 8;
      Start(p, s, a) + Length(p, s, a) <= i * 4096 || i * 4096 + bytes <= Start(p, s, a)
  {
    hide PoolOk, Used, Reserved, Count, ChunkSize;
    SmallPage(p, s, i);
    RunInside(p, s, i);
    InOwnRun(p, s, a);
    Geometry(ShiftOf(p.m.pages[i]));
    if a.page == i {
      ChunkInside(ShiftOf(p.m.pages[i]), a.c);
    } else {
      BitmapInPage(ShiftOf(p.m.pages[i]));
    }
  }

  lemma {:induction false} SmallPage(p: Pool, s: Shape, i: nat)
    requires PoolOk(p, s) && IsChunks(p.m, i) && p.m.pages[i].kind == Small
    ensures 3 <= ShiftOf(p.m.pages[i]) <= 5 && IsHead(s.owner, i) && !Free(s, i)
  {
    hide DescOk, Coalesced, Runs, Reserved, Count, ChunkSize, Linked;
    assert ChunkOk(p, s, i);
    ChunksOffFree(p.m, s, i);
  }

  lemma {:induction false} BitmapInPage(shift: nat)
    requires 3 <= shift <= 11
    ensures Count(shift) / 8 <= 4096
  {
    Geometry(shift);
  }

  // ----- How an operation may change the pool -----

  /** Allocation `a` is new and every other one is what and where it was. */
  ghost predicate Grants(p: Pool, s: Shape, p': Pool, s': Shape, a: Alloc) {
    && !Held(p, s, a) && Held(p', s', a) && |p'.m.pages| == |p.m.pages|
    && forall b :: b != a ==>
      && (Held(p', s', b) <==> Held(p, s, b))
      && (Held(p, s, b) ==> Start(p', s', b) == Start(p, s, b) && Length(p', s', b) == Length(p, s, b))
  }

  /** Every page but `i` stands as before. */
  ghost predicate Elsewhere(p: Pool, s: Shape, p': Pool, s': Shape, i: nat) {
    && |p'.m.pages| == |p.m.pages| == |p.words| == |p'.words| && i < |p.words| && p'.words == p.words[i := p'.words[i]]
    && |s.lists| == |s'.lists|
    && forall j: nat :: j != i ==> SameAt(p, s, p', s', j)
  }

  ghost predicate SameAt(p: Pool, s: Shape, p': Pool, s': Shape, j: nat) {
    && (IsChunks(p'.m, j) <==> IsChunks(p.m, j))
    && (IsChunks(p.m, j) ==> p'.m.pages[j].slab == p.m.pages[j].slab && p'.m.pages[j].kind == p.m.pages[j].kind)
    && (IsRun(p', s', j) <==> IsRun(p, s, j)) && (IsRun(p, s, j) ==> s'.size[j] == s.size[j])
    && forall l: nat :: 0 < l < |s.lists| && l < |s'.lists| ==> (j in s'.lists[l] <==> j in s.lists[l])
  }

  lemma {:induction false} SameLength(p: Pool, s: Shape, p': Pool, s': Shape, i: nat)
    requires Elsewhere(p, s, p', s', i)
    ensures |p'.m.pages| == |p.m.pages|
  {
  }

  lemma {:induction false} SameUsed(p: Pool, s: Shape, p': Pool, s': Shape, i: nat, j: nat)
    requires Elsewhere(p, s, p', s', i) && j != i && IsChunks(p.m, j)
    ensures forall c: nat :: Used(p', j, c) <==> Used(p, j, c)
    ensures forall c: nat :: C.Taken(p', j, c) <==> C.Taken(p, j, c)
  {
    assert SameAt(p, s, p', s', j);
  }

  lemma {:induction false} SameChunk(p: Pool, s: Shape, p': Pool, s': Shape, i: nat, j: nat)
    requires PoolOk(p, s) && Ok(p'.m, s') && Elsewhere(p, s, p', s', i) && j != i && IsChunks(p.m, j)
    ensures ChunkOk(p', s', j)
  {
    hide DescOk, Coalesced, Runs, Linked, Used, C.Taken;
    assert SameAt(p, s, p', s', j) && ChunkOk(p, s, j);
    SameUsed(p, s, p', s', i, j);
    ChunksOffFree(p.m, s, j);
    ChunksOffFree(p'.m, s', j);
    assert Loose(s.lists, j) <==> Loose(s'.lists, j) by {
      if Loose(s.lists, j) {
        forall l | 0 <= l < |s'.lists| ensures j !in s'.lists[l] { }
      }
      if Loose(s'.lists, j) {
        forall l | 0 <= l < |s.lists| ensures j !in s.lists[l] { }
      }
    }
  }

  lemma {:induction false} PoolFrame(p: Pool, s: Shape, p': Pool, s': Shape, i: nat)
    requires PoolOk(p, s) && Ok(p'.m, s') && Elsewhere(p, s, p', s', i) && (IsChunks(p'.m, i) ==> ChunkOk(p', s', i))
    ensures PoolOk(p', s')
  {
    hide DescOk, Coalesced, Runs, Linked, ChunkOk;
    forall j: nat | IsChunks(p'.m, j) ensures ChunkOk(p', s', j) {
      if j != i {
        assert SameAt(p, s, p', s', j);
        SameChunk(p, s, p', s', i, j);
      }
    }
  }

  /** Allocations on other pages stay. */
  lemma {:induction false} HeldElsewhere(p: Pool, s: Shape, p': Pool, s': Shape, i: nat, b: Alloc)
    requires Elsewhere(p, s, p', s', i) && b.page != i
    ensures Held(p', s', b) <==> Held(p, s, b)
    ensures Held(p, s, b) ==> Start(p', s', b) == Start(p, s, b) && Length(p', s', b) == Length(p, s, b)
  {
    hide Used, Reserved, Count, ChunkSize;
    assert SameAt(p, s, p', s', b.page);
    if IsChunks(p.m, b.page) { SameUsed(p, s, p', s', i, b.page); }
  }
}
