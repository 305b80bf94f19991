/** ncx_slab_free_locked. */
module SlabReturn {
  import opened Lists
  import opened Triangular
  import opened RoundUp
  import opened Words
  import opened SlabList
  import opened SlabRuns
  import opened SlabPages
  import opened SlabMerge
  import opened SlabSlots
  import opened C = SlabChunks
  import opened SlabFind
  import opened SlabHeld
  import opened SlabAlloc

  // ----- Frames -----

  lemma {:induction false} ElsewhereSym(p: Pool, s: Shape, p': Pool, s': Shape, i: nat)
    requires Elsewhere(p, s, p', s', i)
    ensures Elsewhere(p', s', p, s, i)
  {
    forall j: nat | j != i ensures SameAt(p', s', p, s, j) {
      assert SameAt(p, s, p', s', j);
    }
  }

  lemma {:induction false} ElsewhereTrans(p: Pool, s: Shape, p1: Pool, s1: Shape, p2: Pool, s2: Shape, i: nat)
    requires Elsewhere(p, s, p1, s1, i) && Elsewhere(p1, s1, p2, s2, i)
    ensures Elsewhere(p, s, p2, s2, i)
  {
    forall j: nat | j != i ensures SameAt(p, s, p2, s2, j) {
      assert SameAt(p, s, p1, s1, j) && SameAt(p1, s1, p2, s2, j);
    }
  }

  lemma {:induction false} ElsewhereRefl(p: Pool, s: Shape, i: nat)
    requires i < |p.words| == |p.m.pages|
    ensures Elsewhere(p, s, p, s, i)
  {
    forall j: nat | j != i ensures SameAt(p, s, p, s, j) { }
  }

  /** A page whose bits alone changed. */
  lemma {:induction false} BitsElsewhere(p: Pool, s: Shape, p': Pool, i: nat)
    requires i < |p.m.pages| && SamePages(p, p', i)
    ensures Elsewhere(p, s, p', s, i)
  {
    forall j: nat | j != i ensures SameAt(p, s, p', s, j) { }
  }

  lemma {:induction false} ReturnSame(p: Pool, s: Shape, i: nat, n: nat, m': Memory, s': Shape, j: nat)
    requires Releasable(p.m, s, i, n) && Ok(m', s') && Returned(p.m, s, i, n, m', s') && j < |p.m.pages| && j != i
    ensures IsChunks(m', j) <==> IsChunks(p.m, j)
    ensures IsChunks(p.m, j) ==> m'.pages[j].slab == p.m.pages[j].slab && m'.pages[j].kind == p.m.pages[j].kind
    ensures IsRun(p.(m := m'), s', j) <==> IsRun(p, s, j)
    ensures IsRun(p, s, j) ==> s'.size[j] == s.size[j]
  {
    hide Coalesced, Linked;
    assert DescOk(p.m, s, j);
    if Free(s', j) {
      FreePlain(m', s', j);
      assert RunFrom(s.owner, s.size, i);
    }
  }

  lemma {:induction false} ReturnElsewhere(p: Pool, s: Shape, i: nat, n: nat, m': Memory, s': Shape)
    requires Releasable(p.m, s, i, n) && Ok(m', s') && Returned(p.m, s, i, n, m', s') && |p.words| == |p.m.pages|
    ensures Elsewhere(p, s, p.(m := m'), s', i)
    ensures !IsChunks(m', i) && !IsRun(p.(m := m'), s', i) && Free(s', i)
  {
    hide DescOk, Coalesced, Linked;
    assert RunFrom(s.owner, s.size, i);
    assert Free(s', i);
    FreePlain(m', s', i);
    var p' := p.(m := m');
    forall j: nat | j != i ensures SameAt(p, s, p', s', j) {
      if j < |p.m.pages| { ReturnSame(p, s, i, n, m', s', j); }
      forall l: nat | 0 < l < |s.lists| && l < |s'.lists| ensures j in s'.lists[l] <==> j in s.lists[l] { }
    }
  }

  // ----- Page runs -----

  /** Allocation `a` is gone and every other one is what and where it was. */
  ghost predicate Revokes(p: Pool, s: Shape, p': Pool, s': Shape, a: Alloc) {
    Grants(p', s', p, s, a)
  }

  lemma {:induction false} RunReleasable(p: Pool, s: Shape, i: nat)
    requires PoolOk(p, s) && IsRun(p, s, i)
    ensures Releasable(p.m, s, i, s.size[i]) && p.m.pages[i].slab == START + s.size[i] && 0 < s.size[i] < START
  {
    hide ChunkOk, Coalesced;
    assert DescOk(p.m, s, i) && RunFrom(s.owner, s.size, i);
    forall l | 0 <= l < |s.lists| ensures i !in s.lists[l] {
      assert i in s.lists[l] ==> Member(p.m, s, l, i);
    }
  }

  lemma {:induction false} RunRevokes(p: Pool, s: Shape, p': Pool, s': Shape, i: nat)
    requires IsRun(p, s, i) && Elsewhere(p, s, p', s', i) && !IsChunks(p'.m, i) && !IsRun(p', s', i)
    ensures Revokes(p, s, p', s', RunOf(i))
  {
    hide Used, Reserved, Count, ChunkSize;
    var a := RunOf(i);
    SameLength(p, s, p', s', i);
    forall b | b != a
      ensures Held(p, s, b) <==> Held(p', s', b)
      ensures Held(p', s', b) ==> Start(p, s, b) == Start(p', s', b) && Length(p, s, b) == Length(p', s', b)
    {
      if b.page != i { HeldElsewhere(p, s, p', s', i, b); }
    }
  }

  /** Page `i` heads a free run. */
  ghost predicate FreeHead(p: Pool, s: Shape, i: nat) {
    i < |p.m.pages| && Free(s, i) && IsHead(s.owner, i)
  }

  /** No allocation changes. */
  ghost predicate Steady(p: Pool, s: Shape, p': Pool, s': Shape) {
    && |p'.m.pages| == |p.m.pages|
    && forall b ::
      && (Held(p', s', b) <==> Held(p, s, b))
      && (Held(p, s, b) ==> Start(p', s', b) == Start(p, s, b) && Length(p', s', b) == Length(p, s, b))
  }

  lemma {:induction false} HeadFreeRun(p: Pool, s: Shape, i: nat)
    requires PoolOk(p, s) && FreeHead(p, s, i)
    ensures i < |s.size| && FreeRun(p.m, s, i, s.size[i]) && p.m.pages[i].slab == s.size[i] < START && !IsChunks(p.m, i)
  {
    hide ChunkOk, Coalesced;
    assert DescOk(p.m, s, i) && RunFrom(s.owner, s.size, i);
  }

  lemma {:induction false} FrontedElsewhere(p: Pool, s: Shape, i: nat, m': Memory, s': Shape)
    requires PoolOk(p, s) && FreeHead(p, s, i) && Fronted(p.m, s, i, m', s')
    ensures Elsewhere(p, s, p.(m := m'), s', i)
    ensures !IsChunks(m', i) && !IsRun(p.(m := m'), s', i) && !IsRun(p, s, i)
  {
    hide DescOk, ChunkOk, Runs;
    HeadFreeRun(p, s, i);
    var k: nat :| k < |s.lists[0]| && s.lists[0][k] == i && s' == Moved(s, k);
    MovedMembers(p.m, s, k);
    forall j: nat | j != i ensures SameAt(p, s, p.(m := m'), s', j) {
      forall l: nat | 0 < l < |s.lists| && l < |s'.lists| ensures j in s'.lists[l] <==> j in s.lists[l] { }
    }
  }

  lemma {:induction false} FrontedSteady(p: Pool, s: Shape, i: nat, m': Memory, s': Shape)
    requires PoolOk(p, s) && FreeHead(p, s, i) && Ok(m', s') && Fronted(p.m, s, i, m', s')
    ensures PoolOk(p.(m := m'), s') && Steady(p, s, p.(m := m'), s')
  {
    hide PoolOk, Ok, Elsewhere, Fronted, Used, Reserved, Count, ChunkSize;
    var p' := p.(m := m');
    FrontedElsewhere(p, s, i, m', s');
    HeadFreeRun(p, s, i);
    PoolFrame(p, s, p', s', i);
    SameLength(p, s, p', s', i);
    forall b
      ensures Held(p', s', b) <==> Held(p, s, b)
      ensures Held(p, s, b) ==> Start(p', s', b) == Start(p, s, b) && Length(p', s', b) == Length(p, s, b)
    {
      if b.page != i { HeldElsewhere(p, s, p', s', i, b); }
    }
  }

  /** Freeing a run of whole pages; one that is free already moves to the front of the free list. */
  method ReturnRun(p: Pool, i: nat, ghost s: Shape) returns (p': Pool, ghost s': Shape)
    requires PoolOk(p, s) && (IsRun(p, s, i) || FreeHead(p, s, i))
    ensures PoolOk(p', s') && Free(s', i)
    ensures IsRun(p, s, i) ==> Revokes(p, s, p', s', RunOf(i))
    ensures FreeHead(p, s, i) ==> Steady(p, s, p', s') && Fronted(p.m, s, i, p'.m, s') && p'.words == p.words
  {
    hide DescOk, Coalesced, Runs, Linked, ChunkOk, Elsewhere, Revokes, Returned, Releasable, FreeRun, Fronted, Steady;
    if IsRun(p, s, i) { RunReleasable(p, s, i); } else { HeadFreeRun(p, s, i); }
    var slab := p.m.pages[i].slab;
    var n := if slab >= START then slab - START else slab;
    var m1, s1 := FreePages(p.m, i, n, s);
    p', s' := p.(m := m1), s1;
    if IsRun(p, s, i) {
      ReturnElsewhere(p, s, i, n, m1, s1);
      PoolFrame(p, s, p', s', i);
      RunRevokes(p, s, p', s', i);
    } else {
      FrontedSteady(p, s, i, m1, s1);
      FrontedFree(p.m, s, i, m1, s1);
    }
  }

  lemma {:induction false} FrontedFree(m: Memory, s: Shape, i: nat, m': Memory, s': Shape)
    requires Fronted(m, s, i, m', s') && IsHead(s.owner, i)
    ensures Free(s', i)
  {
  }

  // ----- Chunks -----

  /** Page `i` is on its list, with its bits as in `p`. */
  ghost predicate Relinked(p: Pool, s: Shape, i: nat, p1: Pool, s1: Shape) {
    && Elsewhere(p, s, p1, s1, i) && Ok(p1.m, s1) && p1.words == p.words && |s1.lists| == |s.lists|
    && i < |p.m.pages| == |p1.m.pages| && IsChunks(p1.m, i)
    && p1.m.pages[i].slab == p.m.pages[i].slab && p1.m.pages[i].kind == p.m.pages[i].kind
    && p1.m.pages[i].next != Null && ShiftOf(p1.m.pages[i]) >= 3 && OnList(s1.lists, ShiftOf(p1.m.pages[i]) - 2, i)
  }

  /** A full page goes back on the list of its shift. */
  method Relink(p: Pool, i: nat, ghost s: Shape) returns (p1: Pool, ghost s1: Shape)
    requires PoolOk(p, s) && IsChunks(p.m, i)
    ensures Relinked(p, s, i, p1, s1)
  {
    hide DescOk, Coalesced, Runs, Linked, Elsewhere, Push, SlotFrame, MapOk, Used, C.Taken, Full;
    assert ChunkOk(p, s, i);
    ElsewhereRefl(p, s, i);
    if p.m.pages[i].next == Null {
      var l := ShiftOf(p.m.pages[i]) - 2;
      KindOfShift(p, i);
      PushOk(p.m, s, l, i);
      p1 := p.(m := Push(p.m, l, i, p.m.pages[i].kind));
      s1 := s.(lists := s.lists[l := [i] + s.lists[l]]);
      SlotElsewhere(p, s, p, s, p1, s1, l, i);
    } else {
      p1, s1 := p, s;
    }
  }

  lemma {:induction false} KindOfShift(p: Pool, i: nat)
    requires i < |p.m.pages| == |p.words| && IsChunks(p.m, i) && MapOk(p, i)
    ensures p.m.pages[i].kind == ListKind(ShiftOf(p.m.pages[i]) - 2)
  {
  }

  /** The bits of page `i` are those of `p` without chunk `c`. */
  ghost predicate Cleared(p: Pool, s: Shape, i: nat, c: nat, p2: Pool, s2: Shape) {
    && Elsewhere(p, s, p2, s2, i) && IsChunks(p.m, i) && IsChunks(p2.m, i)
    && i < |p2.m.pages| == |p2.words| && MapOk(p2, i) && ShiftOf(p2.m.pages[i]) == ShiftOf(p.m.pages[i])
    && (forall e: nat :: Used(p2, i, e) <==> Used(p, i, e) && e != c)
    && p2.m.pages[i].next != Null && OnList(s2.lists, ShiftOf(p2.m.pages[i]) - 2, i)
  }

  lemma {:induction false} UnmarkCleared(p: Pool, s: Shape, i: nat, c: nat, p1: Pool, s1: Shape)
    requires Relinked(p, s, i, p1, s1) && Chunk(p, i, c)
    ensures Chunk(p1, i, c) && (p1.m.pages[i].kind == Small ==> c / 64 < |p1.words[i]|)
    ensures Cleared(p, s, i, c, Unmark(p1, i, c), s1) && SamePages(p1, Unmark(p1, i, c), i)
  {
    hide Elsewhere, Ok, Unmark, Used, Bit, Shr, Pow2, Count, Reserved;
    assert Chunk(p1, i, c);
    WordOf(p1, i, c);
    UnmarkOk(p1, i, c);
    var p2 := Unmark(p1, i, c);
    BitsElsewhere(p1, s1, p2, i);
    ElsewhereTrans(p, s, p1, s1, p2, s1, i);
    forall e: nat ensures Used(p2, i, e) <==> Used(p, i, e) && e != c {
      UnmarkUsed(p1, i, c, i, e);
      SameBits(p, p1, i, e);
    }
  }

  lemma {:induction false} SameBits(p: Pool, p1: Pool, i: nat, e: nat)
    requires i < |p.m.pages| == |p1.m.pages| && p1.words == p.words
    requires p1.m.pages[i].slab == p.m.pages[i].slab && p1.m.pages[i].kind == p.m.pages[i].kind
    ensures Used(p1, i, e) <==> Used(p, i, e)
  {
  }

  /** Some chunk is still taken: the page stays. */
  lemma {:induction false} StillUsed(p: Pool, s: Shape, i: nat, c: nat, p1: Pool, s1: Shape, p2: Pool)
    requires PoolOk(p, s) && Relinked(p, s, i, p1, s1) && Cleared(p, s, i, c, p2, s1) && SamePages(p1, p2, i)
    requires Chunk(p, i, c) && C.Taken(p, i, c) && exists e: nat :: C.Taken(p2, i, e)
    ensures PoolOk(p2, s1) && Revokes(p, s, p2, s1, ChunkOf(i, c)) && !Free(s1, i)
  {
    hide DescOk, Coalesced, Runs, Linked, Elsewhere, Used, MapOk, Count, Reserved, ChunkSize, SamePages;
    SlabNonZero(p2, i);
    PatchOk(p1, s1, p2, i);
    ClearedChunkOk(p, s, i, c, p2, s1);
    PoolFrame(p, s, p2, s1, i);
    ElsewhereSym(p, s, p2, s1, i);
    assert Marked(p2, s1, i, c, p, s);
    ClearedChunk(p, i, c, p2);
    MarkedGrants(p2, s1, i, c, p, s);
    ChunksOffFree(p2.m, s1, i);
  }

  lemma {:induction false} ClearedChunk(p: Pool, i: nat, c: nat, p2: Pool)
    requires Chunk(p, i, c) && i < |p2.m.pages| == |p2.words| && IsChunks(p2.m, i) && MapOk(p2, i)
    requires ShiftOf(p2.m.pages[i]) == ShiftOf(p.m.pages[i])
    ensures Chunk(p2, i, c)
  {
  }

  lemma {:induction false} SlabNonZero(p: Pool, i: nat)
    requires i < |p.m.pages| == |p.words| && IsChunks(p.m, i) && MapOk(p, i) && exists e: nat :: C.Taken(p, i, e)
    ensures p.m.pages[i].slab != 0
  {
    hide Bit, Shr, Pow2;
    if p.m.pages[i].kind == Exact { ExactIdle(p, i); }
  }

  lemma {:induction false} PatchOk(p1: Pool, s1: Shape, p2: Pool, i: nat)
    requires Ok(p1.m, s1) && IsChunks(p1.m, i) && SamePages(p1, p2, i) && p2.m.pages[i].slab != 0
    ensures Ok(p2.m, s1)
  {
    hide Ok;
    WriteOk(p1.m, s1, i, p2.m.pages[i].slab);
  }

  lemma {:induction false} ClearedChunkOk(p: Pool, s: Shape, i: nat, c: nat, p2: Pool, s2: Shape)
    requires i < |p.m.pages| == |p.words| && ChunkOk(p, s, i) && Cleared(p, s, i, c, p2, s2) && Chunk(p, i, c)
    requires C.Taken(p, i, c) && exists e: nat :: C.Taken(p2, i, e)
    ensures ChunkOk(p2, s2, i)
  {
    hide Elsewhere, Used, MapOk, Count, Reserved;
    assert !Used(p2, i, c);
  }

  /** The last chunk went: the page can go back to the page allocator. */
  lemma {:induction false} IdleReleasable(p1: Pool, s1: Shape, p2: Pool, i: nat)
    requires Ok(p1.m, s1) && IsChunks(p1.m, i) && SamePages(p1, p2, i)
    ensures Releasable(p2.m, s1, i, 1) && Coalesced(s1)
  {
    hide Coalesced, Runs, Linked;
    ChunksOffFree(p1.m, s1, i);
    WriteSlab(p1.m, s1.lists, i, p2.m.pages[i].slab);
    forall j: nat | j < |p2.m.pages| && j != i ensures DescOk(p2.m, s1, j) {
      assert DescOk(p1.m, s1, j);
    }
    forall l: nat, j: nat | l < |s1.lists| && j in s1.lists[l] ensures Member(p2.m, s1, l, j) {
      assert Member(p1.m, s1, l, j);
    }
  }

  lemma {:induction false} IdleRevokes(p: Pool, s: Shape, i: nat, c: nat, p2: Pool, s2: Shape, p': Pool, s': Shape)
    requires Cleared(p, s, i, c, p2, s2) && C.Taken(p, i, c) && forall e: nat :: !C.Taken(p2, i, e)
    requires Elsewhere(p, s, p', s', i) && !IsChunks(p'.m, i) && !IsRun(p', s', i)
    ensures Revokes(p, s, p', s', ChunkOf(i, c))
  {
    hide Used, Reserved, Count, ChunkSize, MapOk, Elsewhere;
    var a := ChunkOf(i, c);
    SameLength(p, s, p', s', i);
    forall b | b != a
      ensures Held(p, s, b) <==> Held(p', s', b)
      ensures Held(p', s', b) ==> Start(p, s, b) == Start(p', s', b) && Length(p, s, b) == Length(p', s', b)
    {
      if b.page != i {
        HeldElsewhere(p, s, p', s', i, b);
      } else if b.ChunkOf? {
        assert !C.Taken(p2, i, b.c);
      }
    }
  }

  /** Chunk `c` of page `i`, which holds the bitmap of the page, counts as free. */
  ghost predicate Pierced(p: Pool, s: Shape, i: nat, c: nat, p': Pool, s': Shape) {
    && Elsewhere(p, s, p', s', i) && IsChunks(p.m, i) && IsChunks(p'.m, i) && MapOk(p', i)
    && ShiftOf(p'.m.pages[i]) == ShiftOf(p.m.pages[i]) && 3 <= ShiftOf(p.m.pages[i]) <= 11
    && c < Reserved(ShiftOf(p.m.pages[i])) && forall e: nat :: Used(p', i, e) <==> Used(p, i, e) && e != c
  }

  lemma {:induction false} ReservedStays(p: Pool, s: Shape, i: nat, c: nat, p2: Pool, s2: Shape)
    requires i < |p.m.pages| == |p.words| && ChunkOk(p, s, i) && Cleared(p, s, i, c, p2, s2) && Chunk(p, i, c)
    requires Used(p, i, c) && !C.Taken(p, i, c)
    ensures (exists e: nat :: C.Taken(p2, i, e)) && Pierced(p, s, i, c, p2, s2)
  {
    hide Elsewhere, Used, MapOk, Count;
    var e: nat :| C.Taken(p, i, e);
    assert C.Taken(p2, i, e);
  }

  /** No shape makes a sound pool of it. */
  lemma {:induction false} PiercedUnsound(p: Pool, s: Shape, i: nat, c: nat, p': Pool, s': Shape)
    requires Pierced(p, s, i, c, p', s')
    ensures forall s0 :: !PoolOk(p', s0)
  {
    hide Elsewhere, Used, MapOk, Count, Reserved, Ok;
    forall s0 ensures !PoolOk(p', s0) {
      assert !Used(p', i, c);
      assert PoolOk(p', s0) ==> ChunkOk(p', s0, i);
    }
  }

  /** The chunk that the page gives out next lies in its bitmap. */
  method PiercedGivesBitmap(p: Pool, i: nat, c: nat, p': Pool, ghost s: Shape, ghost s': Shape) returns (d: nat)
    requires Pierced(p, s, i, c, p', s')
    ensures d < Reserved(ShiftOf(p'.m.pages[i])) && !Used(p', i, d) && forall e: nat :: e < d ==> Used(p', i, e)
  {
    hide Elsewhere, Used, MapOk, Count, Reserved;
    Geometry(ShiftOf(p.m.pages[i]));
    assert !Used(p', i, c);
    PiercedBounds(p, s, i, c, p', s');
    d := FindClear(p', i);
  }

  lemma {:induction false} PiercedBounds(p: Pool, s: Shape, i: nat, c: nat, p': Pool, s': Shape)
    requires Pierced(p, s, i, c, p', s')
    ensures i < |p'.m.pages| == |p'.words|
  {
    hide SameAt;
  }

  /** Freeing a chunk; its page goes back to the page allocator exactly when no other chunk of it is taken. A chunk that
      holds the bitmap is marked free like any other. */
  method ReturnChunk(p: Pool, i: nat, c: nat, ghost s: Shape) returns (p': Pool, ghost s': Shape)
    requires PoolOk(p, s) && Chunk(p, i, c) && Used(p, i, c)
    ensures C.Taken(p, i, c) ==> PoolOk(p', s') && Revokes(p, s, p', s', ChunkOf(i, c))
    ensures C.Taken(p, i, c) ==> (Free(s', i) <==> forall e: nat :: C.Taken(p, i, e) ==> e == c)
    ensures !C.Taken(p, i, c) ==> Pierced(p, s, i, c, p', s')
  {
    hide DescOk, Coalesced, Runs, Linked, Elsewhere, Used, Revokes, Releasable, Returned, Cleared, Relinked, Unmark,
      SamePages,
      Reserved, Count, MapOk, FreeRun, Fronted, Pierced;
    assert ChunkOk(p, s, i);
    var p1, s1 := Relink(p, i, s);
    UnmarkCleared(p, s, i, c, p1, s1);
    var p2 := Unmark(p1, i, c);
    ClearedFacts(p, s, i, c, p2, s1);
    if !C.Taken(p, i, c) { ReservedStays(p, s, i, c, p2, s1); }
    var idle := IsIdle(p2, i);
    if idle {
      RelinkedFacts(p, s, i, p1, s1);
      IdleReleasable(p1, s1, p2, i);
      var m3, s3 := FreePages(p2.m, i, 1, s1);
      p', s' := p2.(m := m3), s3;
      ReturnElsewhere(p2, s1, i, 1, m3, s3);
      ElsewhereTrans(p, s, p2, s1, p', s', i);
      PoolFrame(p, s, p', s', i);
      IdleRevokes(p, s, i, c, p2, s1, p', s');
    } else {
      p', s' := p2, s1;
      if C.Taken(p, i, c) { StillUsed(p, s, i, c, p1, s1, p2); }
    }
  }

  lemma {:induction false} RelinkedFacts(p: Pool, s: Shape, i: nat, p1: Pool, s1: Shape)
    requires Relinked(p, s, i, p1, s1)
    ensures Ok(p1.m, s1) && IsChunks(p1.m, i)
  {
  }

  lemma {:induction false} ClearedFacts(p: Pool, s: Shape, i: nat, c: nat, p2: Pool, s2: Shape)
    requires Cleared(p, s, i, c, p2, s2) && 3 <= ShiftOf(p.m.pages[i]) <= 11
    ensures i < |p2.m.pages| == |p2.words| && MapOk(p2, i) && IsChunks(p2.m, i) && 3 <= ShiftOf(p2.m.pages[i]) <= 11
    ensures Elsewhere(p, s, p2, s2, i)
    ensures (forall e: nat :: !C.Taken(p2, i, e)) <==> forall e: nat :: C.Taken(p, i, e) ==> e == c
  {
    hide Used, MapOk, Elsewhere, Reserved, Count;
    forall e: nat ensures C.Taken(p2, i, e) <==> C.Taken(p, i, e) && e != c { }
  }

  // ----- ncx_slab_free_locked -----

  predicate Aligned(addr: nat, shift: nat)
    requires 3 <= shift <= 11
  {
    addr % ChunkSize(shift) == 0
  }

  /** The chunk an address points to. */
  function ChunkAt(addr: nat, shift: nat): nat
    requires 3 <= shift <= 11
  {
    Quotient(addr % 4096, ChunkSize(shift))
  }

  function Quotient(x: nat, k: nat): nat
    requires k > 0
  {
    x / k
  }

  /** The tests of the code on the descriptor of an address: a chunk must be aligned and in use, a run must be at the
      start of a page whose word is neither free nor busy. */
  predicate PassesAt(p: Pool, addr: nat)
    requires addr / 4096 < |p.m.pages|
  {
    var i := addr / 4096;
    var d := p.m.pages[i];
    if d.kind == PageKind then addr % 4096 == 0 && d.slab != 0 && d.slab != BUSY
    else 3 <= ShiftOf(d) <= 11 && Aligned(addr, ShiftOf(d)) && Used(p, i, ChunkAt(addr, ShiftOf(d)))
  }

  /** All tests of the code. An address up to and including `end` passes the first one, also where no descriptor is;
      `beyond` is what the other tests make of the memory read there instead. */
  predicate Accepts(p: Pool, addr: int, end: nat, beyond: bool) {
    0 <= addr <= end && if addr / 4096 < |p.m.pages| then PassesAt(p, addr) else beyond
  }

  /** A live allocation starts at the address. */
  ghost predicate LiveAt(p: Pool, s: Shape, addr: int) {
    exists a :: Held(p, s, a) && Start(p, s, a) == addr
  }

  /** The first page of a free run. */
  ghost predicate FreeRunHead(p: Pool, s: Shape, addr: nat) {
    var i := addr / 4096;
    i < |p.m.pages| && !IsChunks(p.m, i) && Free(s, i) && IsHead(s.owner, i) && addr % 4096 == 0
  }

  /** A chunk that holds the bitmap of its page. */
  ghost predicate BitmapChunk(p: Pool, addr: nat) {
    var i := addr / 4096;
    && IsChunks(p.m, i) && p.m.pages[i].kind == Small && 3 <= ShiftOf(p.m.pages[i]) <= 11
    && Aligned(addr, ShiftOf(p.m.pages[i])) && ChunkAt(addr, ShiftOf(p.m.pages[i])) < Reserved(ShiftOf(p.m.pages[i]))
  }

  /** Past the last page, where what is read as a descriptor happens to pass. */
  predicate Tail(p: Pool, addr: nat, end: nat, beyond: bool) {
    beyond && |p.m.pages| * 4096 <= addr <= end
  }

  /** The invalid addresses that the code accepts. */
  ghost predicate Undetected(p: Pool, s: Shape, addr: int, end: nat, beyond: bool) {
    addr >= 0 && (FreeRunHead(p, s, addr) || BitmapChunk(p, addr) || Tail(p, addr, end, beyond))
  }

  lemma {:induction false} DivExact(c: nat, k: nat)
    requires k > 0
    ensures c * k / k == c && c * k % k == 0
  {
    DivModUnique(c * k, c, 0, k);
  }

  /** The remainder by a chunk size looks only at the offset in the page. */
  lemma {:induction false} PageMod(i: nat, x: nat, shift: nat)
    requires 3 <= shift <= 11
    ensures ChunkSize(shift) > 0 && (i * 4096 + x) % ChunkSize(shift) == x % ChunkSize(shift)
  {
    hide ChunkSize, Count;
    Geometry(shift);
    SizePos(shift);
    assert i * 4096 == (i * Count(shift)) * ChunkSize(shift);
    ModShift(x, i * Count(shift), ChunkSize(shift));
  }

  lemma {:induction false} SizePos(shift: nat)
    requires 3 <= shift <= 11
    ensures ChunkSize(shift) > 0
  {
    Powers();
  }

  /** Where an allocation's address leads. */
  lemma {:induction false} Locate(p: Pool, s: Shape, b: Alloc)
    requires PoolOk(p, s) && Held(p, s, b)
    ensures Start(p, s, b) / 4096 == b.page
    ensures b.RunOf? ==> Start(p, s, b) % 4096 == 0
    ensures b.ChunkOf? ==> Aligned(Start(p, s, b), ShiftOf(p.m.pages[b.page]))
    ensures b.ChunkOf? ==> ChunkAt(Start(p, s, b), ShiftOf(p.m.pages[b.page])) == b.c
  {
    hide PoolOk, Used, Reserved, Count, ChunkSize;
    if b.ChunkOf? {
      var shift := ShiftOf(p.m.pages[b.page]);
      ChunkInside(shift, b.c);
      SizePos(shift);
      PageMod(b.page, b.c * ChunkSize(shift), shift);
      DivExact(b.c, ChunkSize(shift));
    }
  }

  /** The address of chunk `c`, from the tests on the address. */
  lemma {:induction false} Compose(addr: nat, shift: nat)
    requires 3 <= shift <= 11 && Aligned(addr, shift)
    ensures var c := ChunkAt(addr, shift);
      addr == addr / 4096 * 4096 + c * ChunkSize(shift) && c < Count(shift)
  {
    hide ChunkSize, Count;
    var k, x := ChunkSize(shift), addr % 4096;
    PageMod(addr / 4096, x, shift);
    Geometry(shift);
    var c := ChunkAt(addr, shift);
    assert x == c * k + x % k;
    if c >= Count(shift) { Mul(Count(shift), c, k); }
  }

  /** What freeing an address does. A live allocation is returned; an address that the code rejects changes nothing; the
      first page of a free run only moves the run to the front of the free list; a chunk that holds the bitmap of its
      page is marked free. */
  ghost predicate Effect(p: Pool, s: Shape, addr: int, p': Pool, s': Shape, a: Alloc) {
    if LiveAt(p, s, addr) then
      && PoolOk(p', s') && Held(p, s, a) && Start(p, s, a) == addr && Revokes(p, s, p', s', a)
      && (Free(s', a.page) <==> forall e: nat :: C.Taken(p, a.page, e) ==> a == ChunkOf(a.page, e))
    else if addr >= 0 && FreeRunHead(p, s, addr) then
      PoolOk(p', s') && Steady(p, s, p', s') && Fronted(p.m, s, addr / 4096, p'.m, s') && p'.words == p.words
    else if addr >= 0 && BitmapChunk(p, addr) then
      Pierced(p, s, addr / 4096, ChunkAt(addr, ShiftOf(p.m.pages[addr / 4096])), p', s')
    else p' == p && s' == s
  }

  method FreeAt(p: Pool, addr: int, end: nat, beyond: bool, ghost s: Shape)
    returns (p': Pool, ok: bool, ghost s': Shape, ghost a: Alloc)
    requires PoolOk(p, s) && |p.m.pages| * 4096 <= end && (addr >= 0 ==> !Tail(p, addr, end, beyond))
    ensures ok == Accepts(p, addr, end, beyond) && Effect(p, s, addr, p', s', a)
    ensures PoolOk(p', s') || (addr >= 0 && BitmapChunk(p, addr))
  {
    hide PoolOk, PassesAt, FreeRunHead, BitmapChunk, Effect, LiveAt;
    a := RunOf(0);
    if addr < 0 || addr > end || addr / 4096 >= |p.m.pages| {
      Outside(p, s, addr, end);
      NothingFreed(p, s, addr, a);
      return p, false, s, a;
    }
    var i := addr / 4096;
    if p.m.pages[i].kind != PageKind {
      p', ok, s', a := FreeChunkAt(p, i, addr, s);
    } else {
      p', ok, s', a := FreeRunAt(p, i, addr, s);
    }
  }

  lemma {:induction false} NothingFreed(p: Pool, s: Shape, addr: int, a: Alloc)
    requires !LiveAt(p, s, addr) && (addr >= 0 ==> !FreeRunHead(p, s, addr) && !BitmapChunk(p, addr))
    ensures Effect(p, s, addr, p, s, a)
  {
  }

  lemma {:induction false} Outside(p: Pool, s: Shape, addr: int, end: nat)
    requires PoolOk(p, s) && |p.m.pages| * 4096 <= end && (addr < 0 || addr > end || addr / 4096 >= |p.m.pages|)
    ensures !LiveAt(p, s, addr) && (addr >= 0 ==> !FreeRunHead(p, s, addr) && !BitmapChunk(p, addr))
  {
    hide PoolOk;
    forall b | Held(p, s, b) ensures Start(p, s, b) != addr { Within(p, s, b); }
  }

  lemma {:induction false} Within(p: Pool, s: Shape, b: Alloc)
    requires PoolOk(p, s) && Held(p, s, b)
    ensures 0 <= Start(p, s, b) < |p.m.pages| * 4096 && b.page < |p.m.pages|
  {
    InOwnRun(p, s, b);
    Locate(p, s, b);
  }

  lemma {:induction false} ChunkKind(p: Pool, s: Shape, i: nat)
    requires PoolOk(p, s) && IsChunks(p.m, i)
    ensures 3 <= ShiftOf(p.m.pages[i]) <= 11 && i < |p.words| == |p.m.pages|
    ensures ChunkOk(p, s, i)
  {
    assert ChunkOk(p, s, i);
  }

  /** No allocation starts at `addr`, whose page is cut into chunks. */
  lemma {:induction false} NotChunk(p: Pool, s: Shape, i: nat, addr: nat)
    requires PoolOk(p, s) && IsChunks(p.m, i) && i == addr / 4096
    requires 3 <= ShiftOf(p.m.pages[i]) <= 11
    requires !Aligned(addr, ShiftOf(p.m.pages[i])) || !Used(p, i, ChunkAt(addr, ShiftOf(p.m.pages[i])))
    ensures !LiveAt(p, s, addr)
  {
    hide PoolOk, Used, Reserved, Count, ChunkSize, Aligned, ChunkAt;
    forall b | Held(p, s, b) ensures Start(p, s, b) != addr { Locate(p, s, b); }
  }

  /** The address of a chunk in use that holds no bitmap. */
  lemma {:induction false} IsTaken(p: Pool, s: Shape, i: nat, addr: nat)
    requires PoolOk(p, s) && IsChunks(p.m, i) && i == addr / 4096 && !BitmapChunk(p, addr)
    requires 3 <= ShiftOf(p.m.pages[i]) <= 11
    requires Aligned(addr, ShiftOf(p.m.pages[i])) && Used(p, i, ChunkAt(addr, ShiftOf(p.m.pages[i])))
    ensures var a := ChunkOf(i, ChunkAt(addr, ShiftOf(p.m.pages[i]))); Held(p, s, a) && Start(p, s, a) == addr
  {
    hide PoolOk, Used, Count, ChunkSize, ChunkOk, Aligned, ChunkAt;
    Compose(addr, ShiftOf(p.m.pages[i]));
    ChunkKind(p, s, i);
    BigShift(p, s, i);
  }

  lemma {:induction false} BigShift(p: Pool, s: Shape, i: nat)
    requires i < |p.m.pages| == |p.words| && ChunkOk(p, s, i) && IsChunks(p.m, i)
    ensures p.m.pages[i].kind == Small || ShiftOf(p.m.pages[i]) >= 6
  {
  }

  method FreeChunkAt(p: Pool, i: nat, addr: nat, ghost s: Shape)
    returns (p': Pool, ok: bool, ghost s': Shape, ghost a: Alloc)
    requires PoolOk(p, s) && IsChunks(p.m, i) && i == addr / 4096
    ensures ok == PassesAt(p, addr) && Effect(p, s, addr, p', s', a) && (PoolOk(p', s') || BitmapChunk(p, addr))
  {
    hide PoolOk, Used, Revokes, ChunkOk, Reserved, Count, ChunkSize, C.Taken, BitmapChunk, LiveAt, Aligned, ChunkAt,
      Effect,
      FreeRunHead, Pierced;
    ChunkKind(p, s, i);
    a := RunOf(0);
    var shift := ShiftOf(p.m.pages[i]);
    if !Aligned(addr, shift) || !Used(p, i, ChunkAt(addr, shift)) {
      ChunkPasses(p, s, addr);
      NotHead(p, s, addr);
      NothingFreed(p, s, addr, a);
      return p, false, s, a;
    }
    var c := ChunkAt(addr, shift);
    ok, a := true, ChunkOf(i, c);
    ChunkIs(p, s, addr);
    p', s' := ReturnChunk(p, i, c, s);
    ChunkFreed(p, s, addr, p', s');
  }

  lemma {:induction false} NotHead(p: Pool, s: Shape, addr: nat)
    requires IsChunks(p.m, addr / 4096)
    ensures !FreeRunHead(p, s, addr)
  {
  }

  /** An address that passes names a chunk in use: of a caller, or of the bitmap. */
  lemma {:induction false} ChunkIs(p: Pool, s: Shape, addr: nat)
    requires PoolOk(p, s) && IsChunks(p.m, addr / 4096) && PassesAt(p, addr)
    ensures var i := addr / 4096; var shift := ShiftOf(p.m.pages[i]);
      && 3 <= shift <= 11 && Aligned(addr, shift)
      && Chunk(p, i, ChunkAt(addr, shift)) && Used(p, i, ChunkAt(addr, shift))
      && (C.Taken(p, i, ChunkAt(addr, shift)) <==> !BitmapChunk(p, addr))
  {
    hide PoolOk, Used, Count, ChunkSize, ChunkAt, ChunkOk;
    var i := addr / 4096;
    ChunkKind(p, s, i);
    Compose(addr, ShiftOf(p.m.pages[i]));
    ChunkMap(p, s, i);
    BigShift(p, s, i);
  }

  lemma {:induction false} ChunkMap(p: Pool, s: Shape, i: nat)
    requires i < |p.m.pages| == |p.words| && ChunkOk(p, s, i)
    ensures MapOk(p, i)
  {
  }

  lemma {:induction false} ChunkFreed(p: Pool, s: Shape, addr: nat, p': Pool, s': Shape)
    requires PoolOk(p, s) && IsChunks(p.m, addr / 4096) && PassesAt(p, addr)
    requires var i := addr / 4096; var c := ChunkAt(addr, ShiftOf(p.m.pages[i]));
      && (C.Taken(p, i, c) ==> PoolOk(p', s') && Revokes(p, s, p', s', ChunkOf(i, c)))
      && (C.Taken(p, i, c) ==> (Free(s', i) <==> forall e: nat :: C.Taken(p, i, e) ==> e == c))
      && (!C.Taken(p, i, c) ==> Pierced(p, s, i, c, p', s'))
    ensures Effect(p, s, addr, p', s', ChunkOf(addr / 4096, ChunkAt(addr, ShiftOf(p.m.pages[addr / 4096]))))
  {
    hide PoolOk, Used, Revokes, ChunkOk, Reserved, Count, ChunkSize, C.Taken, BitmapChunk, LiveAt, Aligned, ChunkAt,
      Pierced,
      PassesAt, FreeRunHead;
    ChunkIs(p, s, addr);
    ChunkPasses(p, s, addr);
    NotHead(p, s, addr);
    if !BitmapChunk(p, addr) { IsTaken(p, s, addr / 4096, addr); }
  }

  lemma {:induction false} PlainPage(p: Pool, s: Shape, i: nat)
    requires PoolOk(p, s) && i < |p.m.pages| && p.m.pages[i].kind == PageKind
    ensures IsRun(p, s, i) <==> p.m.pages[i].slab != BUSY && !Free(s, i)
    ensures p.m.pages[i].slab == 0 ==> Free(s, i) && !IsHead(s.owner, i)
    ensures Free(s, i) && !IsHead(s.owner, i) ==> p.m.pages[i].slab == 0
    ensures Free(s, i) && IsHead(s.owner, i) ==> p.m.pages[i].slab !in {0, BUSY}
  {
    assert DescOk(p.m, s, i) && InRun(s.owner, s.size, i);
    assert RunFrom(s.owner, s.size, s.owner[i]);
  }

  lemma {:induction false} NotRun(p: Pool, s: Shape, i: nat, addr: nat)
    requires PoolOk(p, s) && i < |p.m.pages| && p.m.pages[i].kind == PageKind && i == addr / 4096
    requires addr % 4096 != 0 || !IsRun(p, s, i)
    ensures !LiveAt(p, s, addr)
  {
    hide PoolOk, Used, Reserved, Count, ChunkSize, Aligned, ChunkAt;
    forall b | Held(p, s, b) ensures Start(p, s, b) != addr { Locate(p, s, b); }
  }

  method FreeRunAt(p: Pool, i: nat, addr: nat, ghost s: Shape)
    returns (p': Pool, ok: bool, ghost s': Shape, ghost a: Alloc)
    requires PoolOk(p, s) && i < |p.m.pages| && p.m.pages[i].kind == PageKind && i == addr / 4096
    ensures ok == PassesAt(p, addr) && Effect(p, s, addr, p', s', a) && PoolOk(p', s')
  {
    hide PoolOk, Used, Revokes, ChunkOk, Reserved, Count, ChunkSize, LiveAt, Effect, Fronted, Steady, Held, Start;
    a := RunOf(0);
    PlainPage(p, s, i);
    RunPasses(p, s, addr);
    NotBitmap(p, addr);
    var slab := p.m.pages[i].slab;
    if addr % 4096 != 0 || slab == 0 || slab == BUSY {
      NothingFreed(p, s, addr, a);
      return p, false, s, a;
    }
    p', s' := ReturnRun(p, i, s);
    ok, a := true, RunOf(i);
    RunFreed(p, s, addr, p', s');
  }

  lemma {:induction false} NotBitmap(p: Pool, addr: nat)
    requires !IsChunks(p.m, addr / 4096)
    ensures !BitmapChunk(p, addr)
  {
  }

  lemma {:induction false} RunFreed(p: Pool, s: Shape, addr: nat, p': Pool, s': Shape)
    requires PoolOk(p, s) && addr / 4096 < |p.m.pages| && !IsChunks(p.m, addr / 4096) && PassesAt(p, addr)
    requires PoolOk(p', s') && Free(s', addr / 4096)
    requires IsRun(p, s, addr / 4096) ==> Revokes(p, s, p', s', RunOf(addr / 4096))
    requires FreeHead(p, s, addr / 4096) ==>
      Steady(p, s, p', s') && Fronted(p.m, s, addr / 4096, p'.m, s') && p'.words == p.words
    ensures Effect(p, s, addr, p', s', RunOf(addr / 4096))
  {
    hide PoolOk, Used, Revokes, Count, ChunkSize, LiveAt, Fronted, Steady;
    RunPasses(p, s, addr);
    NotBitmap(p, addr);
    PlainPage(p, s, addr / 4096);
    if IsRun(p, s, addr / 4096) { RunStarts(p, s, addr); }
  }

  lemma {:induction false} RunStarts(p: Pool, s: Shape, addr: nat)
    requires IsRun(p, s, addr / 4096) && addr % 4096 == 0
    ensures LiveAt(p, s, addr) && Held(p, s, RunOf(addr / 4096)) && Start(p, s, RunOf(addr / 4096)) == addr
  {
    var a := RunOf(addr / 4096);
    assert Held(p, s, a) && Start(p, s, a) == addr;
  }

  // ----- Which addresses are accepted -----

  lemma {:induction false} ChunkPasses(p: Pool, s: Shape, addr: nat)
    requires PoolOk(p, s) && IsChunks(p.m, addr / 4096)
    ensures PassesAt(p, addr) <==> LiveAt(p, s, addr) || BitmapChunk(p, addr)
    ensures !(LiveAt(p, s, addr) && BitmapChunk(p, addr))
  {
    hide PoolOk, Used, Count, ChunkSize, Aligned, ChunkAt, Reserved;
    var i := addr / 4096;
    ChunkKind(p, s, i);
    var shift := ShiftOf(p.m.pages[i]);
    if BitmapChunk(p, addr) {
      BitmapMarked(p, s, i, ChunkAt(addr, shift));
      forall b | Held(p, s, b) ensures Start(p, s, b) != addr { Locate(p, s, b); }
    } else if PassesAt(p, addr) {
      IsTaken(p, s, i, addr);
    } else {
      NotChunk(p, s, i, addr);
    }
  }

  lemma {:induction false} BitmapMarked(p: Pool, s: Shape, i: nat, c: nat)
    requires i < |p.m.pages| == |p.words| && ChunkOk(p, s, i) && IsChunks(p.m, i) && c < Reserved(ShiftOf(p.m.pages[i]))
    ensures Used(p, i, c)
  {
  }

  lemma {:induction false} RunPasses(p: Pool, s: Shape, addr: nat)
    requires PoolOk(p, s) && addr / 4096 < |p.m.pages| && !IsChunks(p.m, addr / 4096)
    ensures PassesAt(p, addr) <==> LiveAt(p, s, addr) || FreeRunHead(p, s, addr)
    ensures !(LiveAt(p, s, addr) && FreeRunHead(p, s, addr))
  {
    hide PoolOk, Used, Count, ChunkSize, Aligned, ChunkAt, Reserved;
    var i := addr / 4096;
    PlainPage(p, s, i);
    if addr % 4096 == 0 && IsRun(p, s, i) {
      assert Held(p, s, RunOf(i)) && Start(p, s, RunOf(i)) == addr;
    } else {
      NotRun(p, s, i, addr);
    }
  }

  /** The code accepts an address exactly when a live allocation starts there or it is one of the three kinds of invalid
      address, and never are both the case. */
  lemma {:induction false} AcceptsExactly(p: Pool, s: Shape, addr: int, end: nat, beyond: bool)
    requires PoolOk(p, s) && |p.m.pages| * 4096 <= end
    ensures Accepts(p, addr, end, beyond) <==> LiveAt(p, s, addr) || Undetected(p, s, addr, end, beyond)
    ensures !(LiveAt(p, s, addr) && Undetected(p, s, addr, end, beyond))
  {
    hide PoolOk, LiveAt, PassesAt;
    if addr < 0 || addr > end || addr / 4096 >= |p.m.pages| {
      Outside(p, s, addr, end);
    } else if IsChunks(p.m, addr / 4096) {
      ChunkPasses(p, s, addr);
    } else {
      RunPasses(p, s, addr);
    }
  }

  /** The pool is sound afterwards exactly when the address is not that of a bitmap chunk, and then for no shape. */
  lemma {:induction false} SoundExactly(p: Pool, s: Shape, addr: int, p': Pool, s': Shape, a: Alloc)
    requires PoolOk(p, s) && Effect(p, s, addr, p', s', a)
    ensures |p'.m.pages| == |p.m.pages|
    ensures if addr >= 0 && BitmapChunk(p, addr) then forall s0 :: !PoolOk(p', s0) else PoolOk(p', s')
  {
    hide PoolOk, LiveAt, Elsewhere, Used, Reserved, Count, MapOk;
    if addr >= 0 && BitmapChunk(p, addr) {
      var i := addr / 4096;
      var c := ChunkAt(addr, ShiftOf(p.m.pages[i]));
      ChunkPasses(p, s, addr);
      NotHead(p, s, addr);
      SameLength(p, s, p', s', i);
      PiercedUnsound(p, s, i, c, p', s');
    }
  }

  /** In every pool: the start of a page of small chunks is accepted. */
  lemma {:induction false} BitmapAccepted(p: Pool, s: Shape, i: nat, end: nat, beyond: bool)
    requires PoolOk(p, s) && |p.m.pages| * 4096 <= end && IsChunks(p.m, i) && p.m.pages[i].kind == Small
    ensures BitmapChunk(p, i * 4096) && Accepts(p, i * 4096, end, beyond) && !LiveAt(p, s, i * 4096)
  {
    hide PoolOk, LiveAt, PassesAt, ChunkOk, Count, ChunkSize, Reserved;
    ChunkKind(p, s, i);
    var shift := ShiftOf(p.m.pages[i]);
    PageMod(i, 0, shift);
    SmallReserves(p, s, i);
    AcceptsExactly(p, s, i * 4096, end, beyond);
  }

  lemma {:induction false} SmallReserves(p: Pool, s: Shape, i: nat)
    requires i < |p.m.pages| == |p.words| && ChunkOk(p, s, i) && p.m.pages[i].kind == Small
    ensures Reserved(ShiftOf(p.m.pages[i])) > 0
  {
  }

  /** In every pool: its end itself, which no descriptor covers, passes if the memory read does. */
  lemma {:induction false} EndAccepted(p: Pool, s: Shape, end: nat)
    requires PoolOk(p, s) && |p.m.pages| * 4096 <= end
    ensures Accepts(p, end, end, true) && !Accepts(p, end, end, false) && !LiveAt(p, s, end)
  {
    hide PoolOk, LiveAt;
    Outside(p, s, end, end);
  }
}
