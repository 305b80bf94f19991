/** The slab allocator: ncx_slab_alloc_locked. */
module SlabPool {
  import opened Lists
  import opened Basics
  import opened Words
  import opened SlabList
  import opened SlabRuns
  import opened SlabPages
  import opened SlabSlots
  import opened C = SlabChunks
  import opened SlabHeld
  import opened SlabAlloc

  // ----- A fresh page of chunks -----

  /** The page allocated at `i` becomes a chunk page of the given shift and goes to the front of its list. */
  function Install(p: Pool, i: nat, shift: nat): Pool
    requires i < |p.m.pages| == |p.words| && 3 <= shift <= 11 && shift - 2 < |p.m.first|
    requires Live(p.m, p.m.first[shift - 2])
  {
    var kind := ListKind(shift - 2);
    var m1 := p.m.(pages := p.m.pages[i := Desc(FreshSlab(shift), Null, Null, kind)]);
    Pool(Push(m1, shift - 2, i, kind), p.words[i := FreshWords(shift)])
  }

  lemma {:induction false} InstallOk(p: Pool, s: Shape, i: nat, shift: nat)
    requires Ok(p.m, s) && |s.lists| == LISTS && |p.words| == |p.m.pages| && 3 <= shift <= 11
    requires i < |p.m.pages| == |s.size| && IsHead(s.owner, i) && s.size[i] == 1 && !Free(s, i)
    requires p.m.pages[i].kind == PageKind
    ensures shift - 2 < |p.m.first| && Live(p.m, p.m.first[shift - 2])
    ensures var l := shift - 2;
      && var p', s' := Install(p, i, shift), s.(lists := s.lists[l := [i] + s.lists[l]]);
      && Ok(p'.m, s') && |p'.m.pages| == |p'.words| && i < |p'.words| && OnList(s'.lists, l, i)
      && p'.words == p.words[i := FreshWords(shift)]
      && p'.m.pages[i].slab == FreshSlab(shift) && p'.m.pages[i].kind == ListKind(l) && p'.m.pages[i].next != Null
      && SlotFrame(p.m.(pages := p.m.pages[i := Desc(FreshSlab(shift), Null, Null, ListKind(l))]), s, p'.m, s', l, i)
  {
    hide DescOk, Coalesced, Runs, Linked, Push, SlotFrame;
    var l := shift - 2;
    var d := Desc(FreshSlab(shift), Null, Null, ListKind(l));
    FirstOf(p.m, s.lists, l);
    ConvertOk(p.m, s, i, d);
    PushOk(p.m.(pages := p.m.pages[i := d]), s, l, i);
  }

  /** A page that was no chunk page and now has exactly its bitmap and one chunk in use. */
  lemma {:induction false} FreshGrants(p: Pool, s: Shape, p': Pool, s': Shape, i: nat, shift: nat)
    requires Elsewhere(p, s, p', s', i) && !IsChunks(p.m, i) && !IsRun(p, s, i) && 3 <= shift <= 11
    requires i < |p'.m.pages| == |p'.words| && p'.words[i] == FreshWords(shift)
    requires p'.m.pages[i].kind == ListKind(shift - 2) && p'.m.pages[i].slab == FreshSlab(shift)
    ensures Grants(p, s, p', s', ChunkOf(i, Reserved(shift))) && ShiftOf(p'.m.pages[i]) == shift
  {
    hide Used, MapOk, Elsewhere, FreshWords, FreshSlab, Reserved, Count, ChunkSize;
    var a := ChunkOf(i, Reserved(shift));
    forall e: nat ensures C.Taken(p', i, e) <==> e == Reserved(shift) {
      FreshUsed(p', i, shift, e);
      Geometry(shift);
    }
    FreshUsed(p', i, shift, 0);
    SameLength(p, s, p', s', i);
    forall b | b != a
      ensures Held(p', s', b) <==> Held(p, s, b)
      ensures Held(p, s, b) ==> Start(p', s', b) == Start(p, s, b) && Length(p', s', b) == Length(p, s, b)
    {
      if b.page != i { HeldElsewhere(p, s, p', s', i, b); }
    }
  }

  lemma {:induction false} FreshChunkOk(p': Pool, s': Shape, i: nat, shift: nat)
    requires 3 <= shift <= 11 && i < |p'.m.pages| == |p'.words| && p'.words[i] == FreshWords(shift)
    requires p'.m.pages[i].kind == ListKind(shift - 2) && p'.m.pages[i].slab == FreshSlab(shift)
    requires p'.m.pages[i].next != Null && OnList(s'.lists, shift - 2, i)
    ensures ChunkOk(p', s', i)
  {
    hide Used, MapOk, FreshWords, FreshSlab, Reserved, Count, ChunkSize;
    Geometry(shift);
    FreshUsed(p', i, shift, 0);
    forall c: nat | c < Reserved(shift) ensures Used(p', i, c) { FreshUsed(p', i, shift, c); }
    FreshUsed(p', i, shift, Reserved(shift));
    assert C.Taken(p', i, Reserved(shift));
    NotFull(p', i, shift);
  }

  lemma {:induction false} NotFull(p': Pool, i: nat, shift: nat)
    requires 3 <= shift <= 11 && i < |p'.m.pages| == |p'.words| && p'.words[i] == FreshWords(shift)
    requires p'.m.pages[i].kind == ListKind(shift - 2) && p'.m.pages[i].slab == FreshSlab(shift)
    ensures ShiftOf(p'.m.pages[i]) == shift && !Full(p', i)
  {
    hide Used, MapOk, FreshWords, FreshSlab, ChunkSize;
    Geometry(shift);
    Powers();
    var c := Reserved(shift) + 1;
    FreshUsed(p', i, shift, c);
    assert c < Count(shift) && !Used(p', i, c);
  }

  ghost function Pushed(s: Shape, l: nat, i: nat): Shape
    requires l < |s.lists|
  {
    s.(lists := s.lists[l := [i] + s.lists[l]])
  }

  /** The first page of the first free run becomes a page of the class, alone leaves the free pages, and goes to the
      front of its list; `a` is its first chunk after the bitmap. */
  ghost predicate Opened(s: Shape, shift: nat, s': Shape, a: Alloc) {
    && 3 <= shift <= 11 && a.ChunkOf? && a.c == Reserved(shift)
    && (forall j: nat :: Free(s', j) <==> Free(s, j) && j != a.page)
    && exists s1 :: FirstFit(s, a.page, 1, s1) && shift - 2 < |s1.lists| && s' == Pushed(s1, shift - 2, a.page)
  }

  lemma {:induction false} PageOpened(p: Pool, s: Shape, i: nat, shift: nat, m1: Memory, s1: Shape)
    requires FirstFit(s, i, 1, s1) && Allocated(p.m, s, i, 1, m1, s1) && 3 <= shift <= 11 && |s1.lists| == LISTS
    ensures Opened(s, shift, Pushed(s1, shift - 2, i), ChunkOf(i, Reserved(shift)))
  {
    hide FirstFit, Stretch;
  }

  method NewPage(p: Pool, shift: nat, ghost s: Shape) returns (p': Pool, r: Option<nat>, ghost s': Shape)
    requires PoolOk(p, s) && 3 <= shift <= 11
    ensures PoolOk(p', s')
    ensures r.None? <==> forall at :: !Stretch(s, at, 1)
    ensures r.None? ==> p' == p && s' == s
    ensures r.Some? ==> r.value < |p'.m.pages| && ShiftOf(p'.m.pages[r.value]) == shift
    ensures r.Some? ==> Grants(p, s, p', s', ChunkOf(r.value, Reserved(shift)))
    ensures r.Some? ==> Opened(s, shift, s', ChunkOf(r.value, Reserved(shift)))
  {
    hide DescOk, Coalesced, Runs, Linked, Allocated, Install, Elsewhere, Grants, FreshSlab, FreshWords, ChunkOk,
      Stretch, Reserved, FirstFit, Opened;
    var m1, h, s1 := AllocPages(p.m, 1, s);
    r := h;
    if h.None? {
      return p, h, s;
    }
    var i := h.value;
    AllocElsewhere(p, s, i, 1, m1, s1);
    AllocPlain(p.m, s, i, m1, s1);
    var p1 := p.(m := m1);
    InstallOk(p1, s1, i, shift);
    p' := Install(p1, i, shift);
    s' := Pushed(s1, shift - 2, i);
    InstallElsewhere(p, s, p1, s1, p', s', i, shift);
    PageOpened(p, s, i, shift, m1, s1);
    FreshGrants(p, s, p', s', i, shift);
    FreshChunkOk(p', s', i, shift);
    PoolFrame(p, s, p', s', i);
  }

  lemma {:induction false} AllocPlain(m: Memory, s: Shape, i: nat, m1: Memory, s1: Shape)
    requires Allocated(m, s, i, 1, m1, s1)
    ensures i < |m1.pages| == |m.pages| == |s1.size| && m1.pages[i].kind == PageKind && s1.size[i] == 1
    ensures |s1.lists| == |s.lists|
  {
  }

  lemma {:induction false} InstallElsewhere(p: Pool, s: Shape, p1: Pool, s1: Shape, p': Pool, s': Shape, i: nat,
    shift: nat)
    requires Elsewhere(p, s, p1, s1, i) && 3 <= shift <= 11 && i < |p1.m.pages| && |p1.words| == |p.words|
    requires SlotFrame(p1.m.(pages := p1.m.pages[i := Desc(FreshSlab(shift), Null, Null, ListKind(shift - 2))]),
                       s1, p'.m, s', shift - 2, i)
    requires p'.words == p1.words[i := FreshWords(shift)]
    ensures Elsewhere(p, s, p', s', i)
  {
    hide FreshWords, FreshSlab;
    var p2 := Pool(p1.m.(pages := p1.m.pages[i := Desc(FreshSlab(shift), Null, Null, ListKind(shift - 2))]), p'.words);
    forall j: nat | j != i ensures SameAt(p, s, p2, s1, j) {
      assert SameAt(p, s, p1, s1, j);
    }
    SlotElsewhere(p, s, p2, s1, p', s', shift - 2, i);
  }

  // ----- ncx_slab_alloc_locked -----

  /** The next field of a header or page. */
  function NextOf(m: Memory, p: Ptr): Ptr
    requires Live(m, p)
  {
    match p
    case Head(l) => m.first[l]
    case Page(i) => m.pages[i].next
  }

  /** The emptiness test of a slot: only a header can be its own successor. */
  lemma {:induction false} SelfLinked(m: Memory, lists: Lists, l: nat)
    requires Linked(m, lists) && l < |lists|
    ensures l < |m.first| && Live(m, m.first[l]) && (NextOf(m, m.first[l]) == m.first[l] <==> lists[l] == [])
    ensures lists[l] != [] ==> m.first[l] == Page(lists[l][0])
  {
    FirstOf(m, lists, l);
    if lists[l] != [] {
      assert LinkedAt(m, lists, l, 0);
    }
  }

  function PagesFor(size: nat): nat {
    size / 4096 + if size % 4096 != 0 then 1 else 0
  }

  ghost predicate Class(size: nat, shift: nat) {
    3 <= shift <= 11 && size <= ChunkSize(shift) && (shift > 3 ==> ChunkSize(shift - 1) < size)
  }

  /** Page `i` is cut into chunks of the class. */
  predicate OfShift(p: Pool, i: nat, shift: nat) {
    IsChunks(p.m, i) && 3 <= ShiftOf(p.m.pages[i]) <= 11 && ShiftOf(p.m.pages[i]) == shift
  }

  /** No page of the class has a free chunk. */
  ghost predicate ClassFull(p: Pool, shift: nat) {
    forall i: nat :: OfShift(p, i, shift) ==> Full(p, i)
  }

  /** No chunk of the class is free and no page is. */
  ghost predicate NoChunk(p: Pool, s: Shape, shift: nat) {
    ClassFull(p, shift) && forall at :: !Stretch(s, at, 1)
  }

  /** `a` is the lowest unused chunk of the first page on the list of the class, and no free page is touched. */
  ghost predicate Served(p: Pool, s: Shape, shift: nat, s': Shape, a: Alloc) {
    && 3 <= shift <= 11 && |s.lists| == LISTS && 0 < |s.lists[shift - 2]|
    && a.ChunkOf? && a.page == s.lists[shift - 2][0] && Lowest(p, a.page, a.c)
    && (s' == s || s' == Dropped(s, shift - 2)) && forall j: nat :: Free(s', j) <==> Free(s, j)
  }

  /** The first run on the free list that is long enough gives its first pages. */
  ghost predicate Fitted(s: Shape, n: nat, s': Shape, a: Alloc) {
    && a.RunOf? && FirstFit(s, a.page, n, s')
    && forall j: nat :: Free(s', j) <==> Free(s, j) && !(a.page <= j < a.page + n)
  }

  /** Where an allocation comes from: a run for a large size, a page of the class as long as one has a free chunk, and
      a fresh page only when all are full. */
  ghost predicate Chosen(p: Pool, s: Shape, size: nat, shift: nat, s': Shape, a: Alloc) {
    if size >= 2048 then Fitted(s, PagesFor(size), s', a)
    else if ClassFull(p, shift) then Opened(s, shift, s', a)
    else Served(p, s, shift, s', a)
  }

  /** The size that an allocation of `size` gets. */
  function Rounded(size: nat, shift: nat): nat {
    if size >= 2048 then PagesFor(size) * 4096 else if 3 <= shift <= 11 then ChunkSize(shift) else 0
  }

  ghost predicate NoRoom(p: Pool, s: Shape, size: nat, shift: nat) {
    if size >= 2048 then forall at :: !Stretch(s, at, PagesFor(size)) else NoChunk(p, s, shift)
  }

  lemma {:induction false} ListEmpty(p: Pool, s: Shape, shift: nat)
    requires PoolOk(p, s) && 3 <= shift <= 11 && s.lists[shift - 2] == []
    ensures ClassFull(p, shift)
  {
    hide DescOk, Coalesced, Runs, Linked, Full, MapOk, C.Taken, Used;
    forall i: nat | OfShift(p, i, shift) ensures Full(p, i) {
      assert ChunkOk(p, s, i);
    }
  }

  lemma {:induction false} RunGrants(p: Pool, s: Shape, h: nat, n: nat, m': Memory, s': Shape)
    requires PoolOk(p, s) && Ok(m', s') && Allocated(p.m, s, h, n, m', s')
    ensures var p' := p.(m := m');
      && PoolOk(p', s') && Grants(p, s, p', s', RunOf(h)) && IsRun(p', s', h) && s'.size[h] == n
      && forall j: nat :: Free(s', j) <==> Free(s, j) && !(h <= j < h + n)
  {
    hide DescOk, Coalesced, Runs, Linked, ChunkOk, Elsewhere, Used;
    AllocElsewhere(p, s, h, n, m', s');
    var p' := p.(m := m');
    PoolFrame(p, s, p', s', h);
    var a := RunOf(h);
    SameLength(p, s, p', s', h);
    forall b | b != a
      ensures Held(p', s', b) <==> Held(p, s, b)
      ensures Held(p, s, b) ==> Start(p', s', b) == Start(p, s, b) && Length(p', s', b) == Length(p, s, b)
    {
      if b.page != h { HeldElsewhere(p, s, p', s', h, b); }
    }
  }

  method AllocRun(p: Pool, size: nat, ghost s: Shape)
    returns (p': Pool, r: Option<nat>, ghost s': Shape, ghost a: Alloc)
    requires PoolOk(p, s) && size >= 2048
    ensures PoolOk(p', s')
    ensures r.None? <==> forall at :: !Stretch(s, at, PagesFor(size))
    ensures r.None? ==> p' == p && s' == s
    ensures r.Some? ==> Grants(p, s, p', s', a) && Held(p', s', a) && r.value == Start(p', s', a)
    ensures r.Some? ==> Length(p', s', a) == PagesFor(size) * 4096 >= size && Fitted(s, PagesFor(size), s', a)
  {
    hide DescOk, Coalesced, Runs, Linked, Allocated, Grants, ChunkOk, Stretch, Used, C.Taken, FirstFit;
    a := RunOf(0);
    var m1, h, s1 := AllocPages(p.m, PagesFor(size), s);
    if h.None? {
      return p, h, s, a;
    }
    RunGrants(p, s, h.value, PagesFor(size), m1, s1);
    p', s' := p.(m := m1), s1;
    a := RunOf(h.value);
    r := Some(h.value * 4096);
  }

  /** A chunk from a page on the list of its class. */
  method FromList(p: Pool, shift: nat, i: nat, ghost s: Shape)
    returns (p': Pool, r: nat, ghost s': Shape, ghost a: Alloc)
    requires PoolOk(p, s) && 3 <= shift <= 11 && |s.lists| == LISTS && s.lists[shift - 2] != []
    requires s.lists[shift - 2][0] == i
    ensures PoolOk(p', s') && Grants(p, s, p', s', a) && Held(p', s', a) && r == Start(p', s', a)
    ensures Length(p', s', a) == ChunkSize(shift) && Served(p, s, shift, s', a)
  {
    hide PoolOk, Grants, Held, Start, Length, ChunkSize, Count, Used, Lowest;
    var c;
    p', c, s' := TakeChunk(p, i, s, shift - 2);
    a := ChunkOf(i, c);
    r := i * 4096 + c * ChunkSize(shift);
    ChunkStart(p', s', i, c, shift);
  }

  /** The first chunk of a fresh page. */
  method FromPage(p: Pool, shift: nat, ghost s: Shape)
    returns (p': Pool, r: Option<nat>, ghost s': Shape, ghost a: Alloc)
    requires PoolOk(p, s) && 3 <= shift <= 11
    ensures PoolOk(p', s')
    ensures r.None? <==> forall at :: !Stretch(s, at, 1)
    ensures r.None? ==> p' == p && s' == s
    ensures r.Some? ==> Grants(p, s, p', s', a) && Held(p', s', a) && r.value == Start(p', s', a)
    ensures r.Some? ==> Length(p', s', a) == ChunkSize(shift) && Opened(s, shift, s', a)
  {
    hide PoolOk, Grants, Held, Start, Length, ChunkSize, Count, Used, Reserved, Stretch, Opened;
    a := RunOf(0);
    var h;
    p', h, s' := NewPage(p, shift, s);
    if h.None? {
      return p', None, s', a;
    }
    a := ChunkOf(h.value, Reserved(shift));
    GrantHeld(p, s, p', s', a);
    r := Some(h.value * 4096 + ChunkSize(shift) * Reserved(shift));
    Commute(ChunkSize(shift), Reserved(shift));
    ChunkStart(p', s', h.value, Reserved(shift), shift);
  }

  method AllocChunk(p: Pool, shift: nat, ghost s: Shape)
    returns (p': Pool, r: Option<nat>, ghost s': Shape, ghost a: Alloc)
    requires PoolOk(p, s) && 3 <= shift <= 11
    ensures PoolOk(p', s')
    ensures r.None? <==> NoChunk(p, s, shift)
    ensures r.None? ==> p' == p && s' == s
    ensures r.Some? ==> Grants(p, s, p', s', a) && Held(p', s', a) && r.value == Start(p', s', a)
    ensures r.Some? ==> Length(p', s', a) == ChunkSize(shift)
    ensures r.Some? ==> if ClassFull(p, shift) then Opened(s, shift, s', a) else Served(p, s, shift, s', a)
  {
    hide Linked, Grants, Stretch, ChunkSize, NoChunk, Held, Start, Length, PoolOk, Live, NextOf, Full, ShiftOf,
      ClassFull, Opened, Served;
    PoolLinked(p, s);
    SelfLinked(p.m, s.lists, shift - 2);
    var page := p.m.first[shift - 2];
    if NextOf(p.m, page) != page {
      var at;
      p', at, s', a := FromList(p, shift, page.i, s);
      r := Some(at);
      HasRoom(p, s, shift);
    } else {
      ListEmpty(p, s, shift);
      p', r, s', a := FromPage(p, shift, s);
      if r.Some? { RoomForPage(p, s, shift); } else { NoPage(p, s, shift); }
    }
  }

  lemma {:induction false} PoolLinked(p: Pool, s: Shape)
    requires PoolOk(p, s)
    ensures Linked(p.m, s.lists) && |s.lists| == LISTS
  {
  }

  lemma {:induction false} ChunkStart(p: Pool, s: Shape, i: nat, c: nat, shift: nat)
    requires Held(p, s, ChunkOf(i, c)) && ShiftOf(p.m.pages[i]) == shift
    ensures Start(p, s, ChunkOf(i, c)) == i * 4096 + c * ChunkSize(shift)
    ensures Length(p, s, ChunkOf(i, c)) == ChunkSize(shift)
  {
    hide C.Taken, ChunkSize;
  }

  lemma {:induction false} RoomForPage(p: Pool, s: Shape, shift: nat)
    requires exists at :: Stretch(s, at, 1)
    ensures !NoChunk(p, s, shift)
  {
  }

  lemma {:induction false} NoPage(p: Pool, s: Shape, shift: nat)
    requires forall at :: !Stretch(s, at, 1)
    requires ClassFull(p, shift)
    ensures NoChunk(p, s, shift)
  {
  }

  /** Allocation in any class: a new region of at least the size asked for, or none when there is no room. */
  method Alloc(p: Pool, size: nat, ghost s: Shape)
    returns (p': Pool, r: Option<nat>, ghost s': Shape, ghost a: Alloc, ghost shift: nat)
    requires PoolOk(p, s)
    ensures PoolOk(p', s')
    ensures size < 2048 ==> Class(size, shift)
    ensures r.None? <==> NoRoom(p, s, size, shift)
    ensures r.None? ==> p' == p && s' == s
    ensures r.Some? ==> Grants(p, s, p', s', a) && Held(p', s', a) && r.value == Start(p', s', a)
    ensures r.Some? ==> Length(p', s', a) == Rounded(size, shift) >= size && Chosen(p, s, size, shift, s', a)
  {
    hide PoolOk, Grants, NoChunk, Held, ChunkSize, Stretch, Opened, Served, Fitted, ClassFull;
    if size >= 2048 {
      p', r, s', a := AllocRun(p, size, s);
      shift := 3;
    } else {
      var sh := ShiftFor(size);
      p', r, s', a := AllocChunk(p, sh, s);
      shift := sh;
    }
  }

  lemma {:induction false} Commute(a: nat, b: nat)
    ensures a * b == b * a
  {
  }

  lemma {:induction false} HasRoom(p: Pool, s: Shape, shift: nat)
    requires PoolOk(p, s) && 3 <= shift <= 11 && s.lists[shift - 2] != []
    ensures !ClassFull(p, shift) && !NoChunk(p, s, shift)
  {
    hide DescOk, Coalesced, Runs, Linked, Full, MapOk, C.Taken, Used, ChunkOk;
    FirstHasRoom(p, s, shift - 2);
  }
}
