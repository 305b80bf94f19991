/** The slab pool as a partition of its pages into runs, and what the descriptors say about it. */
module SlabRuns {
  import opened Lists
  import opened SlabList

  const START: nat := 0x8000000000000000
  const BUSY: nat := 0xffffffffffffffff

  /** The lists (0 is the free list), the first page of each page's run, and the length of the run a page heads. */
  datatype Shape = Shape(lists: Lists, owner: seq<nat>, size: seq<nat>)

  predicate IsHead(owner: seq<nat>, h: int) {
    0 <= h < |owner| && owner[h] == h
  }

  /** Page `i` lies in the run its owner heads. */
  predicate InRun(owner: seq<nat>, size: seq<nat>, i: int)
    requires |owner| == |size| && 0 <= i < |owner|
  {
    owner[i] <= i && IsHead(owner, owner[i]) && i < owner[i] + size[owner[i]]
  }

  /** The run of `h` is all its own. */
  ghost predicate RunFrom(owner: seq<nat>, size: seq<nat>, h: int)
    requires |owner| == |size| && 0 <= h < |owner|
  {
    0 < size[h] && h + size[h] <= |owner| && forall i :: h <= i < h + size[h] ==> owner[i] == h
  }

  /** The runs tile the pages. */
  ghost predicate Runs(owner: seq<nat>, size: seq<nat>) {
    && |owner| == |size|
    && (forall i :: 0 <= i < |owner| ==> InRun(owner, size, i))
    && (forall h :: IsHead(owner, h) ==> RunFrom(owner, size, h))
  }

  function Retag(owner: seq<nat>, lo: nat, hi: nat, h: nat): (r: seq<nat>)
    ensures |r| == |owner|
    ensures forall i :: 0 <= i < |owner| ==> r[i] == if lo <= i < hi then h else owner[i]
  {
    seq(|owner|, i requires 0 <= i < |owner| => if lo <= i < hi then h else owner[i])
  }

  lemma {:induction false} FuseRuns(owner: seq<nat>, size: seq<nat>, a: nat, b: nat)
    requires Runs(owner, size) && IsHead(owner, a) && b == a + size[a] && IsHead(owner, b)
    ensures Runs(Retag(owner, b, b + size[b], a), size[a := size[a] + size[b]])
  {
    var owner', size' := Retag(owner, b, b + size[b], a), size[a := size[a] + size[b]];
    assert RunFrom(owner, size, a) && RunFrom(owner, size, b);
    forall i | 0 <= i < |owner'| ensures InRun(owner', size', i) {
      assert InRun(owner, size, i);
    }
    forall h | IsHead(owner', h) ensures RunFrom(owner', size', h) {
      assert IsHead(owner, h) && RunFrom(owner, size, h);
    }
  }

  lemma {:induction false} SplitRuns(owner: seq<nat>, size: seq<nat>, h: nat, n: nat)
    requires Runs(owner, size) && IsHead(owner, h) && 0 < n < size[h]
    ensures h + n < |owner|
    ensures Runs(Retag(owner, h + n, h + size[h], h + n), size[h := n][h + n := size[h] - n])
  {
    var b := h + n;
    assert RunFrom(owner, size, h);
    var owner', size' := Retag(owner, b, h + size[h], b), size[h := n][b := size[h] - n];
    forall i | 0 <= i < |owner'| ensures InRun(owner', size', i) {
      assert InRun(owner, size, i);
    }
    forall g | IsHead(owner', g) ensures RunFrom(owner', size', g) {
      if g != b { assert IsHead(owner, g) && RunFrom(owner, size, g); }
    }
  }

  /** Where a run ends the next one begins. */
  lemma {:induction false} NextHead(owner: seq<nat>, size: seq<nat>, h: nat)
    requires Runs(owner, size) && IsHead(owner, h) && h + size[h] < |owner|
    ensures IsHead(owner, h + size[h])
  {
    var b := h + size[h];
    assert RunFrom(owner, size, h) && InRun(owner, size, b);
    var g := owner[b];
    assert RunFrom(owner, size, g);
    assert owner[b - 1] == h;
  }

  // ----- Descriptors -----

  /** Page `i` is free: its run is on the free list. */
  predicate Free(s: Shape, i: nat) {
    i < |s.owner| && OnList(s.lists, 0, s.owner[i])
  }

  /** What the descriptor of page `i` holds. */
  ghost predicate DescOk(m: Memory, s: Shape, i: nat)
    requires i < |m.pages| == |s.owner| == |s.size|
  {
    var d := m.pages[i];
    if Free(s, i) then
      if s.owner[i] == i then d.kind == PageKind && d.slab == s.size[i]
      else d == ZERO
    else if s.owner[i] != i then
      d == Desc(BUSY, Null, Null, PageKind)
    else if d.kind == PageKind then
      d == Desc(START + s.size[i], Null, Null, PageKind)
    else
      s.size[i] == 1 && d.slab != 0 && LinkOk(m, s, i)
  }

  /** A page of chunks is on a slot list exactly when it has a next page. */
  ghost predicate LinkOk(m: Memory, s: Shape, i: nat)
    requires i < |m.pages|
  {
    if m.pages[i].next == Null then Loose(s.lists, i) else exists l :: 0 < l < |s.lists| && OnList(s.lists, l, i)
  }

  /** Everything but page `x` is as it should be between operations, except that free runs may touch. */
  ghost predicate Sound(m: Memory, s: Shape, x: int) {
    && |m.pages| == |s.owner| < START - 1 && 0 < |s.lists|
    && Runs(s.owner, s.size) && Linked(m, s.lists)
    && (forall i :: 0 <= i < |m.pages| && i != x ==> DescOk(m, s, i))
    && (forall l, i :: 0 <= l < |s.lists| && i in s.lists[l] ==> Member(m, s, l, i))
  }

  /** The kind of the pages on a list: free runs on list 0, then one list for each chunk shift from 3 up. */
  function ListKind(l: nat): Kind {
    if l == 0 then PageKind else if l < 4 then Small else if l == 4 then Exact else Big
  }

  /** List members head their runs and are of the list's kind. */
  predicate Member(m: Memory, s: Shape, l: nat, i: nat) {
    IsHead(s.owner, i) && i < |m.pages| && m.pages[i].kind == ListKind(l)
  }

  /** No two free runs touch. */
  ghost predicate Coalesced(s: Shape) {
    forall a, b :: Touch(s, a, b) ==> !(Free(s, a) && Free(s, b))
  }

  predicate Touch(s: Shape, a: nat, b: nat) {
    IsHead(s.owner, a) && a < |s.size| && b == a + s.size[a] && b < |s.owner|
  }

  /** The state of the page allocator between operations. */
  ghost predicate Ok(m: Memory, s: Shape) {
    Sound(m, s, -1) && Coalesced(s)
  }

  // ----- What "no memory" means -----

  /** `n` consecutive free pages from `at`. */
  ghost predicate Stretch(s: Shape, at: nat, n: nat) {
    forall j :: at <= j < at + n ==> Free(s, j)
  }

  /** In a coalesced pool a stretch of free pages never leaves its run. */
  lemma {:induction false} StretchInRun(s: Shape, at: nat, n: nat)
    requires Runs(s.owner, s.size) && Coalesced(s) && n > 0 && Stretch(s, at, n)
    ensures at + n <= |s.owner| && s.owner[at] == s.owner[at + n - 1]
  {
    assert Free(s, at + n - 1) && Free(s, at);
    if n > 1 {
      StretchInRun(s, at, n - 1);
      var h := s.owner[at];
      assert InRun(s.owner, s.size, at + n - 2) && InRun(s.owner, s.size, at + n - 1) && RunFrom(s.owner, s.size, h);
      var b: nat := at + n - 1;
      assert b == h + s.size[h] ==> Touch(s, h, b);
    }
  }

  /** So a request of `n` pages can be met from some run exactly when `n` consecutive pages are free. */
  lemma {:induction false} FitsRun(s: Shape, n: nat)
    requires Runs(s.owner, s.size) && Coalesced(s) && n > 0 && 0 < |s.lists|
    requires forall i :: i in s.lists[0] ==> IsHead(s.owner, i)
    ensures (exists at :: Stretch(s, at, n)) <==> (exists h :: h in s.lists[0] && s.size[h] >= n)
  {
    if at: nat :| Stretch(s, at, n) {
      StretchInRun(s, at, n);
      assert Free(s, at);
      assert InRun(s.owner, s.size, at) && InRun(s.owner, s.size, at + n - 1);
    }
    if h: nat :| h in s.lists[0] && s.size[h] >= n {
      assert IsHead(s.owner, h) && RunFrom(s.owner, s.size, h);
      assert Stretch(s, h, n);
    }
  }
}
