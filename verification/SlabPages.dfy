/** ncx_slab_alloc_pages. */
module SlabPages {
  import opened Lists
  import opened Basics
  import opened SlabList
  import opened SlabRuns

  // ----- Allocation -----

  /** The `k`-th free run gives up its first `n` pages. */
  ghost function Taken(s: Shape, k: nat, n: nat): (s': Shape)
    requires 0 < |s.lists| && k < |s.lists[0]| && s.lists[0][k] < |s.size| && 0 < n <= s.size[s.lists[0][k]]
    requires s.lists[0][k] + s.size[s.lists[0][k]] <= |s.size|
  {
    var h := s.lists[0][k];
    if n == s.size[h] then s.(lists := s.lists[0 := Without(s.lists[0], k)])
    else Shape(s.lists[0 := Replace(s.lists[0], k, h + n)], Retag(s.owner, h + n, h + s.size[h], h + n),
               s.size[h := n][h + n := s.size[h] - n])
  }

  ghost predicate Holds(s: Shape, k: nat, n: nat) {
    && 0 < |s.lists| && k < |s.lists[0]| && Runs(s.owner, s.size) && IsHead(s.owner, s.lists[0][k])
    && 0 < n <= s.size[s.lists[0][k]] && Apart(s.lists)
    && forall i :: i in s.lists[0] ==> IsHead(s.owner, i)
  }

  lemma {:induction false} TakenRuns(s: Shape, k: nat, n: nat)
    requires Holds(s, k, n)
    ensures s.lists[0][k] + s.size[s.lists[0][k]] <= |s.size|
    ensures Runs(Taken(s, k, n).owner, Taken(s, k, n).size)
  {
    var h := s.lists[0][k];
    assert RunFrom(s.owner, s.size, h);
    if n < s.size[h] { SplitRuns(s.owner, s.size, h, n); }
  }

  /** Exactly the `n` pages stop being free. */
  lemma {:induction false} TakenFree(s: Shape, k: nat, n: nat, i: nat)
    requires Holds(s, k, n) && i < |s.owner|
    ensures s.lists[0][k] + s.size[s.lists[0][k]] <= |s.size|
    ensures var h := s.lists[0][k]; Free(Taken(s, k, n), i) <==> Free(s, i) && !(h <= i < h + n)
  {
    TakenRuns(s, k, n);
    var h := s.lists[0][k];
    var s' := Taken(s, k, n);
    assert RunFrom(s.owner, s.size, h) && InRun(s.owner, s.size, i);
    if n == s.size[h] {
      WithoutIn(s.lists, 0, k);
    } else {
      ReplaceIn(s.lists, 0, k, h + n);
      assert h + n !in s.lists[0] by { assert !IsHead(s.owner, h + n); }
    }
  }

  lemma {:induction false} TakenCoalesced(s: Shape, k: nat, n: nat)
    requires Holds(s, k, n) && Coalesced(s)
    ensures s.lists[0][k] + s.size[s.lists[0][k]] <= |s.size|
    ensures Coalesced(Taken(s, k, n))
  {
    TakenRuns(s, k, n);
    var h := s.lists[0][k];
    var s' := Taken(s, k, n);
    assert RunFrom(s.owner, s.size, h);
    forall a: nat, b: nat | Touch(s', a, b) ensures !(Free(s', a) && Free(s', b)) {
      TakenFree(s, k, n, a);
      TakenFree(s, k, n, b);
      if a == h + n && n < s.size[h] {
        assert Touch(s, h, b);
        TakenFree(s, k, n, h);
      } else if a != h {
        assert IsHead(s.owner, a);
        assert Touch(s, a, b);
      }
    }
  }

  /** The free list after the first `n` pages of a run were taken: its descriptor moved up, or left the list. */
  function Detach(m: Memory, h: nat, n: nat): Memory
    requires h < |m.pages| && Live(m, m.pages[h].prev) && Live(m, m.pages[h].next)
    requires n <= m.pages[h].slab && h + m.pages[h].slab <= |m.pages|
  {
    if m.pages[h].slab > n then Swap(m, h, h + n, m.pages[h].slab - n) else Join(m, h)
  }

  /** What detaching leaves of every descriptor but that of the run's head. */
  ghost predicate Detached(m: Memory, s: Shape, h: nat, n: nat, m': Memory)
    requires |m.pages| == |s.size| && h < |s.size| && 0 < |s.lists|
  {
    && |m'.pages| == |m.pages|
    && forall j :: 0 <= j < |m.pages| && j != h ==>
      if j == h + n && n < s.size[h] then m'.pages[j].slab == s.size[h] - n && m'.pages[j].kind == PageKind
      else
        && m'.pages[j].slab == m.pages[j].slab
        && (m.pages[j].kind == PageKind ==> m'.pages[j].kind == PageKind)
        && (j !in s.lists[0] ==> m'.pages[j] == m.pages[j])
  }

  lemma {:induction false} SoundHolds(m: Memory, s: Shape, k: nat, n: nat)
    requires Sound(m, s, -1) && k < |s.lists[0]| && s.lists[0][k] < |s.size| && 0 < n <= s.size[s.lists[0][k]]
    ensures Holds(s, k, n) && s.lists[0][k] < |m.pages| && m.pages[s.lists[0][k]].slab == s.size[s.lists[0][k]]
    ensures m.pages[s.lists[0][k]].kind == PageKind
    ensures n < s.size[s.lists[0][k]] ==> Loose(s.lists, s.lists[0][k] + n)
  {
    var h := s.lists[0][k];
    assert h in s.lists[0];
    assert Member(m, s, 0, h) && DescOk(m, s, h);
    assert RunFrom(s.owner, s.size, h);
    if n < s.size[h] {
      forall l | 0 <= l < |s.lists| ensures h + n !in s.lists[l] {
        assert h + n in s.lists[l] ==> Member(m, s, l, h + n);
      }
    }
    forall i | i in s.lists[0] ensures IsHead(s.owner, i) { assert Member(m, s, 0, i); }
  }

  lemma {:induction false} DetachOk(m: Memory, s: Shape, k: nat, n: nat)
    requires Sound(m, s, -1) && k < |s.lists[0]| && s.lists[0][k] < |s.size| && 0 < n <= s.size[s.lists[0][k]]
    ensures Holds(s, k, n) && s.lists[0][k] + s.size[s.lists[0][k]] <= |s.size|
    ensures var h := s.lists[0][k];
      && Live(m, m.pages[h].prev) && Live(m, m.pages[h].next) && m.pages[h].slab == s.size[h]
      && Linked(Detach(m, h, n), Taken(s, k, n).lists)
      && Detached(m, s, h, n, Detach(m, h, n))
  {
    hide DescOk, Linked, Runs, Coalesced, Detached, Swap, Join, Live;
    SoundHolds(m, s, k, n);
    TakenRuns(s, k, n);
    var h := s.lists[0][k];
    if n < s.size[h] {
      SwapLinked(m, s.lists, 0, k, h + n, s.size[h] - n);
      SwapDetached(m, s, k, n);
    } else {
      JoinLinked(m, s.lists, 0, k);
      JoinDetached(m, s, k, n);
    }
  }

  lemma {:induction false} SwapDetached(m: Memory, s: Shape, k: nat, n: nat)
    requires 0 < |s.lists| && Linked(m, s.lists) && k < |s.lists[0]|
    requires var h := s.lists[0][k];
      && h < |m.pages| == |s.size| && 0 < n < s.size[h] && h + s.size[h] <= |m.pages|
      && Loose(s.lists, h + n) && m.pages[h].kind == PageKind
    ensures var h := s.lists[0][k];
      Live(m, m.pages[h].prev) && Live(m, m.pages[h].next)
      && Detached(m, s, h, n, Swap(m, h, h + n, s.size[h] - n))
  {
    hide Linked, Swap;
    SwapFrame(m, s.lists, 0, k, s.lists[0][k] + n, s.size[s.lists[0][k]] - n);
  }

  lemma {:induction false} JoinDetached(m: Memory, s: Shape, k: nat, n: nat)
    requires 0 < |s.lists| && Linked(m, s.lists) && k < |s.lists[0]|
    requires var h := s.lists[0][k]; h < |m.pages| == |s.size| && n == s.size[h] && m.pages[h].kind == PageKind
    ensures var h := s.lists[0][k];
      Live(m, m.pages[h].prev) && Live(m, m.pages[h].next) && Detached(m, s, h, n, Join(m, h))
  {
    hide Linked, Join;
    JoinFrame(m, s.lists, 0, k);
  }

  /** The descriptors of an allocated run. */
  function ClaimedDesc(h: nat, n: nat, j: int, d: Desc): Desc {
    if j == h then Desc(START + n, Null, Null, PageKind)
    else if h < j < h + n then Desc(BUSY, Null, Null, PageKind)
    else d
  }

  ghost predicate Claimed(m: Memory, h: nat, n: nat, m': Memory) {
    && |m'.pages| == |m.pages| && m'.first == m.first
    && forall j :: 0 <= j < |m.pages| ==> m'.pages[j] == ClaimedDesc(h, n, j, m.pages[j])
  }

  method Claim(m: Memory, h: nat, n: nat) returns (m': Memory)
    requires 0 < n && h + n <= |m.pages| && n < START
    ensures Claimed(m, h, n, m')
  {
    m' := m.(pages := m.pages[h := Desc(START + n, Null, Null, PageKind)]);
    var p := h + 1;
    while p < h + n
      invariant h < p <= h + n && |m'.pages| == |m.pages| && m'.first == m.first
      invariant forall j :: 0 <= j < |m.pages| ==>
        m'.pages[j] == if j < p then ClaimedDesc(h, n, j, m.pages[j]) else m.pages[j]
    {
      m' := m'.(pages := m'.pages[p := Desc(BUSY, Null, Null, PageKind)]);
      p := p + 1;
    }
  }

  lemma {:induction false} ClaimLinked(m: Memory, h: nat, n: nat, m': Memory, lists: Lists)
    requires Linked(m, lists) && Claimed(m, h, n, m') && n > 0
    requires forall j :: h <= j < h + n ==> Loose(lists, j)
    ensures Linked(m', lists)
  {
    forall l, k | 0 <= l < |lists| && 0 <= k < |lists[l]| ensures LinkedAt(m', lists, l, k) {
      assert LinkedAt(m, lists, l, k);
      assert lists[l][k] in lists[l];
      var j := lists[l][k];
      assert h <= j < h + n ==> Loose(lists, j);
    }
  }

  lemma {:induction false} TakenLoose(m: Memory, s: Shape, k: nat, n: nat, j: nat)
    requires Sound(m, s, -1) && k < |s.lists[0]| && s.lists[0][k] < |s.size| && 0 < n <= s.size[s.lists[0][k]]
    requires s.lists[0][k] <= j < s.lists[0][k] + n
    ensures s.lists[0][k] + s.size[s.lists[0][k]] <= |s.size|
    ensures Loose(Taken(s, k, n).lists, j)
  {
    SoundHolds(m, s, k, n);
    TakenRuns(s, k, n);
    TakenFree(s, k, n, j);
    var h := s.lists[0][k];
    var s' := Taken(s, k, n);
    assert RunFrom(s.owner, s.size, h) && Member(m, s, 0, h);
    if n == s.size[h] { WithoutIn(s.lists, 0, k); } else { ReplaceIn(s.lists, 0, k, h + n); }
    forall l | 0 <= l < |s'.lists| ensures j !in s'.lists[l] {
      assert j in s.lists[l] ==> Member(m, s, l, j);
    }
  }

  lemma {:induction false} TakenSound(m: Memory, s: Shape, k: nat, n: nat, m1: Memory, m': Memory)
    requires Sound(m, s, -1) && k < |s.lists[0]| && s.lists[0][k] < |s.size| && 0 < n <= s.size[s.lists[0][k]]
    requires |m.pages| == |s.size| && Detached(m, s, s.lists[0][k], n, m1) && Claimed(m1, s.lists[0][k], n, m')
    requires s.lists[0][k] + s.size[s.lists[0][k]] <= |s.size| && Linked(m', Taken(s, k, n).lists)
    ensures Sound(m', Taken(s, k, n), -1)
  {
    SoundHolds(m, s, k, n);
    TakenRuns(s, k, n);
    var s' := Taken(s, k, n);
    forall i | 0 <= i < |m'.pages| ensures DescOk(m', s', i) {
      TakenDesc(m, s, k, n, m1, m', i);
    }
    forall l, i | 0 <= l < |s'.lists| && i in s'.lists[l] ensures Member(m', s', l, i) {
      TakenMember(m, s, k, n, m1, m', l, i);
    }
  }

  lemma {:induction false} TakenDesc(m: Memory, s: Shape, k: nat, n: nat, m1: Memory, m': Memory, i: nat)
    requires Sound(m, s, -1) && k < |s.lists[0]| && s.lists[0][k] < |s.size| && 0 < n <= s.size[s.lists[0][k]]
    requires |m.pages| == |s.size| && Detached(m, s, s.lists[0][k], n, m1) && Claimed(m1, s.lists[0][k], n, m')
    requires s.lists[0][k] + s.size[s.lists[0][k]] <= |s.size| && i < |m.pages|
    ensures DescOk(m', Taken(s, k, n), i)
  {
    hide Linked;
    SoundHolds(m, s, k, n);
    TakenFree(s, k, n, i);
    var h := s.lists[0][k];
    var s' := Taken(s, k, n);
    assert RunFrom(s.owner, s.size, h) && InRun(s.owner, s.size, i) && DescOk(m, s, i);
    if n == s.size[h] { WithoutIn(s.lists, 0, k); } else { ReplaceIn(s.lists, 0, k, h + n); }
    assert i in s.lists[0] ==> Member(m, s, 0, i);
    if !Free(s, i) && s.owner[i] == i && m.pages[i].kind != PageKind {
      SameLinks(m, m', s, s', i);
    }
  }

  /** Only the free list changed, and page `i` is not on it. */
  lemma {:induction false} SameLinks(m: Memory, m': Memory, s: Shape, s': Shape, i: nat)
    requires i < |m.pages| && i < |m'.pages| && m.pages[i].next == m'.pages[i].next && LinkOk(m, s, i)
    requires |s.lists| == |s'.lists| > 0 && i !in s'.lists[0]
    requires forall l :: 0 < l < |s.lists| ==> s.lists[l] == s'.lists[l]
    ensures LinkOk(m', s', i)
  {
    if m.pages[i].next != Null {
      var l :| 0 < l < |s.lists| && OnList(s.lists, l, i);
      assert OnList(s'.lists, l, i);
    }
  }

  lemma {:induction false} TakenMember(m: Memory, s: Shape, k: nat, n: nat, m1: Memory, m': Memory, l: nat, i: nat)
    requires Sound(m, s, -1) && k < |s.lists[0]| && s.lists[0][k] < |s.size| && 0 < n <= s.size[s.lists[0][k]]
    requires |m.pages| == |s.size| && Detached(m, s, s.lists[0][k], n, m1) && Claimed(m1, s.lists[0][k], n, m')
    requires s.lists[0][k] + s.size[s.lists[0][k]] <= |s.size|
    requires l < |s.lists| && i in Taken(s, k, n).lists[l]
    ensures Member(m', Taken(s, k, n), l, i)
  {
    hide Linked;
    SoundHolds(m, s, k, n);
    var h := s.lists[0][k];
    assert RunFrom(s.owner, s.size, h);
    assert Member(m, s, 0, h);
    if n == s.size[h] { WithoutIn(s.lists, 0, k); } else { ReplaceIn(s.lists, 0, k, h + n); }
    if i in s.lists[l] {
      assert Member(m, s, l, i);
      assert l > 0 ==> i !in s.lists[0] by { assert i in s.lists[0] ==> Member(m, s, 0, i); }
    }
  }

  /** Pages [h, h + n) went from free to one allocated run, and no other page noticed. */
  ghost predicate Allocated(m: Memory, s: Shape, h: nat, n: nat, m': Memory, s': Shape) {
    && |m'.pages| == |m.pages| == |s.owner| == |s.size| == |s'.owner| == |s'.size| && h < h + n <= |m.pages|
    && |s'.lists| == |s.lists| && 0 < |s.lists| && (forall l :: 0 < l < |s.lists| ==> s'.lists[l] == s.lists[l])
    && Stretch(s, h, n) && s'.owner[h] == h && s'.size[h] == n
    && m'.pages[h] == Desc(START + n, Null, Null, PageKind)
    && (forall i :: 0 <= i < |m.pages| ==> (Free(s', i) <==> Free(s, i) && !(h <= i < h + n)))
    && (forall i :: 0 <= i < |m.pages| && !Free(s, i) ==>
          m'.pages[i] == m.pages[i] && s'.owner[i] == s.owner[i] && s'.size[i] == s.size[i])
  }

  lemma {:induction false} TakenAllocated(m: Memory, s: Shape, k: nat, n: nat, m1: Memory, m': Memory)
    requires Sound(m, s, -1) && k < |s.lists[0]| && s.lists[0][k] < |s.size| && 0 < n <= s.size[s.lists[0][k]]
    requires |m.pages| == |s.size| && Detached(m, s, s.lists[0][k], n, m1) && Claimed(m1, s.lists[0][k], n, m')
    requires s.lists[0][k] + s.size[s.lists[0][k]] <= |s.size|
    ensures Allocated(m, s, s.lists[0][k], n, m', Taken(s, k, n))
  {
    hide Linked, DescOk;
    SoundHolds(m, s, k, n);
    var h := s.lists[0][k];
    assert Member(m, s, 0, h) && RunFrom(s.owner, s.size, h);
    assert Stretch(s, h, n);
    assert forall x :: x in s.lists[0] ==> Member(m, s, 0, x);
    forall i | 0 <= i < |m.pages| ensures Free(Taken(s, k, n), i) <==> Free(s, i) && !(h <= i < h + n) {
      TakenFree(s, k, n, i);
    }
    forall i | 0 <= i < |m.pages| && !Free(s, i)
      ensures m'.pages[i] == m.pages[i] && Taken(s, k, n).owner[i] == s.owner[i] && Taken(s, k, n).size[i] == s.size[i]
    {
    }
  }

  /** First fit. The request fails exactly when no `n` consecutive pages are free. */
  method AllocPages(m: Memory, n: nat, ghost s: Shape) returns (m': Memory, r: Option<nat>, ghost s': Shape)
    requires Ok(m, s) && n > 0
    ensures Ok(m', s')
    ensures r.None? <==> forall at :: !Stretch(s, at, n)
    ensures r.None? ==> m' == m && s' == s
    ensures r.Some? ==> Allocated(m, s, r.value, n, m', s') && FirstFit(s, r.value, n, s')
  {
    hide DescOk, Runs, Coalesced, Detached, Claimed, Taken, Allocated, Stretch, Detach, FirstFit;
    var page := m.first[0];
    ghost var k: nat := 0;
    while page != Head(0)
      invariant k <= |s.lists[0]| && page == At(s.lists, 0, k)
      invariant forall j :: 0 <= j < k ==> s.lists[0][j] < |s.size| && s.size[s.lists[0][j]] < n
      decreases |s.lists[0]| - k
    {
      var h := page.i;
      FreeHead(m, s, k);
      if m.pages[h].slab >= n {
        FitsNow(m, s, k, n);
        DetachOk(m, s, k, n);
        var m1 := Detach(m, h, n);
        m' := Finish(m1, h, n, m, s, k);
        s' := Taken(s, k, n);
        r := Some(h);
        FitsFirst(s, k, n);
        return;
      }
      page := m.pages[h].next;
      k := k + 1;
    }
    NoFit(m, s, n);
    m', r, s' := m, None, s;
  }

  lemma {:induction false} FreeHead(m: Memory, s: Shape, k: nat)
    requires Sound(m, s, -1) && k < |s.lists[0]|
    ensures var h := s.lists[0][k];
      h < |m.pages| == |s.size| && m.pages[h].slab == s.size[h] && m.pages[h].next == At(s.lists, 0, k + 1)
  {
    var h := s.lists[0][k];
    assert h in s.lists[0];
    assert Member(m, s, 0, h) && DescOk(m, s, h) && LinkedAt(m, s.lists, 0, k);
  }

  lemma {:induction false} FitsNow(m: Memory, s: Shape, k: nat, n: nat)
    requires Sound(m, s, -1) && k < |s.lists[0]| && s.lists[0][k] < |s.size| && 0 < n <= s.size[s.lists[0][k]]
    ensures Stretch(s, s.lists[0][k], n) && n < START && |m.pages| == |s.size|
  {
    SoundHolds(m, s, k, n);
    assert RunFrom(s.owner, s.size, s.lists[0][k]);
  }

  /** The run at `h` is the first on the free list that is long enough; its first `n` pages are taken, and the rest
      keeps its place on the list. */
  ghost predicate FirstFit(s: Shape, h: nat, n: nat, s': Shape) {
    0 < |s.lists| && exists k: nat :: FitsAt(s, k, n) && s.lists[0][k] == h && s' == Taken(s, k, n)
  }

  ghost predicate FitsAt(s: Shape, k: nat, n: nat)
    requires 0 < |s.lists|
  {
    && k < |s.lists[0]| && s.lists[0][k] < |s.size| && 0 < n <= s.size[s.lists[0][k]]
    && s.lists[0][k] + s.size[s.lists[0][k]] <= |s.size|
    && forall j :: 0 <= j < k ==> s.lists[0][j] < |s.size| && s.size[s.lists[0][j]] < n
  }

  lemma {:induction false} FitsFirst(s: Shape, k: nat, n: nat)
    requires 0 < |s.lists| && FitsAt(s, k, n)
    ensures FirstFit(s, s.lists[0][k], n, Taken(s, k, n))
  {
  }

  lemma {:induction false} NoFit(m: Memory, s: Shape, n: nat)
    requires Ok(m, s) && n > 0
    requires forall j :: 0 <= j < |s.lists[0]| ==> s.lists[0][j] < |s.size| && s.size[s.lists[0][j]] < n
    ensures forall at :: !Stretch(s, at, n)
  {
    hide DescOk, Runs, Coalesced, Stretch, Linked;
    forall i | i in s.lists[0] ensures IsHead(s.owner, i) { assert Member(m, s, 0, i); }
    FitsRun(s, n);
  }

  /** Marking the pages of the run busy. */
  method Finish(m1: Memory, h: nat, n: nat, ghost m: Memory, ghost s: Shape, ghost k: nat) returns (m': Memory)
    requires Ok(m, s) && k < |s.lists[0]| && s.lists[0][k] == h < |s.size| && 0 < n <= s.size[h] && n < START
    requires |m.pages| == |s.size| && Detached(m, s, h, n, m1)
    requires h + s.size[h] <= |s.size| && Linked(m1, Taken(s, k, n).lists)
    ensures Ok(m', Taken(s, k, n)) && Allocated(m, s, h, n, m', Taken(s, k, n))
  {
    hide DescOk, Linked, Runs, Coalesced, Claimed, Taken, Allocated;
    m' := Claim(m1, h, n);
    forall j | h <= j < h + n ensures Loose(Taken(s, k, n).lists, j) { TakenLoose(m, s, k, n, j); }
    ClaimLinked(m1, h, n, m', Taken(s, k, n).lists);
    SoundHolds(m, s, k, n);
    TakenSound(m, s, k, n, m1, m');
    TakenCoalesced(s, k, n);
    TakenAllocated(m, s, k, n, m1, m');
  }
}
