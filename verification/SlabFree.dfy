/** ncx_slab_empty and ncx_slab_free_pages: the freed run is merged with both neighbours. */
module SlabFree {
  import opened Lists
  import opened SlabList
  import opened SlabRuns
  import opened SlabPages

  // ----- ncx_slab_empty -----

  lemma {:induction false} EmptyCases(m: Memory, s: Shape, i: nat)
    requires Sound(m, s, -1) && i < |m.pages|
    ensures m.pages[i].slab == 0 ==> Free(s, i)
    ensures m.pages[i].slab != 0 && m.pages[i].next == Null ==> !Free(s, i)
    ensures m.pages[i].slab != 0 && m.pages[i].next != Null ==> exists l :: OnList(s.lists, l, i)
  {
    assert DescOk(m, s, i) && InRun(s.owner, s.size, i);
    assert RunFrom(s.owner, s.size, s.owner[i]);
    if i in s.lists[0] {
      var k :| 0 <= k < |s.lists[0]| && s.lists[0][k] == i;
      assert LinkedAt(m, s.lists, 0, k);
      assert OnList(s.lists, 0, i);
    }
  }

  /** A page on a list is free exactly when the list is the free list. */
  lemma {:induction false} OnlyFreeList(m: Memory, s: Shape, i: nat, l: nat)
    requires Sound(m, s, -1) && i < |m.pages| && OnList(s.lists, l, i)
    ensures Free(s, i) <==> l == 0
  {
    assert Member(m, s, l, i);
    assert i in s.lists[0] ==> Member(m, s, 0, i);
  }

  /** Whether a page is free: from its slab word, or from the header its list leads back to. */
  method SlabEmpty(m: Memory, i: nat, ghost s: Shape) returns (e: bool)
    requires Sound(m, s, -1) && i < |m.pages|
    ensures e <==> Free(s, i)
  {
    hide DescOk, Runs, Free;
    EmptyCases(m, s, i);
    if m.pages[i].slab == 0 {
      return true;
    }
    if m.pages[i].next == Null {
      return false;
    }
    ghost var l: nat :| OnList(s.lists, l, i);
    ghost var k :| 0 <= k < |s.lists[l]| && s.lists[l][k] == i;
    assert LinkedAt(m, s.lists, l, k);
    OnlyFreeList(m, s, i, l);
    var prev := m.pages[i].prev;
    while prev.Page?
      invariant 0 <= k <= |s.lists[l]| && prev == At(s.lists, l, k - 1)
      decreases k
    {
      k := k - 1;
      assert LinkedAt(m, s.lists, l, k);
      prev := m.pages[prev.i].prev;
    }
    e := prev == Head(0);
  }

  // ----- Merging two runs -----

  /** The free run of `a` takes in the free run that follows it, the `k`-th on the list. */
  ghost function Fused(s: Shape, a: nat, k: nat): Shape
    requires 0 < |s.lists| && k < |s.lists[0]| && s.lists[0][k] < |s.size| && a < |s.size|
  {
    var b := s.lists[0][k];
    Shape(s.lists[0 := Without(s.lists[0], k)], Retag(s.owner, b, b + s.size[b], a), s.size[a := s.size[a] + s.size[b]])
  }

  ghost predicate Fusable(m: Memory, s: Shape, a: nat, k: nat) {
    && Sound(m, s, -1) && k < |s.lists[0]| && s.lists[0][k] < |s.size| && a < |s.size| && OnList(s.lists, 0, a)
    && s.lists[0][k] == a + s.size[a]
  }

  lemma {:induction false} FusableFacts(m: Memory, s: Shape, a: nat, k: nat)
    requires Fusable(m, s, a, k)
    ensures var b := s.lists[0][k];
      && IsHead(s.owner, a) && IsHead(s.owner, b) && RunFrom(s.owner, s.size, a) && RunFrom(s.owner, s.size, b)
      && m.pages[a].slab == s.size[a] && m.pages[b].slab == s.size[b] && m.pages[b].kind == PageKind
      && Free(s, a) && Free(s, b) && Apart(s.lists) && |m.pages| == |s.owner| == |s.size|
  {
    var b := s.lists[0][k];
    assert b in s.lists[0];
    assert Member(m, s, 0, a) && Member(m, s, 0, b) && DescOk(m, s, a) && DescOk(m, s, b);
  }

  lemma {:induction false} FusedFree(m: Memory, s: Shape, a: nat, k: nat, i: nat)
    requires Fusable(m, s, a, k) && i < |s.owner|
    ensures Free(Fused(s, a, k), i) <==> Free(s, i)
  {
    hide DescOk;
    FusableFacts(m, s, a, k);
    WithoutIn(s.lists, 0, k);
    assert InRun(s.owner, s.size, i);
  }

  /** The three writes of a merge: unlink, add up, clear. */
  function Fuse(m: Memory, a: nat, b: nat): Memory
    requires a < |m.pages| && b < |m.pages| && Live(m, m.pages[b].prev) && Live(m, m.pages[b].next)
  {
    var m1 := Join(m, b);
    var m2 := m1.(pages := m1.pages[a := m1.pages[a].(slab := m1.pages[a].slab + m1.pages[b].slab)]);
    m2.(pages := m2.pages[b := ZERO])
  }

  lemma {:induction false} FuseMemory(m: Memory, s: Shape, a: nat, k: nat)
    requires Fusable(m, s, a, k)
    ensures var b := s.lists[0][k];
      && Live(m, m.pages[b].prev) && Live(m, m.pages[b].next)
      && var m' := Fuse(m, a, b);
      && Linked(m', Fused(s, a, k).lists) && |m'.pages| == |m.pages|
      && m'.pages[b] == ZERO && m'.pages[a].slab == s.size[a] + s.size[b] && m'.pages[a].kind == PageKind
      && (forall j :: 0 <= j < |m.pages| && j != a && j != b ==>
            && m'.pages[j].slab == m.pages[j].slab
            && (j !in s.lists[0] ==> m'.pages[j] == m.pages[j])
            && (m.pages[j].kind == PageKind ==> m'.pages[j].kind == PageKind))
  {
    hide DescOk, Linked, Join, Runs, Retag;
    FusableFacts(m, s, a, k);
    var b := s.lists[0][k];
    JoinLinked(m, s.lists, 0, k);
    JoinFrame(m, s.lists, 0, k);
    var m1 := Join(m, b);
    assert Member(m, s, 0, a);
    var m2 := m1.(pages := m1.pages[a := m1.pages[a].(slab := m1.pages[a].slab + m1.pages[b].slab)]);
    WriteSlab(m1, Fused(s, a, k).lists, a, m1.pages[a].slab + m1.pages[b].slab);
    forall l | 0 <= l < |s.lists| ensures b !in Fused(s, a, k).lists[l] {
      WithoutIn(s.lists, 0, k);
      assert b in s.lists[l] ==> Member(m, s, l, b);
    }
    WriteLoose(m2, Fused(s, a, k).lists, b, ZERO);
  }

  lemma {:induction false} FuseSound(m: Memory, s: Shape, a: nat, k: nat, m': Memory)
    requires Fusable(m, s, a, k)
    requires Live(m, m.pages[s.lists[0][k]].prev) && Live(m, m.pages[s.lists[0][k]].next)
    requires m' == Fuse(m, a, s.lists[0][k])
    ensures Sound(m', Fused(s, a, k), -1)
  {
    hide Linked, Fuse, DescOk;
    FuseMemory(m, s, a, k);
    FusableFacts(m, s, a, k);
    FuseRuns(s.owner, s.size, a, s.lists[0][k]);
    var s' := Fused(s, a, k);
    forall i | 0 <= i < |m'.pages| ensures DescOk(m', s', i) {
      FuseDesc(m, s, a, k, m', i);
    }
    WithoutIn(s.lists, 0, k);
    forall l, i | 0 <= l < |s'.lists| && i in s'.lists[l] ensures Member(m', s', l, i) {
      FuseMember(m, s, a, k, m', l, i);
    }
  }

  lemma {:induction false} FuseMember(m: Memory, s: Shape, a: nat, k: nat, m': Memory, l: nat, i: nat)
    requires Fusable(m, s, a, k) && l < |s.lists| && i in Fused(s, a, k).lists[l]
    requires Live(m, m.pages[s.lists[0][k]].prev) && Live(m, m.pages[s.lists[0][k]].next)
    requires m' == Fuse(m, a, s.lists[0][k])
    ensures Member(m', Fused(s, a, k), l, i)
  {
    hide Linked, Fuse, DescOk, Runs;
    FuseMemory(m, s, a, k);
    FusableFacts(m, s, a, k);
    WithoutIn(s.lists, 0, k);
    assert Member(m, s, l, i);
    assert forall x :: x in s.lists[0] ==> Member(m, s, 0, x);
  }

  lemma {:induction false} FuseDesc(m: Memory, s: Shape, a: nat, k: nat, m': Memory, i: nat)
    requires Fusable(m, s, a, k) && i < |m.pages|
    requires Live(m, m.pages[s.lists[0][k]].prev) && Live(m, m.pages[s.lists[0][k]].next)
    requires m' == Fuse(m, a, s.lists[0][k])
    requires |m'.pages| == |m.pages|
    ensures DescOk(m', Fused(s, a, k), i)
  {
    hide Linked, Fuse;
    FuseMemory(m, s, a, k);
    FusableFacts(m, s, a, k);
    FusedFree(m, s, a, k, i);
    WithoutIn(s.lists, 0, k);
    var s' := Fused(s, a, k);
    assert DescOk(m, s, i) && InRun(s.owner, s.size, i);
    assert forall x :: x in s.lists[0] ==> Member(m, s, 0, x);
    if !Free(s, i) && s.owner[i] == i && m.pages[i].kind != PageKind {
      SameLinks(m, m', s, s', i);
    }
  }
}
