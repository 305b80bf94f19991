/** Chunk pages on the slot lists: what linking and unlinking them does to the page allocator's state. */
module SlabSlots {
  import opened Lists
  import opened SlabList
  import opened SlabRuns
  import opened SlabMerge

  /** A page cut into chunks. */
  predicate IsChunks(m: Memory, i: nat) {
    i < |m.pages| && m.pages[i].kind != PageKind
  }

  /** Slab words, kinds and the pages off list `l` are as before. */
  ghost predicate SlotFrame(m: Memory, s: Shape, m': Memory, s': Shape, l: nat, i: nat) {
    && |m'.pages| == |m.pages| == |s.owner| && 0 < l < |s.lists| == |s'.lists|
    && s'.owner == s.owner && s'.size == s.size
    && (forall l' :: 0 <= l' < |s.lists| && l' != l ==> s'.lists[l'] == s.lists[l'])
    && (forall j :: 0 <= j < |m.pages| && j != i ==>
          m'.pages[j].slab == m.pages[j].slab && m'.pages[j].kind == m.pages[j].kind
          && (j !in s.lists[l] ==> m'.pages[j] == m.pages[j]))
    && (forall x: nat :: x != i ==> (x in s'.lists[l] <==> x in s.lists[l]))
  }

  lemma {:induction false} ChunksOffFree(m: Memory, s: Shape, i: nat)
    requires Sound(m, s, -1) && IsChunks(m, i)
    ensures i !in s.lists[0] && !Free(s, i) && IsHead(s.owner, i) && i < |s.size| && s.size[i] == 1
    ensures LinkOk(m, s, i) && m.pages[i].slab != 0 && |m.pages| == |s.owner| == |s.size|
  {
    assert DescOk(m, s, i);
    assert i in s.lists[0] ==> Member(m, s, 0, i);
  }

  lemma {:induction false} FrameCoalesced(m: Memory, s: Shape, m': Memory, s': Shape, l: nat, i: nat)
    requires Coalesced(s) && SlotFrame(m, s, m', s', l, i)
    ensures Coalesced(s') && forall j: nat :: Free(s', j) <==> Free(s, j)
  {
    forall a: nat, b: nat | Touch(s', a, b) ensures !(Free(s', a) && Free(s', b)) {
      assert Touch(s, a, b);
    }
  }

  /** Everything but page `i` is described as before. */
  lemma {:induction false} FrameDesc(m: Memory, s: Shape, m': Memory, s': Shape, l: nat, i: nat, j: nat)
    requires Sound(m, s, -1) && Linked(m', s'.lists) && SlotFrame(m, s, m', s', l, i) && j != i && j < |m.pages|
    requires forall x: nat :: x in s.lists[l] ==> x < |m.pages| && m.pages[x].kind != PageKind
    ensures DescOk(m', s', j)
  {
    hide Linked;
    assert DescOk(m, s, j);
    if !Free(s, j) && s.owner[j] == j && m.pages[j].kind != PageKind {
      if j in s.lists[l] {
        MemberNext(m', s'.lists, l, j);
        assert OnList(s'.lists, l, j);
      } else if m.pages[j].next != Null {
        var l': nat :| 0 < l' < |s.lists| && OnList(s.lists, l', j);
        assert OnList(s'.lists, l', j);
      }
    }
  }

  lemma {:induction false} FrameOk(m: Memory, s: Shape, m': Memory, s': Shape, l: nat, i: nat)
    requires Ok(m, s) && Linked(m', s'.lists) && SlotFrame(m, s, m', s', l, i) && i < |m.pages|
    requires DescOk(m', s', i) && i !in s.lists[0]
    requires i in s'.lists[l] ==> Member(m', s', l, i)
    requires forall l' :: 0 <= l' < |s.lists| && l' != l ==> i !in s.lists[l']
    ensures Ok(m', s')
  {
    hide Linked, DescOk, Coalesced;
    FrameCoalesced(m, s, m', s', l, i);
    forall x: nat | x in s.lists[l] ensures x < |m.pages| && m.pages[x].kind != PageKind {
      assert Member(m, s, l, x);
    }
    forall j: nat | j < |m'.pages| && j != i ensures DescOk(m', s', j) {
      FrameDesc(m, s, m', s', l, i, j);
    }
    forall l': nat, j: nat | l' < |s'.lists| && j in s'.lists[l'] ensures Member(m', s', l', j) {
      if j != i {
        assert j in s.lists[l'];
        assert Member(m, s, l', j);
      }
    }
  }

  // ----- The four changes -----

  /** A new slab word. */
  lemma {:induction false} WriteOk(m: Memory, s: Shape, i: nat, slab: nat)
    requires Ok(m, s) && IsChunks(m, i) && slab != 0
    ensures Ok(m.(pages := m.pages[i := m.pages[i].(slab := slab)]), s)
  {
    hide Linked, Coalesced, Runs;
    var m' := m.(pages := m.pages[i := m.pages[i].(slab := slab)]);
    ChunksOffFree(m, s, i);
    WriteSlab(m, s.lists, i, slab);
    forall j: nat | j < |m'.pages| ensures DescOk(m', s, j) {
      assert DescOk(m, s, j);
    }
    forall l: nat, j: nat | l < |s.lists| && j in s.lists[l] ensures Member(m', s, l, j) {
      assert Member(m, s, l, j);
    }
  }

  function Unlink(m: Memory, i: nat): Memory
    requires i < |m.pages| && Live(m, m.pages[i].prev) && Live(m, m.pages[i].next)
  {
    var m1 := Join(m, i);
    m1.(pages := m1.pages[i := m1.pages[i].(next := Null, prev := Null)])
  }

  lemma {:induction false} UnlinkOk(m: Memory, s: Shape, l: nat, k: nat)
    requires Ok(m, s) && 0 < l < |s.lists| && k < |s.lists[l]|
    ensures var i := s.lists[l][k];
      && IsChunks(m, i) && Live(m, m.pages[i].prev) && Live(m, m.pages[i].next)
      && var s' := s.(lists := s.lists[l := Without(s.lists[l], k)]);
      && Ok(Unlink(m, i), s') && SlotFrame(m, s, Unlink(m, i), s', l, i)
      && Unlink(m, i).pages[i] == m.pages[i].(next := Null, prev := Null)
  {
    hide Linked, DescOk, Coalesced, Runs, Join;
    var i := s.lists[l][k];
    assert i in s.lists[l];
    assert Member(m, s, l, i);
    ChunksOffFree(m, s, i);
    JoinLinked(m, s.lists, l, k);
    JoinFrame(m, s.lists, l, k);
    ApartOf(m, s.lists);
    WithoutIn(s.lists, l, k);
    var s' := s.(lists := s.lists[l := Without(s.lists[l], k)]);
    OneList(s.lists, l, k);
    var m1 := Join(m, i);
    WriteLoose(m1, s'.lists, i, m1.pages[i].(next := Null, prev := Null));
    assert forall x :: x in s.lists[l] ==> Member(m, s, l, x);
    LooseDesc(Unlink(m, i), s', i);
    FrameOk(m, s, Unlink(m, i), s', l, i);
  }

  lemma {:induction false} OneList(lists: Lists, l: nat, k: nat)
    requires Apart(lists) && l < |lists| && k < |lists[l]|
    ensures forall l' :: 0 <= l' < |lists| && l' != l ==> lists[l][k] !in lists[l']
    ensures Loose(lists[l := Without(lists[l], k)], lists[l][k])
  {
    WithoutIn(lists, l, k);
    forall l' | 0 <= l' < |lists| && l' != l ensures lists[l][k] !in lists[l'] {
      forall k' | 0 <= k' < |lists[l']| ensures lists[l'][k'] != lists[l][k] { }
    }
  }

  lemma {:induction false} LooseDesc(m: Memory, s: Shape, i: nat)
    requires i < |m.pages| == |s.owner| == |s.size| && IsHead(s.owner, i) && s.size[i] == 1 && 0 < |s.lists|
    requires m.pages[i].kind != PageKind && m.pages[i].slab != 0 && m.pages[i].next == Null && Loose(s.lists, i)
    ensures DescOk(m, s, i)
  {
  }

  lemma {:induction false} PushOk(m: Memory, s: Shape, l: nat, i: nat)
    requires Ok(m, s) && 0 < l < |s.lists| && IsChunks(m, i) && m.pages[i].next == Null
    requires m.pages[i].kind == ListKind(l)
    ensures Linked(m, s.lists) && l < |m.first| && Live(m, m.first[l])
    ensures var s' := s.(lists := s.lists[l := [i] + s.lists[l]]);
      && var m' := Push(m, l, i, ListKind(l));
      && Ok(m', s') && SlotFrame(m, s, m', s', l, i) && OnList(s'.lists, l, i)
      && m'.pages[i].slab == m.pages[i].slab && m'.pages[i].kind == ListKind(l) && m'.pages[i].next != Null
  {
    hide Linked, DescOk, Coalesced, Runs, Push;
    ChunksOffFree(m, s, i);
    LinkOf(m, s, i);
    FirstOf(m, s.lists, l);
    PushLinked(m, s.lists, l, i, ListKind(l));
    PushFrame(m, s.lists, l, i, ListKind(l));
    var s' := s.(lists := s.lists[l := [i] + s.lists[l]]);
    var m' := Push(m, l, i, ListKind(l));
    assert forall x :: x in s.lists[l] ==> Member(m, s, l, x);
    assert OnList(s'.lists, l, i);
    MemberNext(m', s'.lists, l, i);
    assert DescOk(m', s', i) by { LinkedDesc(m', s', l, i); }
    FrameOk(m, s, m', s', l, i);
  }

  lemma {:induction false} LinkOf(m: Memory, s: Shape, i: nat)
    requires i < |m.pages| && LinkOk(m, s, i) && m.pages[i].next == Null
    ensures Loose(s.lists, i)
  {
  }

  lemma {:induction false} FirstOf(m: Memory, lists: Lists, l: nat)
    requires Linked(m, lists) && l < |lists|
    ensures l < |m.first| && m.first[l] == At(lists, l, 0) && Live(m, m.first[l])
  {
    AtLive(m, lists, l, 0);
  }

  lemma {:induction false} LinkedDesc(m: Memory, s: Shape, l: nat, i: nat)
    requires i < |m.pages| == |s.owner| == |s.size| && IsHead(s.owner, i) && s.size[i] == 1 && !Free(s, i)
    requires m.pages[i].kind != PageKind && m.pages[i].slab != 0 && m.pages[i].next != Null
    requires 0 < l < |s.lists| && OnList(s.lists, l, i)
    ensures DescOk(m, s, i)
  {
  }

  /** A page just allocated becomes a chunk page on no list. */
  lemma {:induction false} ConvertOk(m: Memory, s: Shape, i: nat, d: Desc)
    requires Ok(m, s) && i < |m.pages| == |s.size| && IsHead(s.owner, i) && s.size[i] == 1 && !Free(s, i)
    requires m.pages[i].kind == PageKind && d.kind != PageKind && d.slab != 0 && d.next == Null
    ensures Ok(m.(pages := m.pages[i := d]), s)
  {
    hide Linked, Coalesced, Runs;
    var m' := m.(pages := m.pages[i := d]);
    forall l | 0 <= l < |s.lists| ensures i !in s.lists[l] {
      assert i in s.lists[l] ==> Member(m, s, l, i);
    }
    WriteLoose(m, s.lists, i, d);
    forall j: nat | j < |m'.pages| ensures DescOk(m', s, j) {
      assert DescOk(m, s, j);
    }
    forall l: nat, j: nat | l < |s.lists| && j in s.lists[l] ensures Member(m', s, l, j) {
      assert Member(m, s, l, j);
    }
  }
}
