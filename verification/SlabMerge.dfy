/** ncx_slab_free_pages: release, merge left, merge right. */
module SlabMerge {
  import opened Lists
  import opened SlabList
  import opened SlabRuns
  import opened SlabFree

  /** Only pairs with `x` on the left may touch. */
  ghost predicate OnlyRightOf(s: Shape, x: nat) {
    forall a, b :: Touch(s, a, b) && Free(s, a) && Free(s, b) ==> a == x
  }

  /** Only pairs that involve `x` may touch. */
  ghost predicate OnlyAround(s: Shape, x: nat) {
    forall a, b :: Touch(s, a, b) && Free(s, a) && Free(s, b) ==> a == x || b == x
  }

  /** Merging changes no page's freedom and leaves the other pages and lists alone. */
  ghost predicate SameFree(m: Memory, s: Shape, m': Memory, s': Shape) {
    && |m'.pages| == |m.pages| == |s.owner| == |s.size| == |s'.owner| == |s'.size|
    && |s'.lists| == |s.lists| && 0 < |s.lists| && (forall l :: 0 < l < |s.lists| ==> s'.lists[l] == s.lists[l])
    && (forall i :: 0 <= i < |m.pages| ==> (Free(s', i) <==> Free(s, i)))
    && (forall i :: 0 <= i < |m.pages| && !Free(s, i) ==>
          m'.pages[i] == m.pages[i] && s'.owner[i] == s.owner[i] && s'.size[i] == s.size[i])
  }

  lemma {:induction false} FuseSameFree(m: Memory, s: Shape, a: nat, k: nat, m': Memory)
    requires Fusable(m, s, a, k)
    requires Live(m, m.pages[s.lists[0][k]].prev) && Live(m, m.pages[s.lists[0][k]].next)
    requires m' == Fuse(m, a, s.lists[0][k])
    ensures SameFree(m, s, m', Fused(s, a, k))
  {
    hide Linked, Fuse, DescOk;
    FuseMemory(m, s, a, k);
    FusableFacts(m, s, a, k);
    assert forall x :: x in s.lists[0] ==> Member(m, s, 0, x);
    forall i | 0 <= i < |m.pages| ensures Free(Fused(s, a, k), i) <==> Free(s, i) { FusedFree(m, s, a, k, i); }
  }

  lemma {:induction false} FuseLeft(m: Memory, s: Shape, a: nat, k: nat)
    requires Fusable(m, s, a, k) && OnlyAround(s, s.lists[0][k])
    ensures OnlyRightOf(Fused(s, a, k), a)
  {
    hide Linked, DescOk, Free;
    FusableFacts(m, s, a, k);
    var s', x := Fused(s, a, k), s.lists[0][k];
    forall c: nat, d: nat | Touch(s', c, d) && Free(s', c) && Free(s', d) ensures c == a {
      FusedFree(m, s, a, k, c);
      FusedFree(m, s, a, k, d);
      assert c != a ==> Touch(s, c, d);
    }
  }

  lemma {:induction false} FuseRight(m: Memory, s: Shape, a: nat, k: nat)
    requires Fusable(m, s, a, k) && OnlyRightOf(s, a)
    ensures Coalesced(Fused(s, a, k))
  {
    hide Linked, DescOk, Free;
    FusableFacts(m, s, a, k);
    var s', b := Fused(s, a, k), s.lists[0][k];
    forall c: nat, d: nat | Touch(s', c, d) ensures !(Free(s', c) && Free(s', d)) {
      FusedFree(m, s, a, k, c);
      FusedFree(m, s, a, k, d);
      if c == a {
        assert Touch(s, b, d);
      } else {
        assert IsHead(s.owner, c) && RunFrom(s.owner, s.size, c);
        assert Touch(s, c, d);
      }
    }
  }

  /** Merging with the free run before: the walk down the zero slab words finds its head. */
  method MergeLeft(m: Memory, x: nat, ghost s: Shape) returns (m': Memory, y: nat, ghost s': Shape)
    requires Sound(m, s, -1) && 0 < |s.lists[0]| && s.lists[0][0] == x < |m.pages| && OnlyAround(s, x)
    ensures Sound(m', s', -1) && OnList(s'.lists, 0, y) && OnlyRightOf(s', y) && SameFree(m, s, m', s')
    ensures x == 0 || !Free(s, x - 1) ==> m' == m && y == x && s' == s
  {
    hide DescOk, Runs, Linked, Fuse, OnlyAround, OnlyRightOf, SameFree;
    HeadOf(m, s, 0);
    m', y, s' := m, x, s;
    if x == 0 {
      NoLeft(m, s, x);
      SameFreeRefl(m, s);
      return;
    }
    var e := SlabEmpty(m, x - 1, s);
    if !e {
      NoLeft(m, s, x);
      SameFreeRefl(m, s);
      return;
    }
    LeftRun(m, s, x);
    ghost var a := s.owner[x - 1];
    y := x - 1;
    while m.pages[y].slab == 0
      invariant a <= y < |m.pages|
      decreases y
    {
      y := y - 1;
    }
    FuseMemory(m, s, a, 0);
    m' := Fuse(m, y, x);
    s' := Fused(s, a, 0);
    FuseSound(m, s, a, 0, m');
    FuseLeft(m, s, a, 0);
    FuseSameFree(m, s, a, 0, m');
    StillListed(m, s, a, 0);
  }

  lemma {:induction false} StillListed(m: Memory, s: Shape, a: nat, k: nat)
    requires Fusable(m, s, a, k)
    ensures OnList(Fused(s, a, k).lists, 0, a)
  {
    FusableFacts(m, s, a, k);
    WithoutIn(s.lists, 0, k);
  }

  lemma {:induction false} HeadOf(m: Memory, s: Shape, k: nat)
    requires Sound(m, s, -1) && k < |s.lists[0]|
    ensures var x := s.lists[0][k];
      IsHead(s.owner, x) && Free(s, x) && x < |m.pages| == |s.owner| == |s.size| && OnList(s.lists, 0, x)
      && m.pages[x].slab == s.size[x] && x + s.size[x] <= |m.pages|
  {
    var x := s.lists[0][k];
    assert x in s.lists[0];
    assert Member(m, s, 0, x) && DescOk(m, s, x) && RunFrom(s.owner, s.size, x);
  }

  lemma {:induction false} SameFreeRefl(m: Memory, s: Shape)
    requires Sound(m, s, -1)
    ensures SameFree(m, s, m, s)
  {
  }

  lemma {:induction false} NoLeft(m: Memory, s: Shape, x: nat)
    requires Sound(m, s, -1) && OnlyAround(s, x) && (x == 0 || !Free(s, x - 1))
    ensures OnlyRightOf(s, x)
  {
    forall a: nat, b: nat | Touch(s, a, b) && Free(s, a) && Free(s, b) ensures a == x {
      assert RunFrom(s.owner, s.size, a);
    }
  }

  /** The run that ends just before `x`. */
  lemma {:induction false} LeftRun(m: Memory, s: Shape, x: nat)
    requires Sound(m, s, -1) && 0 < |s.lists[0]| && s.lists[0][0] == x && 0 < x < |m.pages| && Free(s, x - 1)
    ensures var a := s.owner[x - 1];
      && Fusable(m, s, a, 0) && a < x && a < |m.pages| && m.pages[a].slab != 0
      && forall j :: a < j < x ==> m.pages[j].slab == 0
  {
    HeadOf(m, s, 0);
    var a := s.owner[x - 1];
    assert InRun(s.owner, s.size, x - 1) && RunFrom(s.owner, s.size, a) && RunFrom(s.owner, s.size, x);
    assert a + s.size[a] == x;
    assert Member(m, s, 0, a) && DescOk(m, s, a);
    forall j | a < j < x ensures m.pages[j].slab == 0 {
      assert DescOk(m, s, j);
    }
  }

  /** Merging with the free run after. */
  method MergeRight(m: Memory, y: nat, ghost s: Shape) returns (m': Memory, ghost s': Shape)
    requires Sound(m, s, -1) && OnList(s.lists, 0, y) && OnlyRightOf(s, y) && y < |m.pages|
    ensures Ok(m', s') && SameFree(m, s, m', s')
    ensures Coalesced(s) ==> m' == m && s' == s
  {
    hide DescOk, Runs, Linked, Fuse, OnlyRightOf, SameFree, Coalesced;
    ghost var j :| 0 <= j < |s.lists[0]| && s.lists[0][j] == y;
    HeadOf(m, s, j);
    m', s' := m, s;
    var next := y + m.pages[y].slab;
    if next < |m.pages| {
      var e := SlabEmpty(m, next, s);
      if e {
        ghost var k := RightRun(m, s, y);
        RightTouches(s, y);
        FuseMemory(m, s, y, k);
        m' := Fuse(m, y, next);
        s' := Fused(s, y, k);
        FuseSound(m, s, y, k, m');
        FuseRight(m, s, y, k);
        FuseSameFree(m, s, y, k, m');
        return;
      }
    }
    NoRight(m, s, y);
    SameFreeRefl(m, s);
  }

  lemma {:induction false} NoRight(m: Memory, s: Shape, y: nat)
    requires Sound(m, s, -1) && OnlyRightOf(s, y) && y < |s.size|
    requires y + s.size[y] >= |m.pages| || !Free(s, y + s.size[y])
    ensures Coalesced(s)
  {
  }

  lemma {:induction false} RightTouches(s: Shape, y: nat)
    requires IsHead(s.owner, y) && y < |s.size| && Free(s, y) && y + s.size[y] < |s.owner| && Free(s, y + s.size[y])
    ensures !Coalesced(s)
  {
    assert Touch(s, y, y + s.size[y]);
  }

  lemma {:induction false} RightRun(m: Memory, s: Shape, y: nat) returns (k: nat)
    requires Sound(m, s, -1) && OnList(s.lists, 0, y) && IsHead(s.owner, y) && y < |s.size|
    requires y + s.size[y] < |m.pages| && Free(s, y + s.size[y])
    ensures Fusable(m, s, y, k)
  {
    NextHead(s.owner, s.size, y);
    var b := y + s.size[y];
    var i :| 0 <= i < |s.lists[0]| && s.lists[0][i] == b;
    k := i;
  }

  // ----- Releasing a run -----

  /** Page `i` heads an allocated run of `n` pages; its own slab word may already be anything. */
  ghost predicate Releasable(m: Memory, s: Shape, i: nat, n: nat) {
    && Sound(m, s, i) && i < |m.pages| && IsHead(s.owner, i) && s.size[i] == n && !Free(s, i)
    && LinkOk(m, s, i)
  }

  method ZeroPages(m: Memory, lo: nat, hi: nat) returns (m': Memory)
    requires lo <= hi <= |m.pages|
    ensures |m'.pages| == |m.pages| && m'.first == m.first
    ensures forall j :: 0 <= j < |m.pages| ==> m'.pages[j] == if lo <= j < hi then ZERO else m.pages[j]
  {
    m' := m;
    for p := lo to hi
      invariant |m'.pages| == |m.pages| && m'.first == m.first
      invariant forall j :: 0 <= j < |m.pages| ==> m'.pages[j] == if lo <= j < p then ZERO else m.pages[j]
    {
      m' := m'.(pages := m'.pages[p := ZERO]);
    }
  }

  /** Page `i` off its slot list, where it is the `k`-th of list `l`; `l` is 0 when it is on none. */
  ghost function Dropped(lists: Lists, l: nat, k: nat): Lists
    requires l < |lists| && (l > 0 ==> k < |lists[l]|)
  {
    if l == 0 then lists else lists[l := Without(lists[l], k)]
  }

  ghost predicate ReleasedDesc(m: Memory, s: Shape, i: nat, n: nat, l: nat, m': Memory, j: nat)
    requires l < |s.lists| && j < |m.pages| && j < |m'.pages|
  {
    if j == i then m'.pages[j].slab == n && m'.pages[j].kind == PageKind
    else if i < j < i + n then m'.pages[j] == ZERO
    else
      && m'.pages[j].slab == m.pages[j].slab
      && (m.pages[j].kind == ListKind(l) || j in s.lists[0] ==> m'.pages[j].kind == m.pages[j].kind)
      && (j !in s.lists[0] && (l == 0 || j !in s.lists[l]) ==> m'.pages[j] == m.pages[j])
      && (l > 0 && j in s.lists[l] ==> m'.pages[j].next != Null)
  }

  lemma {:induction false} ReleaseWhere(m: Memory, s: Shape, i: nat, n: nat) returns (l: nat, k: nat)
    requires Releasable(m, s, i, n)
    ensures l < |s.lists| && (l == 0 <==> m.pages[i].next == Null)
    ensures l > 0 ==> k < |s.lists[l]| && s.lists[l][k] == i
    ensures l == 0 ==> Loose(s.lists, i)
    ensures i !in s.lists[0]
  {
    l, k := 0, 0;
    if m.pages[i].next != Null {
      var l': nat :| 0 < l' < |s.lists| && OnList(s.lists, l', i);
      var k' :| 0 <= k' < |s.lists[l']| && s.lists[l'][k'] == i;
      l, k := l', k';
    }
  }

  /** The writes of a release after the inner pages were cleared. */
  function Release(m: Memory, i: nat, n: nat): Memory
    requires i < |m.pages| && 0 < |m.first|
    requires (m.pages[i].next != Null ==> Live(m, m.pages[i].prev) && Live(m, m.pages[i].next))
    requires m.pages[i].next == Null ==> Live(m, m.first[0])
    requires m.pages[i].next != Null ==> Live(Join(m, i), Join(m, i).first[0])
  {
    var m1 := if m.pages[i].next != Null then Join(m, i) else m;
    var m2 := m1.(pages := m1.pages[i := m1.pages[i].(slab := n)]);
    Push(m2, 0, i, PageKind)
  }

  ghost predicate Cleared(m: Memory, i: nat, n: nat, m0: Memory) {
    && |m0.pages| == |m.pages| && m0.first == m.first
    && forall j :: 0 <= j < |m.pages| ==> m0.pages[j] == if i < j < i + n then ZERO else m.pages[j]
  }

  lemma {:induction false} ClearedLinked(m: Memory, s: Shape, i: nat, n: nat, m0: Memory)
    requires Sound(m, s, i) && IsHead(s.owner, i) && i < |s.size| && s.size[i] == n && Cleared(m, i, n, m0)
    ensures Linked(m0, s.lists)
  {
    hide DescOk;
    assert RunFrom(s.owner, s.size, i);
    forall l, k | 0 <= l < |s.lists| && 0 <= k < |s.lists[l]| ensures LinkedAt(m0, s.lists, l, k) {
      assert LinkedAt(m, s.lists, l, k);
      assert s.lists[l][k] in s.lists[l];
      assert Member(m, s, l, s.lists[l][k]);
    }
  }

  lemma {:induction false} ReleaseUnlinked(m: Memory, s: Shape, i: nat, n: nat, l: nat, k: nat, m0: Memory)
    requires Releasable(m, s, i, n) && l < |s.lists| && (l == 0 <==> m.pages[i].next == Null)
    requires l > 0 ==> k < |s.lists[l]| && s.lists[l][k] == i
    requires l == 0 ==> Loose(s.lists, i)
    requires Cleared(m, i, n, m0)
    ensures m0.pages[i].next != Null ==> Live(m0, m0.pages[i].prev) && Live(m0, m0.pages[i].next)
    ensures var m1 := if m0.pages[i].next != Null then Join(m0, i) else m0;
      && Linked(m1, Dropped(s.lists, l, k)) && Loose(Dropped(s.lists, l, k), i) && |m1.pages| == |m.pages|
      && m1.pages[i] == m.pages[i]
      && (l == 0 ==> m1 == m0) && (l > 0 ==> LinksOnly(m0, m1, s.lists, l, ListKind(l)))
  {
    hide DescOk, Linked, Join;
    ClearedLinked(m, s, i, n, m0);
    if l > 0 {
      assert i in s.lists[l];
      assert Member(m, s, l, i);
      JoinLinked(m0, s.lists, l, k);
      JoinFrame(m0, s.lists, l, k);
      ApartOf(m, s.lists);
      WithoutIn(s.lists, l, k);
      forall l' | 0 <= l' < |s.lists| && l' != l ensures i !in s.lists[l'] {
        forall k' | 0 <= k' < |s.lists[l']| ensures s.lists[l'][k'] != i { }
      }
    }
  }

  lemma {:induction false} FirstLive(m: Memory, lists: Lists)
    requires Linked(m, lists) && 0 < |lists|
    ensures |m.first| == |lists| && Live(m, m.first[0])
  {
    AtLive(m, lists, 0, 0);
  }

  lemma {:induction false} MemberNext(m: Memory, lists: Lists, l: nat, j: nat)
    requires Linked(m, lists) && OnList(lists, l, j)
    ensures j < |m.pages| && m.pages[j].next != Null
  {
    var k :| 0 <= k < |lists[l]| && lists[l][k] == j;
    assert LinkedAt(m, lists, l, k);
  }

  lemma {:induction false} ApartOf(m: Memory, lists: Lists)
    requires Linked(m, lists)
    ensures Apart(lists)
  {
  }

  /** The lists after the release. */
  ghost function Freed(s: Shape, i: nat, l: nat, k: nat): Shape
    requires l < |s.lists| && (l > 0 ==> k < |s.lists[l]|)
  {
    var lists := Dropped(s.lists, l, k);
    s.(lists := lists[0 := [i] + lists[0]])
  }

  lemma {:induction false} ReleaseMemory(m: Memory, s: Shape, i: nat, n: nat, l: nat, k: nat, m0: Memory)
    requires Releasable(m, s, i, n) && l < |s.lists| && (l == 0 <==> m.pages[i].next == Null)
    requires l > 0 ==> k < |s.lists[l]| && s.lists[l][k] == i
    requires l == 0 ==> Loose(s.lists, i)
    requires Cleared(m, i, n, m0)
    ensures m0.pages[i].next != Null ==> Live(m0, m0.pages[i].prev) && Live(m0, m0.pages[i].next)
    ensures 0 < |m0.first| && (m0.pages[i].next == Null ==> Live(m0, m0.first[0]))
    ensures m0.pages[i].next != Null ==> Live(Join(m0, i), Join(m0, i).first[0])
    ensures var m' := Release(m0, i, n);
      && Linked(m', Freed(s, i, l, k).lists) && |m'.pages| == |m.pages|
      && forall j :: 0 <= j < |m.pages| ==> ReleasedDesc(m, s, i, n, l, m', j)
  {
    hide DescOk, Linked, Join, Runs, Push;
    FirstLive(m, s.lists);
    ReleaseUnlinked(m, s, i, n, l, k, m0);
    var m1 := if m0.pages[i].next != Null then Join(m0, i) else m0;
    var lists := Dropped(s.lists, l, k);
    FirstLive(m1, lists);
    WriteSlab(m1, lists, i, n);
    var m2 := m1.(pages := m1.pages[i := m1.pages[i].(slab := n)]);
    PushLinked(m2, lists, 0, i, PageKind);
    PushFrame(m2, lists, 0, i, PageKind);
    var m' := Push(m2, 0, i, PageKind);
    forall j: nat | j < |m.pages| ensures ReleasedDesc(m, s, i, n, l, m', j) {
      ReleaseDesc(m, s, i, n, l, k, m0, m1, m2, m', j);
    }
  }

  lemma {:induction false} ReleaseDesc(m: Memory, s: Shape, i: nat, n: nat, l: nat, k: nat, m0: Memory, m1: Memory,
    m2: Memory,
    m': Memory, j: nat)
    requires Releasable(m, s, i, n) && l < |s.lists| && j < |m.pages| && Cleared(m, i, n, m0)
    requires l > 0 ==> k < |s.lists[l]| && s.lists[l][k] == i
    requires |m1.pages| == |m.pages| && m1.pages[i] == m.pages[i]
    requires (l == 0 ==> m1 == m0) && (l > 0 ==> LinksOnly(m0, m1, s.lists, l, ListKind(l)))
    requires m2 == m1.(pages := m1.pages[i := m1.pages[i].(slab := n)])
    requires Linked(m', Freed(s, i, l, k).lists) && LinksOnly(m2, m', Freed(s, i, l, k).lists, 0, PageKind)
    requires m'.pages[i].kind == PageKind
    ensures ReleasedDesc(m, s, i, n, l, m', j)
  {
    hide DescOk, Linked;
    ApartOf(m, s.lists);
    assert RunFrom(s.owner, s.size, i);
    assert forall x :: x in s.lists[0] ==> Member(m, s, 0, x);
    assert l > 0 ==> forall x :: x in s.lists[l] ==> Member(m, s, l, x);
    if l > 0 && j in s.lists[l] && j != i {
      WithoutIn(s.lists, l, k);
      MemberNext(m', Freed(s, i, l, k).lists, l, j);
    }
  }

  ghost predicate Gone(s: Shape, i: nat, l: nat, k: nat) {
    && l < |s.lists| && (l > 0 ==> k < |s.lists[l]| && s.lists[l][k] == i) && (l == 0 ==> Loose(s.lists, i))
  }

  /** Page membership after a release. */
  lemma {:induction false} FreedLists(m: Memory, s: Shape, i: nat, n: nat, l: nat, k: nat)
    requires Releasable(m, s, i, n) && Gone(s, i, l, k)
    ensures var s' := Freed(s, i, l, k);
      && |s'.lists| == |s.lists| && s'.owner == s.owner && s'.size == s.size
      && (forall x: nat :: x in s'.lists[0] <==> x in s.lists[0] || x == i)
      && (forall l', x: nat :: 0 < l' < |s.lists| ==> (x in s'.lists[l'] <==> x in s.lists[l'] && x != i))
  {
    hide DescOk, Runs;
    ApartOf(m, s.lists);
    if l > 0 {
      WithoutIn(s.lists, l, k);
      forall l' | 0 <= l' < |s.lists| && l' != l ensures i !in s.lists[l'] {
        forall k' | 0 <= k' < |s.lists[l']| ensures s.lists[l'][k'] != i { }
      }
    }
  }

  lemma {:induction false} FreedFree(m: Memory, s: Shape, i: nat, n: nat, l: nat, k: nat, j: nat)
    requires Releasable(m, s, i, n) && Gone(s, i, l, k) && j < |s.owner|
    ensures Free(Freed(s, i, l, k), j) <==> Free(s, j) || i <= j < i + n
  {
    hide DescOk, Linked;
    FreedLists(m, s, i, n, l, k);
    assert RunFrom(s.owner, s.size, i) && InRun(s.owner, s.size, j);
  }

  lemma {:induction false} FreedSound(m: Memory, s: Shape, i: nat, n: nat, l: nat, k: nat, m': Memory)
    requires Releasable(m, s, i, n) && Gone(s, i, l, k)
    requires Linked(m', Freed(s, i, l, k).lists) && |m'.pages| == |m.pages|
    requires forall j :: 0 <= j < |m.pages| ==> ReleasedDesc(m, s, i, n, l, m', j)
    ensures Sound(m', Freed(s, i, l, k), -1)
  {
    hide DescOk, Linked, ReleasedDesc;
    FreedLists(m, s, i, n, l, k);
    var s' := Freed(s, i, l, k);
    forall j: nat | j < |m'.pages| ensures DescOk(m', s', j) {
      assert ReleasedDesc(m, s, i, n, l, m', j);
      FreedDesc(m, s, i, n, l, k, m', j);
    }
    forall l': nat, j: nat | l' < |s'.lists| && j in s'.lists[l'] ensures Member(m', s', l', j) {
      if j != i {
        assert j in s.lists[l'];
        assert Member(m, s, l', j);
      }
      assert ReleasedDesc(m, s, i, n, l, m', j);
      FreedMember(m, s, i, n, l, k, m', l', j);
    }
  }

  lemma {:induction false} FreedMember(m: Memory, s: Shape, i: nat, n: nat, l: nat, k: nat, m': Memory, l': nat, j: nat)
    requires Releasable(m, s, i, n) && Gone(s, i, l, k) && |m'.pages| == |m.pages| && j < |m.pages|
    requires ReleasedDesc(m, s, i, n, l, m', j) && l' < |s.lists| && j in Freed(s, i, l, k).lists[l']
    ensures Member(m', Freed(s, i, l, k), l', j)
  {
    hide DescOk, Linked;
    FreedLists(m, s, i, n, l, k);
    assert RunFrom(s.owner, s.size, i);
    assert forall x :: x in s.lists[l'] ==> Member(m, s, l', x);
    assert forall x :: x in s.lists[0] ==> Member(m, s, 0, x);
    assert forall x :: x in s.lists[l] ==> Member(m, s, l, x);
  }

  lemma {:induction false} FreedDesc(m: Memory, s: Shape, i: nat, n: nat, l: nat, k: nat, m': Memory, j: nat)
    requires Releasable(m, s, i, n) && Gone(s, i, l, k) && |m'.pages| == |m.pages| && j < |m.pages|
    requires ReleasedDesc(m, s, i, n, l, m', j)
    ensures DescOk(m', Freed(s, i, l, k), j)
  {
    hide Linked;
    FreedLists(m, s, i, n, l, k);
    FreedFree(m, s, i, n, l, k, j);
    assert RunFrom(s.owner, s.size, i) && InRun(s.owner, s.size, j);
    assert forall x :: x in s.lists[0] ==> Member(m, s, 0, x);
    assert forall x :: x in s.lists[l] ==> Member(m, s, l, x);
    if j != i {
      assert DescOk(m, s, j);
      if !Free(s, j) && s.owner[j] == j && m.pages[j].kind != PageKind {
        FreedLink(m, s, i, n, l, k, m', j);
      }
    }
  }

  lemma {:induction false} FreedLink(m: Memory, s: Shape, i: nat, n: nat, l: nat, k: nat, m': Memory, j: nat)
    requires Releasable(m, s, i, n) && Gone(s, i, l, k) && |m'.pages| == |m.pages| && j < |m.pages|
    requires ReleasedDesc(m, s, i, n, l, m', j) && j != i && !(i < j < i + n) && j !in s.lists[0] && LinkOk(m, s, j)
    ensures LinkOk(m', Freed(s, i, l, k), j)
  {
    hide Linked, DescOk, Runs;
    FreedLists(m, s, i, n, l, k);
    if m.pages[j].next != Null {
      var l': nat :| 0 < l' < |s.lists| && OnList(s.lists, l', j);
      assert OnList(Freed(s, i, l, k).lists, l', j);
    } else {
      assert j !in s.lists[l];
    }
  }

  lemma {:induction false} FreedAround(m: Memory, s: Shape, i: nat, n: nat, l: nat, k: nat)
    requires Releasable(m, s, i, n) && Gone(s, i, l, k) && Coalesced(s)
    ensures OnlyAround(Freed(s, i, l, k), i)
  {
    hide Linked, DescOk, Free;
    FreedLists(m, s, i, n, l, k);
    var s' := Freed(s, i, l, k);
    forall a: nat, b: nat | Touch(s', a, b) && Free(s', a) && Free(s', b) ensures a == i || b == i {
      FreedFree(m, s, i, n, l, k, a);
      FreedFree(m, s, i, n, l, k, b);
      assert Touch(s, a, b);
      NextHead(s.owner, s.size, a);
      assert RunFrom(s.owner, s.size, i);
    }
  }

  /** The pages [i, i + n) became free, whatever they were, and no other page noticed. */
  ghost predicate Returned(m: Memory, s: Shape, i: nat, n: nat, m': Memory, s': Shape) {
    && |m'.pages| == |m.pages| == |s.owner| == |s.size| == |s'.owner| == |s'.size|
    && |s'.lists| == |s.lists|
    && (forall l, x: nat :: 0 < l < |s.lists| ==> (x in s'.lists[l] <==> x in s.lists[l] && x != i))
    && (forall j :: 0 <= j < |m.pages| ==> (Free(s', j) <==> Free(s, j) || i <= j < i + n))
    && (forall j :: 0 <= j < |m.pages| && !Free(s', j) ==>
          m'.pages[j].slab == m.pages[j].slab && m'.pages[j].kind == m.pages[j].kind
          && s'.owner[j] == s.owner[j] && s'.size[j] == s.size[j])
  }

  lemma {:induction false} FreedReturned(m: Memory, s: Shape, i: nat, n: nat, l: nat, k: nat, m1: Memory, m': Memory,
    s': Shape)
    requires Releasable(m, s, i, n) && Gone(s, i, l, k) && |m1.pages| == |m.pages|
    requires forall j :: 0 <= j < |m.pages| ==> ReleasedDesc(m, s, i, n, l, m1, j)
    requires SameFree(m1, Freed(s, i, l, k), m', s')
    ensures Returned(m, s, i, n, m', s')
  {
    hide Linked, DescOk;
    FreedLists(m, s, i, n, l, k);
    var s1 := Freed(s, i, l, k);
    forall j: nat | j < |m.pages| ensures Free(s', j) <==> Free(s, j) || i <= j < i + n {
      FreedFree(m, s, i, n, l, k, j);
    }
    assert forall x :: x in s.lists[l] ==> Member(m, s, l, x);
    forall j: nat | j < |m.pages| && !Free(s', j)
      ensures m'.pages[j].slab == m.pages[j].slab && m'.pages[j].kind == m.pages[j].kind
    {
      assert ReleasedDesc(m, s, i, n, l, m1, j);
    }
  }

  // ----- Releasing a run that is free already -----

  /** Page `i` heads a free run of `n` pages. */
  ghost predicate FreeRun(m: Memory, s: Shape, i: nat, n: nat) {
    Ok(m, s) && OnList(s.lists, 0, i) && i < |s.size| && n == s.size[i]
  }

  /** The `k`-th free run comes first. */
  ghost function Moved(s: Shape, k: nat): Shape
    requires 0 < |s.lists| && k < |s.lists[0]|
  {
    s.(lists := s.lists[0 := [s.lists[0][k]] + Without(s.lists[0], k)])
  }

  /** Only links of free runs changed. */
  ghost predicate FreeLinksOnly(m: Memory, s: Shape, m': Memory) {
    && |m'.pages| == |m.pages| && 0 < |s.lists|
    && forall j :: 0 <= j < |m.pages| ==>
      && m'.pages[j].slab == m.pages[j].slab && m'.pages[j].kind == m.pages[j].kind
      && (j !in s.lists[0] ==> m'.pages[j] == m.pages[j])
  }

  /** A free run that is freed again moves to the front of the free list. */
  ghost predicate Fronted(m: Memory, s: Shape, i: nat, m': Memory, s': Shape) {
    && FreeLinksOnly(m, s, m')
    && exists k: nat :: k < |s.lists[0]| && s.lists[0][k] == i && s' == Moved(s, k)
  }

  lemma {:induction false} FreeRunFacts(m: Memory, s: Shape, i: nat, n: nat) returns (k: nat)
    requires FreeRun(m, s, i, n)
    ensures k < |s.lists[0]| && s.lists[0][k] == i
    ensures i < |m.pages| && 0 < n && i + n <= |m.pages| && m.pages[i].slab == n && m.pages[i].kind == PageKind
    ensures forall j :: i < j < i + n ==> m.pages[j] == ZERO
  {
    var k' :| 0 <= k' < |s.lists[0]| && s.lists[0][k'] == i;
    k := k';
    assert Member(m, s, 0, i) && DescOk(m, s, i) && RunFrom(s.owner, s.size, i);
    forall j | i < j < i + n ensures m.pages[j] == ZERO {
      assert DescOk(m, s, j);
    }
  }

  lemma {:induction false} ClearedSame(m: Memory, i: nat, n: nat, m0: Memory)
    requires Cleared(m, i, n, m0) && forall j :: i < j < i + n && j < |m.pages| ==> m.pages[j] == ZERO
    ensures m0 == m
  {
  }

  lemma {:induction false} MoveMemory(m: Memory, s: Shape, k: nat, n: nat)
    requires Sound(m, s, -1) && k < |s.lists[0]| && s.lists[0][k] < |m.pages|
    requires m.pages[s.lists[0][k]].slab == n && m.pages[s.lists[0][k]].kind == PageKind
    ensures var i := s.lists[0][k];
      && m.pages[i].next != Null && Live(m, m.pages[i].prev) && Live(m, m.pages[i].next) && 0 < |m.first|
      && Live(Join(m, i), Join(m, i).first[0])
      && Linked(Release(m, i, n), Moved(s, k).lists) && FreeLinksOnly(m, s, Release(m, i, n))
  {
    hide DescOk, Linked, Join, Runs, Push;
    var i, lists := s.lists[0][k], s.lists[0 := Without(s.lists[0], k)];
    MemberNext(m, s.lists, 0, i);
    FirstLive(m, s.lists);
    JoinLinked(m, s.lists, 0, k);
    JoinFrame(m, s.lists, 0, k);
    ApartOf(m, s.lists);
    WithoutIn(s.lists, 0, k);
    var m1 := Join(m, i);
    FirstLive(m1, lists);
    WriteSlab(m1, lists, i, n);
    var m2 := m1.(pages := m1.pages[i := m1.pages[i].(slab := n)]);
    PushLinked(m2, lists, 0, i, PageKind);
    PushFrame(m2, lists, 0, i, PageKind);
    assert lists[0 := [i] + lists[0]] == Moved(s, k).lists;
    assert forall x :: x in s.lists[0] ==> Member(m, s, 0, x);
  }

  lemma {:induction false} MovedMembers(m: Memory, s: Shape, k: nat)
    requires Linked(m, s.lists) && 0 < |s.lists| && k < |s.lists[0]|
    ensures var s' := Moved(s, k);
      && |s'.lists| == |s.lists| && s'.owner == s.owner && s'.size == s.size
      && (forall l: nat, x: nat :: l < |s.lists| ==> (x in s'.lists[l] <==> x in s.lists[l]))
      && (forall j: nat :: Free(s', j) <==> Free(s, j))
  {
    ApartOf(m, s.lists);
    WithoutIn(s.lists, 0, k);
    var s' := Moved(s, k);
    forall x: nat ensures x in s'.lists[0] <==> x in s.lists[0] { }
  }

  lemma {:induction false} MovedSound(m: Memory, s: Shape, k: nat, m': Memory)
    requires Ok(m, s) && k < |s.lists[0]| && Linked(m', Moved(s, k).lists) && FreeLinksOnly(m, s, m')
    ensures Ok(m', Moved(s, k))
  {
    hide Linked, InRun, RunFrom;
    MovedMembers(m, s, k);
    var s' := Moved(s, k);
    forall j: nat | j < |m'.pages| ensures DescOk(m', s', j) {
      assert DescOk(m, s, j);
      assert j in s.lists[0] ==> Member(m, s, 0, j);
      MovedLink(m, s, k, m', j);
    }
    forall l: nat, j: nat | l < |s'.lists| && j in s'.lists[l] ensures Member(m', s', l, j) {
      assert Member(m, s, l, j);
    }
    forall a: nat, b: nat | Touch(s', a, b) ensures !(Free(s', a) && Free(s', b)) {
      assert Touch(s, a, b);
    }
  }

  lemma {:induction false} MovedLink(m: Memory, s: Shape, k: nat, m': Memory, j: nat)
    requires Linked(m, s.lists) && 0 < |s.lists| && k < |s.lists[0]| && j < |m.pages| == |m'.pages|
    ensures m'.pages[j] == m.pages[j] && LinkOk(m, s, j) ==> LinkOk(m', Moved(s, k), j)
  {
    hide Linked;
    MovedMembers(m, s, k);
    if LinkOk(m, s, j) && m.pages[j].next != Null {
      var l: nat :| 0 < l < |s.lists| && OnList(s.lists, l, j);
      assert OnList(Moved(s, k).lists, l, j);
    }
  }

  lemma {:induction false} AloneAround(s: Shape, x: nat)
    requires Coalesced(s)
    ensures OnlyAround(s, x)
  {
  }

  /** No free run ends where another begins. */
  lemma {:induction false} NoLeftRun(m: Memory, s: Shape, i: nat)
    requires Ok(m, s) && IsHead(s.owner, i) && Free(s, i)
    ensures i == 0 || !Free(s, i - 1)
  {
    if i > 0 {
      var a := s.owner[i - 1];
      assert InRun(s.owner, s.size, i - 1) && RunFrom(s.owner, s.size, a);
      assert a + s.size[a] == i ==> Touch(s, a, i);
    }
  }

  lemma {:induction false} EitherRun(m: Memory, s: Shape, i: nat, n: nat)
    requires (Releasable(m, s, i, n) && Coalesced(s)) || FreeRun(m, s, i, n)
    ensures 0 < n && i + n <= |m.pages| && !(Releasable(m, s, i, n) && FreeRun(m, s, i, n))
  {
    hide DescOk, Linked, Coalesced;
    if FreeRun(m, s, i, n) {
      assert Member(m, s, 0, i);
    }
    assert IsHead(s.owner, i) && RunFrom(s.owner, s.size, i);
  }

  lemma {:induction false} ClearedNow(m: Memory, i: nat, n: nat, m0: Memory)
    requires |m0.pages| == |m.pages| && m0.first == m.first
    requires forall j :: 0 <= j < |m.pages| ==> m0.pages[j] == if i + 1 <= j < i + n then ZERO else m.pages[j]
    ensures Cleared(m, i, n, m0)
  {
  }

  /** The pool after the release and before the merges. */
  ghost predicate ReleasedTo(m: Memory, s: Shape, i: nat, n: nat, l: nat, k: nat, m1: Memory, s1: Shape) {
    && Sound(m1, s1, -1) && 0 < |s1.lists| && 0 < |s1.lists[0]| && s1.lists[0][0] == i < |m1.pages| == |m.pages|
    && OnlyAround(s1, i)
    && (Releasable(m, s, i, n) ==>
          && Gone(s, i, l, k) && s1 == Freed(s, i, l, k)
          && forall j :: 0 <= j < |m.pages| ==> ReleasedDesc(m, s, i, n, l, m1, j))
    && (FreeRun(m, s, i, n) ==>
          && 0 < |s.lists| && k < |s.lists[0]| && s.lists[0][k] == i && s1 == Moved(s, k) && FreeLinksOnly(m, s, m1)
          && Coalesced(s1) && (i == 0 || !Free(s1, i - 1)))
  }

  lemma {:induction false} ReleasedRun(m: Memory, s: Shape, i: nat, n: nat, m0: Memory)
    returns (l: nat, k: nat, s1: Shape)
    requires (Releasable(m, s, i, n) && Coalesced(s)) || FreeRun(m, s, i, n)
    requires Cleared(m, i, n, m0) && i < |m0.pages|
    ensures m0.pages[i].next != Null ==> Live(m0, m0.pages[i].prev) && Live(m0, m0.pages[i].next)
    ensures 0 < |m0.first| && (m0.pages[i].next == Null ==> Live(m0, m0.first[0]))
    ensures m0.pages[i].next != Null ==> Live(Join(m0, i), Join(m0, i).first[0])
    ensures ReleasedTo(m, s, i, n, l, k, Release(m0, i, n), s1)
  {
    hide DescOk, Linked, Runs, Coalesced, Releasable, Release, OnlyAround, ReleasedDesc, FreeLinksOnly, Sound, Join,
      Cleared,
      FreeRun;
    EitherRun(m, s, i, n);
    if FreeRun(m, s, i, n) {
      k, s1 := MovedRun(m, s, i, n, m0);
      l := 0;
    } else {
      l, k := ReleaseWhere(m, s, i, n);
      ReleaseMemory(m, s, i, n, l, k, m0);
      s1 := Freed(s, i, l, k);
      FreedSound(m, s, i, n, l, k, Release(m0, i, n));
      FreedAround(m, s, i, n, l, k);
    }
  }

  lemma {:induction false} MovedRun(m: Memory, s: Shape, i: nat, n: nat, m0: Memory) returns (k: nat, s1: Shape)
    requires FreeRun(m, s, i, n) && Cleared(m, i, n, m0)
    ensures i < |m.pages| && m0 == m && m.pages[i].next != Null && Live(m, m.pages[i].prev) && Live(m, m.pages[i].next)
    ensures 0 < |m.first| && Live(Join(m, i), Join(m, i).first[0])
    ensures 0 < |s.lists| && k < |s.lists[0]| && s.lists[0][k] == i && s1 == Moved(s, k)
    ensures Sound(Release(m, i, n), s1, -1) && Coalesced(s1) && OnlyAround(s1, i)
    ensures FreeLinksOnly(m, s, Release(m, i, n))
    ensures (i == 0 || !Free(s1, i - 1)) && |Release(m, i, n).pages| == |m.pages|
  {
    hide DescOk, Linked, Runs, Coalesced, Release, OnlyAround, Join, Cleared;
    k := FreeRunFacts(m, s, i, n);
    ClearedSame(m, i, n, m0);
    MoveMemory(m, s, k, n);
    s1 := Moved(s, k);
    MovedSound(m, s, k, Release(m, i, n));
    MovedMembers(m, s, k);
    AloneAround(s1, i);
    assert Member(m, s, 0, i);
    NoLeftRun(m, s, i);
  }

  lemma {:induction false} FrontedRun(m: Memory, s: Shape, i: nat, k: nat, m1: Memory)
    requires 0 < |s.lists| && k < |s.lists[0]| && s.lists[0][k] == i && FreeLinksOnly(m, s, m1)
    ensures Fronted(m, s, i, m1, Moved(s, k))
  {
  }

  /** ncx_slab_free_pages: an allocated run becomes free, and one that is free already only changes its place on the
      list. */
  method FreePages(m: Memory, i: nat, n: nat, ghost s: Shape) returns (m': Memory, ghost s': Shape)
    requires (Releasable(m, s, i, n) && Coalesced(s)) || FreeRun(m, s, i, n)
    ensures Ok(m', s')
    ensures Releasable(m, s, i, n) ==> Returned(m, s, i, n, m', s')
    ensures FreeRun(m, s, i, n) ==> Fronted(m, s, i, m', s')
  {
    hide DescOk, Linked, Runs, Coalesced, Releasable, Release, OnlyAround, OnlyRightOf, SameFree, ReleasedDesc,
      Returned, Ok,
      Fronted, FreeRun, FreeLinksOnly, Moved, Freed, Cleared;
    EitherRun(m, s, i, n);
    var m0 := ZeroPages(m, i + 1, i + n);
    ClearedNow(m, i, n, m0);
    ghost var l, k, s1 := ReleasedRun(m, s, i, n, m0);
    var m1 := Release(m0, i, n);
    var m2, y, s2 := MergeLeft(m1, i, s1);
    ListedPage(m2, s2, y);
    var m3, s3 := MergeRight(m2, y, s2);
    if FreeRun(m, s, i, n) {
      FrontedRun(m, s, i, k, m1);
    } else {
      SameFreeTrans(m1, s1, m2, s2, m3, s3);
      FreedReturned(m, s, i, n, l, k, m1, m3, s3);
    }
    m', s' := m3, s3;
  }

  lemma {:induction false} ListedPage(m: Memory, s: Shape, y: nat)
    requires Sound(m, s, -1) && OnList(s.lists, 0, y)
    ensures y < |m.pages|
  {
    assert Member(m, s, 0, y);
  }

  lemma {:induction false} SameFreeTrans(m: Memory, s: Shape, m1: Memory, s1: Shape, m2: Memory, s2: Shape)
    requires SameFree(m, s, m1, s1) && SameFree(m1, s1, m2, s2)
    ensures SameFree(m, s, m2, s2)
  {
  }
}
