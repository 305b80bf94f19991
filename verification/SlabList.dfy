/** The page descriptors of the slab allocator and the circular doubly linked lists threaded through them. */
module SlabList {
  import opened Lists

  /** A descriptor pointer: null, a list header (0 is the free list, the others are the size slots), or a page. */
  datatype Ptr = Null | Head(list: nat) | Page(i: nat)

  /** The two low bits of `prev`. */
  datatype Kind = PageKind | Big | Exact | Small

  datatype Desc = Desc(slab: nat, next: Ptr, prev: Ptr, kind: Kind)

  /** `first[l]` is the next field of header `l`; its prev field is written by the code and never read. */
  datatype Memory = Memory(pages: seq<Desc>, first: seq<Ptr>)

  const ZERO: Desc := Desc(0, Null, Null, PageKind)

  // ----- Reading and writing through a pointer -----

  predicate Live(m: Memory, p: Ptr) {
    match p
    case Null => false
    case Head(l) => l < |m.first|
    case Page(i) => i < |m.pages|
  }

  function SetNext(m: Memory, p: Ptr, next: Ptr): (r: Memory)
    requires Live(m, p)
    ensures |r.pages| == |m.pages| && |r.first| == |m.first|
  {
    match p
    case Head(l) => m.(first := m.first[l := next])
    case Page(i) => m.(pages := m.pages[i := m.pages[i].(next := next)])
  }

  function SetPrev(m: Memory, p: Ptr, prev: Ptr, kind: Kind): (r: Memory)
    requires Live(m, p)
    ensures |r.pages| == |m.pages| && r.first == m.first
  {
    match p
    case Head(_) => m
    case Page(i) => m.(pages := m.pages[i := m.pages[i].(prev := prev, kind := kind)])
  }

  // ----- The lists -----

  /** The `k`-th element of list `l`, the header before the first and after the last. */
  function At(lists: Lists, l: nat, k: int): Ptr
    requires l < |lists|
  {
    if 0 <= k < |lists[l]| then Page(lists[l][k]) else Head(l)
  }

  ghost predicate Linked(m: Memory, lists: Lists) {
    && |m.first| == |lists|
    && (forall l :: 0 <= l < |lists| ==> m.first[l] == At(lists, l, 0))
    && (forall l, k :: 0 <= l < |lists| && 0 <= k < |lists[l]| ==> LinkedAt(m, lists, l, k))
    && Apart(lists)
  }

  predicate LinkedAt(m: Memory, lists: Lists, l: nat, k: nat)
    requires l < |lists| && k < |lists[l]|
  {
    && lists[l][k] < |m.pages|
    && m.pages[lists[l][k]].next == At(lists, l, k + 1)
    && m.pages[lists[l][k]].prev == At(lists, l, k - 1)
  }

  function Replace(s: seq<nat>, k: nat, j: nat): seq<nat>
    requires k < |s|
  {
    s[k := j]
  }

  // ----- Unlinking -----

  /** The neighbours of the `k`-th page are joined; its own links stay. */
  function Join(m: Memory, i: nat): Memory
    requires i < |m.pages| && Live(m, m.pages[i].prev) && Live(m, m.pages[i].next)
  {
    SetPrev(SetNext(m, m.pages[i].prev, m.pages[i].next), m.pages[i].next, m.pages[i].prev, m.pages[i].kind)
  }

  lemma {:induction false} AtLive(m: Memory, lists: Lists, l: nat, k: int)
    requires Linked(m, lists) && l < |lists|
    ensures Live(m, At(lists, l, k))
  {
    if 0 <= k < |lists[l]| { assert LinkedAt(m, lists, l, k); }
  }

  lemma {:induction false} JoinLinked(m: Memory, lists: Lists, l: nat, k: nat)
    requires Linked(m, lists) && l < |lists| && k < |lists[l]|
    ensures var i := lists[l][k];
      i < |m.pages| && Live(m, m.pages[i].prev) && Live(m, m.pages[i].next)
      && Linked(Join(m, i), lists[l := Without(lists[l], k)])
  {
    hide Apart;
    var i := lists[l][k];
    assert LinkedAt(m, lists, l, k);
    AtLive(m, lists, l, k - 1);
    AtLive(m, lists, l, k + 1);
    var lists' := lists[l := Without(lists[l], k)];
    var m' := Join(m, i);
    forall l2, k2 | 0 <= l2 < |lists'| && 0 <= k2 < |lists'[l2]| ensures LinkedAt(m', lists', l2, k2) {
      JoinAt(m, lists, l, k, l2, k2);
    }
    WithoutApart(lists, l, k);
  }

  lemma {:induction false} JoinAt(m: Memory, lists: Lists, l: nat, k: nat, l2: nat, k2: nat)
    requires Linked(m, lists) && l < |lists| && k < |lists[l]| && l2 < |lists|
    requires k2 < |lists[l := Without(lists[l], k)][l2]|
    requires lists[l][k] < |m.pages| && Live(m, m.pages[lists[l][k]].prev) && Live(m, m.pages[lists[l][k]].next)
    ensures LinkedAt(Join(m, lists[l][k]), lists[l := Without(lists[l], k)], l2, k2)
  {
    assert LinkedAt(m, lists, l, k);
    var k3 := if l2 == l && k2 >= k then k2 + 1 else k2;
    assert LinkedAt(m, lists, l2, k3);
  }

  /** Every page keeps its slab word; pages off list `l` keep everything; all of the list has kind `kind`. */
  ghost predicate LinksOnly(m: Memory, m': Memory, lists: Lists, l: nat, kind: Kind)
    requires l < |lists|
  {
    && |m'.pages| == |m.pages|
    && forall j :: 0 <= j < |m.pages| ==>
      && m'.pages[j].slab == m.pages[j].slab
      && (j !in lists[l] ==> m'.pages[j] == m.pages[j])
      && (m.pages[j].kind == kind ==> m'.pages[j].kind == kind)
  }

  lemma {:induction false} JoinFrame(m: Memory, lists: Lists, l: nat, k: nat)
    requires Linked(m, lists) && l < |lists| && k < |lists[l]|
    ensures var i := lists[l][k];
      i < |m.pages| && Live(m, m.pages[i].prev) && Live(m, m.pages[i].next)
      && LinksOnly(m, Join(m, i), lists, l, m.pages[i].kind) && Join(m, i).pages[i] == m.pages[i]
  {
    assert LinkedAt(m, lists, l, k);
    AtLive(m, lists, l, k - 1);
    AtLive(m, lists, l, k + 1);
  }

  // ----- Putting a page at the front -----

  function Push(m: Memory, l: nat, i: nat, kind: Kind): (r: Memory)
    requires i < |m.pages| && l < |m.first| && Live(m, m.first[l])
  {
    var m1 := m.(pages := m.pages[i := m.pages[i].(next := m.first[l], prev := Head(l), kind := kind)]);
    SetNext(SetPrev(m1, m.first[l], Page(i), kind), Head(l), Page(i))
  }

  lemma {:induction false} PushLinked(m: Memory, lists: Lists, l: nat, i: nat, kind: Kind)
    requires Linked(m, lists) && l < |lists| && i < |m.pages| && Loose(lists, i)
    ensures Live(m, m.first[l]) && Linked(Push(m, l, i, kind), lists[l := [i] + lists[l]])
  {
    AtLive(m, lists, l, 0);
    var lists' := lists[l := [i] + lists[l]];
    var m' := Push(m, l, i, kind);
    forall l2, k2 | 0 <= l2 < |lists'| && 0 <= k2 < |lists'[l2]| ensures LinkedAt(m', lists', l2, k2) {
      if l2 != l {
        assert LinkedAt(m, lists, l2, k2);
      } else if k2 > 0 {
        assert LinkedAt(m, lists, l, k2 - 1);
      }
    }
  }

  lemma {:induction false} PushFrame(m: Memory, lists: Lists, l: nat, i: nat, kind: Kind)
    requires Linked(m, lists) && l < |lists| && i < |m.pages| && Loose(lists, i)
    ensures Live(m, m.first[l]) && LinksOnly(m, Push(m, l, i, kind), lists[l := [i] + lists[l]], l, kind)
    ensures Push(m, l, i, kind).pages[i] == m.pages[i].(next := m.first[l], prev := Head(l), kind := kind)
  {
    AtLive(m, lists, l, 0);
  }

  // ----- Putting another page in the place of one -----

  /** Page `j` takes the place of page `i`, with slab word `slab`. */
  function Swap(m: Memory, i: nat, j: nat, slab: nat): (r: Memory)
    requires i < |m.pages| && j < |m.pages| && Live(m, m.pages[i].prev) && Live(m, m.pages[i].next)
  {
    var d := m.pages[i];
    var m1 := m.(pages := m.pages[j := d.(slab := slab)]);
    SetPrev(SetNext(m1, d.prev, Page(j)), d.next, Page(j), d.kind)
  }

  lemma {:induction false} SwapLinked(m: Memory, lists: Lists, l: nat, k: nat, j: nat, slab: nat)
    requires Linked(m, lists) && l < |lists| && k < |lists[l]| && j < |m.pages| && Loose(lists, j)
    ensures var i := lists[l][k];
      i < |m.pages| && Live(m, m.pages[i].prev) && Live(m, m.pages[i].next)
      && Linked(Swap(m, i, j, slab), lists[l := Replace(lists[l], k, j)])
  {
    assert LinkedAt(m, lists, l, k);
    AtLive(m, lists, l, k - 1);
    AtLive(m, lists, l, k + 1);
    var lists' := lists[l := Replace(lists[l], k, j)];
    var m' := Swap(m, lists[l][k], j, slab);
    forall l2, k2 | 0 <= l2 < |lists'| && 0 <= k2 < |lists'[l2]| ensures LinkedAt(m', lists', l2, k2) {
      assert LinkedAt(m, lists, l2, k2);
    }
  }

  lemma {:induction false} SwapFrame(m: Memory, lists: Lists, l: nat, k: nat, j: nat, slab: nat)
    requires Linked(m, lists) && l < |lists| && k < |lists[l]| && j < |m.pages| && Loose(lists, j)
    ensures var i := lists[l][k];
      i < |m.pages| && Live(m, m.pages[i].prev) && Live(m, m.pages[i].next)
      && var m' := Swap(m, i, j, slab);
      && LinksOnly(m.(pages := m.pages[j := m'.pages[j]]), m', lists, l, m.pages[i].kind)
      && m'.pages[j].slab == slab && m'.pages[j].kind == m.pages[i].kind && m'.pages[i] == m.pages[i]
  {
    assert LinkedAt(m, lists, l, k);
    AtLive(m, lists, l, k - 1);
    AtLive(m, lists, l, k + 1);
  }

  /** Writing a page that is on no list. */
  lemma {:induction false} WriteLoose(m: Memory, lists: Lists, i: nat, d: Desc)
    requires Linked(m, lists) && i < |m.pages| && Loose(lists, i)
    ensures Linked(m.(pages := m.pages[i := d]), lists)
  {
    var m' := m.(pages := m.pages[i := d]);
    forall l, k | 0 <= l < |lists| && 0 <= k < |lists[l]| ensures LinkedAt(m', lists, l, k) {
      assert LinkedAt(m, lists, l, k);
    }
  }

  /** Changing a slab word. */
  lemma {:induction false} WriteSlab(m: Memory, lists: Lists, i: nat, slab: nat)
    requires Linked(m, lists) && i < |m.pages|
    ensures Linked(m.(pages := m.pages[i := m.pages[i].(slab := slab)]), lists)
  {
    var m' := m.(pages := m.pages[i := m.pages[i].(slab := slab)]);
    forall l, k | 0 <= l < |lists| && 0 <= k < |lists[l]| ensures LinkedAt(m', lists, l, k) {
      assert LinkedAt(m, lists, l, k);
    }
  }

  lemma {:induction false} ReplaceIn(lists: Lists, l: nat, k: nat, y: nat)
    requires Apart(lists) && l < |lists| && k < |lists[l]|
    ensures forall x: nat :: x in Replace(lists[l], k, y) <==> (x in lists[l] && x != lists[l][k]) || x == y
  {
    var s, s' := lists[l], Replace(lists[l], k, y);
    assert s'[k] == y;
    forall x: nat | x in s && x != s[k] ensures x in s' {
      var j :| 0 <= j < |s| && s[j] == x;
      assert s'[j] == x;
    }
  }
}
