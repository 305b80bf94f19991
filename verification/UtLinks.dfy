/** Null-terminated doubly linked lists threaded through uthash handles. */
module UtLinks {
  import opened Lists

  datatype Ptr = Null | To(i: nat)
  datatype Link = Link(next: Ptr, prev: Ptr)

  /** The link fields of every handle. */
  type Links = map<nat, Link>

  /** The `k`-th handle of list `l`, null past either end. */
  function At(lists: Lists, l: nat, k: int): Ptr
    requires l < |lists|
  {
    if 0 <= k < |lists[l]| then To(lists[l][k]) else Null
  }

  predicate LinkedAt(m: Links, lists: Lists, l: nat, k: nat)
    requires l < |lists| && k < |lists[l]|
  {
    lists[l][k] in m && m[lists[l][k]] == Link(At(lists, l, k + 1), At(lists, l, k - 1))
  }

  ghost predicate Linked(m: Links, lists: Lists) {
    && (forall l, k :: 0 <= l < |lists| && 0 <= k < |lists[l]| ==> LinkedAt(m, lists, l, k))
    && Apart(lists)
  }

  function SetNext(m: Links, x: nat, next: Ptr): Links
    requires x in m
  {
    m[x := m[x].(next := next)]
  }

  function SetPrev(m: Links, x: nat, prev: Ptr): Links
    requires x in m
  {
    m[x := m[x].(prev := prev)]
  }

  // ----- Putting a handle in front -----

  function Push(m: Links, first: Ptr, x: nat): Links
    requires first.To? ==> first.i in m
  {
    var m1 := m[x := Link(first, Null)];
    if first.To? then SetPrev(m1, first.i, To(x)) else m1
  }

  lemma {:induction false} HeadIn(m: Links, lists: Lists, l: nat, k: int)
    requires Linked(m, lists) && l < |lists|
    ensures At(lists, l, k).To? ==> At(lists, l, k).i in m
  {
    if 0 <= k < |lists[l]| { assert LinkedAt(m, lists, l, k); }
  }

  lemma {:induction false} PushLinked(m: Links, lists: Lists, l: nat, x: nat)
    requires Linked(m, lists) && l < |lists| && Loose(lists, x)
    ensures At(lists, l, 0).To? ==> At(lists, l, 0).i in m
    ensures Linked(Push(m, At(lists, l, 0), x), lists[l := [x] + lists[l]])
  {
    HeadIn(m, lists, l, 0);
    var lists' := lists[l := [x] + lists[l]];
    var m' := Push(m, At(lists, l, 0), x);
    forall l2, k2 | 0 <= l2 < |lists'| && 0 <= k2 < |lists'[l2]| ensures LinkedAt(m', lists', l2, k2) {
      if l2 != l {
        assert LinkedAt(m, lists, l2, k2);
      } else if k2 > 0 {
        assert LinkedAt(m, lists, l, k2 - 1);
      }
    }
  }

  // ----- Putting a handle at the end -----

  function Append(m: Links, last: Ptr, x: nat): Links
    requires last.To? ==> last.i in m
  {
    var m1 := m[x := Link(Null, last)];
    if last.To? then SetNext(m1, last.i, To(x)) else m1
  }

  lemma {:induction false} AppendLinked(m: Links, lists: Lists, l: nat, x: nat)
    requires Linked(m, lists) && l < |lists| && Loose(lists, x)
    ensures var last := At(lists, l, |lists[l]| - 1);
      (last.To? ==> last.i in m) && Linked(Append(m, last, x), lists[l := lists[l] + [x]])
  {
    HeadIn(m, lists, l, |lists[l]| - 1);
    var lists' := lists[l := lists[l] + [x]];
    var m' := Append(m, At(lists, l, |lists[l]| - 1), x);
    forall l2, k2 | 0 <= l2 < |lists'| && 0 <= k2 < |lists'[l2]| ensures LinkedAt(m', lists', l2, k2) {
      if k2 < |lists[l2]| { assert LinkedAt(m, lists, l2, k2); }
    }
  }

  // ----- Taking a handle out -----

  function Unlink(m: Links, x: nat): Links
    requires x in m && (m[x].prev.To? ==> m[x].prev.i in m) && (m[x].next.To? ==> m[x].next.i in m)
  {
    var d := m[x];
    var m1 := if d.prev.To? then SetNext(m, d.prev.i, d.next) else m;
    if d.next.To? then SetPrev(m1, d.next.i, d.prev) else m1
  }

  lemma {:induction false} UnlinkAt(m: Links, lists: Lists, l: nat, k: nat, l2: nat, k2: nat)
    requires Linked(m, lists) && l < |lists| && k < |lists[l]| && l2 < |lists|
    requires k2 < |lists[l := Without(lists[l], k)][l2]|
    requires lists[l][k] in m && m[lists[l][k]] == Link(At(lists, l, k + 1), At(lists, l, k - 1))
    requires (At(lists, l, k - 1).To? ==> At(lists, l, k - 1).i in m)
    requires (At(lists, l, k + 1).To? ==> At(lists, l, k + 1).i in m)
    ensures LinkedAt(Unlink(m, lists[l][k]), lists[l := Without(lists[l], k)], l2, k2)
  {
    var k3 := if l2 == l && k2 >= k then k2 + 1 else k2;
    assert LinkedAt(m, lists, l2, k3);
  }

  lemma {:induction false} UnlinkLinked(m: Links, lists: Lists, l: nat, k: nat)
    requires Linked(m, lists) && l < |lists| && k < |lists[l]|
    ensures var x := lists[l][k];
      && x in m && (m[x].prev.To? ==> m[x].prev.i in m) && (m[x].next.To? ==> m[x].next.i in m)
      && Linked(Unlink(m, x), lists[l := Without(lists[l], k)])
  {
    hide Apart;
    assert LinkedAt(m, lists, l, k);
    HeadIn(m, lists, l, k - 1);
    HeadIn(m, lists, l, k + 1);
    var lists' := lists[l := Without(lists[l], k)];
    forall l2, k2 | 0 <= l2 < |lists'| && 0 <= k2 < |lists'[l2]|
      ensures LinkedAt(Unlink(m, lists[l][k]), lists', l2, k2)
    {
      UnlinkAt(m, lists, l, k, l2, k2);
    }
    WithoutApart(lists, l, k);
  }

  /** All handles on the lists, counted. */
  function Total(lists: Lists): nat {
    if lists == [] then 0 else |lists[0]| + Total(lists[1..])
  }

  lemma {:induction false} TotalSet(lists: Lists, l: nat, s: seq<nat>)
    requires l < |lists|
    ensures Total(lists[l := s]) == Total(lists) - |lists[l]| + |s|
  {
    if l > 0 {
      TotalSet(lists[1..], l - 1, s);
      assert lists[l := s][1..] == lists[1..][l - 1 := s];
    } else {
      assert lists[l := s][1..] == lists[1..];
    }
  }

  lemma {:induction false} TotalEmpty(n: nat)
    ensures Total(seq<seq<nat>>(n, _ => [])) == 0
  {
    if n > 0 {
      TotalEmpty(n - 1);
      assert seq<seq<nat>>(n, _ => [])[1..] == seq<seq<nat>>(n - 1, _ => []);
    }
  }
}
