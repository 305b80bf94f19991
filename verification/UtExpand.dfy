/** HASH_EXPAND_BUCKETS: every element moves to its place among twice as many buckets. */
module UtExpand {
  import opened Lists
  import opened Triangular
  import opened RoundUp
  import opened Words
  import opened UtLinks
  import opened UtTable

  predicate NextAt(m: Links, lists: Lists, l: nat, k: nat)
    requires l < |lists| && k < |lists[l]|
  {
    lists[l][k] in m && m[lists[l][k]].next == At(lists, l, k + 1)
  }

  /** Chains still to be moved: only their next fields matter. */
  ghost predicate NextLinked(m: Links, lists: Lists) {
    && (forall l, k :: 0 <= l < |lists| && 0 <= k < |lists[l]| ==> NextAt(m, lists, l, k))
    && Apart(lists)
  }

  /** The elements are divided between the new chains, each in its place, and what is left of the old ones. */
  ghost predicate Moving(hh: Links, hashv: map<nat, nat>, order: seq<nat>, moved: Lists, left: Lists) {
    && |moved| > 0 && Linked(hh, moved) && NextLinked(hh, left)
    && (forall b: nat, x: nat :: OnList(moved, b, x) ==> x in order && Loose(left, x))
    && (forall b: nat, x: nat :: OnList(left, b, x) ==> x in order)
    && (forall x: nat :: x in order ==> x in hashv && (Sits(hashv, moved, x) || !Loose(left, x)))
  }

  lemma {:induction false} StartMoving(hh: Links, hashv: map<nat, nat>, order: seq<nat>, chains: Lists, n: nat)
    requires Linked(hh, chains) && Hashed(hashv, order, chains) && n > 0
    ensures Moving(hh, hashv, order, seq(n, _ => []), chains)
  {
    hide Home;
    forall l, k | 0 <= l < |chains| && 0 <= k < |chains[l]| ensures NextAt(hh, chains, l, k) {
      assert LinkedAt(hh, chains, l, k);
    }
    forall x: nat | x in order ensures !Loose(chains, x) {
      assert Sits(hashv, chains, x);
    }
  }

  /** The front of chain `i` is taken off. */
  lemma {:induction false} FrontOff(left: Lists, i: nat)
    requires Apart(left) && i < |left| && left[i] != []
    ensures Apart(left[i := left[i][1..]]) && Loose(left[i := left[i][1..]], left[i][0])
    ensures forall y: nat :: y != left[i][0] ==> (Loose(left[i := left[i][1..]], y) <==> Loose(left, y))
  {
    assert Without(left[i], 0) == left[i][1..];
    WithoutApart(left, i, 0);
    WithoutIn(left, i, 0);
    var left' := left[i := left[i][1..]];
    forall y: nat | y != left[i][0] ensures Loose(left', y) <==> Loose(left, y) {
      if Loose(left', y) {
        forall l | 0 <= l < |left| ensures y !in left[l] {
          assert y !in left'[l];
          assert l == i ==> (y in Without(left[i], 0) <==> y in left[i]);
        }
      }
    }
  }

  lemma {:induction false} MoveLinks(hh: Links, hashv: map<nat, nat>, order: seq<nat>, moved: Lists, left: Lists,
    i: nat, b: nat)
    requires Moving(hh, hashv, order, moved, left) && i < |left| && left[i] != [] && b < |moved|
    ensures Loose(moved, left[i][0])
    ensures At(moved, b, 0).To? ==> At(moved, b, 0).i in hh
    ensures var x := left[i][0]; var hh' := Push(hh, At(moved, b, 0), x);
      Linked(hh', moved[b := [x] + moved[b]]) && NextLinked(hh', left[i := left[i][1..]])
  {
    hide Sits;
    var x := left[i][0];
    assert OnList(left, i, x);
    forall l: nat | l < |moved| ensures x !in moved[l] {
      assert OnList(moved, l, x) ==> Loose(left, x);
    }
    PushLinked(hh, moved, b, x);
    FrontOff(left, i);
    var left' := left[i := left[i][1..]];
    var hh' := Push(hh, At(moved, b, 0), x);
    forall l: nat, k: nat | l < |left'| && k < |left'[l]| ensures NextAt(hh', left', l, k) {
      var k3 := if l == i then k + 1 else k;
      assert NextAt(hh, left, l, k3);
      var y := left'[l][k];
      assert y in left'[l];
      assert OnList(left, l, y);
      if moved[b] != [] {
        assert OnList(moved, b, moved[b][0]);
      }
    }
  }

  lemma {:induction false} Move(hh: Links, hashv: map<nat, nat>, order: seq<nat>, moved: Lists, left: Lists, i: nat)
    requires Moving(hh, hashv, order, moved, left) && i < |left| && left[i] != []
    ensures left[i][0] in hashv
    ensures var x := left[i][0]; var b := Home(hashv[x], |moved|);
      && (At(moved, b, 0).To? ==> At(moved, b, 0).i in hh)
      && Moving(Push(hh, At(moved, b, 0), x), hashv, order, moved[b := [x] + moved[b]], left[i := left[i][1..]])
  {
    hide Home, Linked, NextLinked;
    var x := left[i][0];
    assert OnList(left, i, x);
    var b := Home(hashv[x], |moved|);
    MoveLinks(hh, hashv, order, moved, left, i, b);
    ApartLeft(hh, left);
    FrontOff(left, i);
    var moved', left' := moved[b := [x] + moved[b]], left[i := left[i][1..]];
    forall c: nat, y: nat | OnList(moved', c, y) ensures y in order && Loose(left', y) {
      assert y != x ==> OnList(moved, c, y);
    }
    forall c: nat, y: nat | OnList(left', c, y) ensures y in order {
      assert OnList(left, c, y);
    }
    forall y: nat | y in order ensures y in hashv && (Sits(hashv, moved', y) || !Loose(left', y)) {
      if y != x && Sits(hashv, moved, y) {
        assert Sits(hashv, moved', y);
      }
    }
  }

  lemma {:induction false} ApartLeft(hh: Links, left: Lists)
    requires NextLinked(hh, left)
    ensures Apart(left)
  {
  }

  lemma {:induction false} DoneMoving(hh: Links, hashv: map<nat, nat>, order: seq<nat>, moved: Lists, left: Lists)
    requires Moving(hh, hashv, order, moved, left) && forall l :: 0 <= l < |left| ==> left[l] == []
    ensures Hashed(hashv, order, moved) && Linked(hh, moved)
  {
    hide Linked, NextLinked, Home;
    forall x: nat | x in order ensures Sits(hashv, moved, x) {
      assert Loose(left, x);
    }
  }

  // ----- The ideal chain length -----

  /** (items >> lg) + (items & (2^lg - 1) ? 1 : 0) */
  function Ideal(items: nat, lg: nat): nat {
    Shr(items, lg) + if And(items, Pow2(lg) - 1) != 0 then 1 else 0
  }

  /** The least length at which 2^lg chains hold the items. */
  lemma {:induction false} IdealIsCeiling(items: nat, lg: nat)
    ensures items <= Ideal(items, lg) * Pow2(lg) < items + Pow2(lg)
    ensures items > 0 ==> Ideal(items, lg) > 0
  {
    hide Shr, And, Pow2;
    ShiftAndMask(items, lg);
    OneMore(Shr(items, lg), Pow2(lg));
  }

  lemma {:induction false} OneMore(q: nat, n: nat)
    ensures (q + 1) * n == q * n + n
  {
  }

  // ----- The loop -----

  /** expand_mult of a chain of `count` elements. */
  function MultOf(count: nat, ideal: nat): nat
    requires ideal > 0
  {
    if count > ideal then count / ideal else 0
  }

  predicate MultOk(buckets: seq<Bucket>, b: nat, ideal: nat)
    requires b < |buckets|
  {
    ideal > 0 && buckets[b].mult == MultOf(buckets[b].count, ideal)
  }

  /** The new buckets match the new chains. */
  ghost predicate NewBuckets(buckets: seq<Bucket>, moved: Lists, ideal: nat) {
    && |buckets| == |moved| && (forall b :: 0 <= b < |moved| ==> BucketOk(buckets, moved, b))
    && forall b :: 0 <= b < |moved| ==> MultOk(buckets, b, ideal)
  }

  /** How many elements are beyond the ideal length of their chains. */
  function Excess(lists: Lists, ideal: nat): nat {
    if lists == [] then 0
    else (if |lists[0]| > ideal then |lists[0]| - ideal else 0) + Excess(lists[1..], ideal)
  }

  lemma {:induction false} ExcessPush(lists: Lists, l: nat, x: nat, ideal: nat)
    requires l < |lists|
    ensures Excess(lists[l := [x] + lists[l]], ideal) ==
      Excess(lists, ideal) + if |lists[l]| + 1 > ideal then 1 else 0
  {
    var lists' := lists[l := [x] + lists[l]];
    if l > 0 {
      ExcessPush(lists[1..], l - 1, x, ideal);
      assert lists'[1..] == lists[1..][l - 1 := [x] + lists[l]];
    } else {
      assert lists'[1..] == lists[1..];
    }
  }

  lemma {:induction false} ExcessEmpty(n: nat, ideal: nat)
    ensures Excess(seq<seq<nat>>(n, _ => []), ideal) == 0
  {
    if n > 0 {
      ExcessEmpty(n - 1, ideal);
      assert seq<seq<nat>>(n, _ => [])[1..] == seq<seq<nat>>(n - 1, _ => []);
    }
  }

  /** One element goes to the front of its new bucket; the bucket's threshold grows when it is longer than ideal. */
  method MoveOne(hh: Links, buckets: seq<Bucket>, x: nat, b: nat, ideal: nat, ghost moved: Lists)
    returns (hh': Links, buckets': seq<Bucket>, over: bool)
    requires NewBuckets(buckets, moved, ideal) && b < |buckets| && ideal > 0
    requires (At(moved, b, 0).To? ==> At(moved, b, 0).i in hh)
    ensures hh' == Push(hh, At(moved, b, 0), x) && NewBuckets(buckets', moved[b := [x] + moved[b]], ideal)
    ensures |buckets'| == |buckets| && (over <==> |moved[b]| + 1 > ideal)
  {
    assert BucketOk(buckets, moved, b) && MultOk(buckets, b, ideal);
    var count := buckets[b].count + 1;
    over := count > ideal;
    var mult := if over then count / ideal else buckets[b].mult;
    hh' := Push(hh, buckets[b].head, x);
    buckets' := buckets[b := Bucket(To(x), count, mult)];
    ghost var moved' := moved[b := [x] + moved[b]];
    forall c | 0 <= c < |moved'| ensures BucketOk(buckets', moved', c) && MultOk(buckets', c, ideal) {
      assert BucketOk(buckets, moved, c) && MultOk(buckets, c, ideal);
    }
  }

  /** The counters after an expansion: the ideal length is the least that holds the items, expand_mult and
      nonideal_items are those of the new chains, and two expansions in a row that leave more than half of the items
      beyond the ideal length inhibit further ones. */
  ghost predicate Counted(t: Table, t': Table, chains': Lists) {
    && |t'.buckets| == 2 * |t.buckets| && t.items <= t'.ideal * |t'.buckets| < t.items + |t'.buckets|
    && (forall b :: 0 <= b < |t'.buckets| ==> MultOk(t'.buckets, b, t'.ideal))
    && t'.nonideal == Excess(chains', t'.ideal)
    && t'.ineff == (if t'.nonideal > t.items / 2 then t.ineff + 1 else 0)
    && (t'.noexpand <==> t.noexpand || t'.ineff > 1)
  }

  method Expand(t: Table, ghost order: seq<nat>, ghost chains: Lists) returns (t': Table, ghost chains': Lists)
    requires BucketsOk(t, chains) && Hashed(t.hashv, order, chains) && t.items > 0
    ensures BucketsOk(t', chains') && Hashed(t'.hashv, order, chains') && t'.log2 == t.log2 + 1
    ensures t'.app == t.app && t'.hashv == t.hashv && t'.head == t.head && t'.tail == t.tail && t'.items == t.items
    ensures Counted(t, t', chains')
  {
    hide Home, Moving, NewBuckets, Hashed, Linked, Total, Pow2, Ideal, Push, LinkedAt, BucketsOk, Excess, Counted;
    BucketFacts(t, order, chains);
    var n := |t.buckets|;
    var ideal := Ideal(t.items, t.log2 + 1);
    IdealIsCeiling(t.items, t.log2 + 1);
    var hh, buckets := t.hh, seq(2 * n, _ => Bucket(Null, 0, 0));
    var nonideal := 0;
    ghost var moved: Lists := seq(2 * n, _ => []);
    ghost var left := chains;
    StartMoving(hh, t.hashv, order, chains, 2 * n);
    TotalEmpty(2 * n);
    ExcessEmpty(2 * n, ideal);
    FreshBuckets(2 * n, ideal);
    for i := 0 to n
      invariant |left| == n && |moved| == |buckets| == 2 * n
      invariant Moving(hh, t.hashv, order, moved, left) && NewBuckets(buckets, moved, ideal)
      invariant Total(moved) + Total(left) == t.items && nonideal == Excess(moved, ideal)
      invariant (forall l :: 0 <= l < i ==> left[l] == []) && forall l :: i <= l < n ==> left[l] == chains[l]
    {
      HeadOf(t, chains, i);
      var thh := t.buckets[i].head;
      while thh.To?
        invariant |left| == n && |moved| == |buckets| == 2 * n && thh == At(left, i, 0)
        invariant Moving(hh, t.hashv, order, moved, left) && NewBuckets(buckets, moved, ideal)
        invariant Total(moved) + Total(left) == t.items && nonideal == Excess(moved, ideal)
        invariant (forall l :: 0 <= l < i ==> left[l] == []) && forall l :: i < l < n ==> left[l] == chains[l]
        decreases |left[i]|
      {
        var x := thh.i;
        NextOf(hh, t.hashv, order, moved, left, i);
        Move(hh, t.hashv, order, moved, left, i);
        var next := hh[x].next;
        var b := Home(t.hashv[x], 2 * n);
        var over;
        hh, buckets, over := MoveOne(hh, buckets, x, b, ideal, moved);
        if over {
          nonideal := nonideal + 1;
        }
        TotalSet(moved, b, [x] + moved[b]);
        ExcessPush(moved, b, x, ideal);
        TotalSet(left, i, left[i][1..]);
        moved := moved[b := [x] + moved[b]];
        left := left[i := left[i][1..]];
        thh := next;
      }
    }
    DoneMoving(hh, t.hashv, order, moved, left);
    NoneLeft(left);
    var ineff := if nonideal > t.items / 2 then t.ineff + 1 else 0;
    t' := t.(hh := hh, buckets := buckets, log2 := t.log2 + 1, ideal := ideal, nonideal := nonideal, ineff := ineff,
             noexpand := t.noexpand || ineff > 1);
    chains' := moved;
    Doubled(t, chains, t', moved);
    CountedIs(t, chains, t', moved);
  }

  lemma {:induction false} CountedIs(t: Table, chains: Lists, t': Table, moved: Lists)
    requires BucketsOk(t, chains) && |t'.buckets| == 2 * |t.buckets| && NewBuckets(t'.buckets, moved, t'.ideal)
    requires t'.ideal == Ideal(t.items, t.log2 + 1) && t'.nonideal == Excess(moved, t'.ideal)
    requires t'.ineff == (if t'.nonideal > t.items / 2 then t.ineff + 1 else 0)
    requires t'.noexpand <==> t.noexpand || t'.ineff > 1
    ensures Counted(t, t', moved)
  {
    hide Excess, Ideal, MultOk;
    IdealIsCeiling(t.items, t.log2 + 1);
    assert Pow2(t.log2 + 1) == 2 * Pow2(t.log2);
  }

  lemma {:induction false} BucketFacts(t: Table, order: seq<nat>, chains: Lists)
    requires BucketsOk(t, chains) && Hashed(t.hashv, order, chains)
    ensures |t.buckets| == |chains| > 0 && Linked(t.hh, chains) && Total(chains) == t.items
  {
  }

  lemma {:induction false} FreshBuckets(n: nat, ideal: nat)
    requires ideal > 0
    ensures NewBuckets(seq(n, _ => Bucket(Null, 0, 0)), seq<seq<nat>>(n, _ => []), ideal)
  {
  }

  lemma {:induction false} HeadOf(t: Table, chains: Lists, i: nat)
    requires BucketsOk(t, chains) && i < |chains|
    ensures i < |t.buckets| && t.buckets[i].head == if chains[i] == [] then Null else To(chains[i][0])
  {
    assert BucketOk(t.buckets, chains, i);
  }

  lemma {:induction false} NextOf(hh: Links, hashv: map<nat, nat>, order: seq<nat>, moved: Lists, left: Lists, i: nat)
    requires Moving(hh, hashv, order, moved, left) && i < |left| && left[i] != []
    ensures left[i][0] in hh && hh[left[i][0]].next == At(left[i := left[i][1..]], i, 0)
  {
    assert NextAt(hh, left, i, 0);
  }

  lemma {:induction false} NoneLeft(left: Lists)
    requires forall l :: 0 <= l < |left| ==> left[l] == []
    ensures Total(left) == 0
  {
    if left != [] { NoneLeft(left[1..]); }
  }

  lemma {:induction false} Doubled(t: Table, chains: Lists, t': Table, moved: Lists)
    requires BucketsOk(t, chains) && Linked(t'.hh, moved) && |moved| == 2 * |chains|
    requires NewBuckets(t'.buckets, moved, t'.ideal)
    requires Total(moved) == t'.items && t'.log2 == t.log2 + 1
    ensures BucketsOk(t', moved)
  {
    assert Pow2(t.log2 + 1) == 2 * Pow2(t.log2);
  }
}
