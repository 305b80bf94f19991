/** The uthash macros that add, find and delete. */
module UtHash {
  import opened Lists
  import opened Triangular
  import opened UtLinks
  import opened UtTable
  import opened UtExpand
  import S = UtSort
  import M = UtMerge

  /** HASH_MAKE_TABLE */
  function NewTable(t: Table): Table {
    Table(t.app, t.hh, t.hashv, seq(32, _ => Bucket(Null, 0, 0)), 5, Null, Null, 0, 0, 0, 0, false)
  }

  lemma {:induction false} NewTableOk(t: Table)
    ensures Fsck(NewTable(t), [], seq<seq<nat>>(32, _ => []))
  {
    hide Total;
    TotalEmpty(32);
    FreshBuckets(32, 1);
    Pow32();
  }

  lemma {:induction false} Pow32()
    ensures Pow2(5) == 32
  {
    assert Pow2(2) == 4 && Pow2(4) == 16;
  }

  /** HASH_ADD_KEYPTR_BYHASHVALUE up to the bucket expansion: the element goes to the end of the application order and
      to the front of its bucket. */
  method AddNoExpand(t: Table, x: nat, h: nat, ghost order: seq<nat>, ghost chains: Lists)
    returns (t': Table, b: nat, ghost chains': Lists)
    requires Fsck(t, order, chains) && x !in order
    ensures Fsck(t', order + [x], chains') && t'.hashv == t.hashv[x := h] && b < |t'.buckets|
    ensures InPlace(t, x, h, chains, t', chains') && b == Home(h, |t.buckets|)
  {
    hide Total, Home, Linked, Push, Append, BucketsOk, Hashed;
    TableFacts(t, order, chains);
    AppendOrder(t, order, x);
    NotInOrder(t.hashv, order, chains, x);
    b := Home(h, |t.buckets|);
    var t1 := t.(app := Append(t.app, t.tail, x), tail := To(x), head := if t.head == Null then To(x) else t.head,
                 items := t.items + 1, hashv := t.hashv[x := h]);
    AddBucketOk(t, chains, b, x);
    AddHashed(t.hashv, order, chains, x, h);
    t' := AddToBucket(t1, b, x);
    chains' := chains[b := [x] + chains[b]];
    SameBuckets(AddToBucket(t, b, x).(items := t.items + 1), t', chains');
  }

  lemma {:induction false} TableFacts(t: Table, order: seq<nat>, chains: Lists)
    requires Fsck(t, order, chains)
    ensures |t.buckets| == |chains| > 0 && Total(chains) == t.items == |order| && t.(items := Total(chains)) == t
    ensures Apart(chains) && Apart([order])
  {
  }

  lemma {:induction false} SameBuckets(t: Table, t': Table, chains: Lists)
    requires BucketsOk(t, chains) && t'.buckets == t.buckets && t'.hh == t.hh && t'.log2 == t.log2
    requires t'.items == t.items
    ensures BucketsOk(t', chains)
  {
  }

  /** The element is at the front of its chain among the old buckets. */
  ghost predicate InPlace(t: Table, x: nat, h: nat, chains: Lists, t': Table, chains': Lists) {
    && |t.buckets| == |chains| > 0
    && var b := Home(h, |t.buckets|);
    && chains' == chains[b := [x] + chains[b]] && t'.noexpand == t.noexpand && t'.ineff == t.ineff
    && t'.items == t.items + 1
    && t'.buckets == t.buckets[b := t.buckets[b].(head := To(x), count := t.buckets[b].count + 1)]
  }

  /** With one more element the chain reaches its threshold, and expansion is not inhibited. */
  predicate Fills(t: Table, h: nat) {
    && |t.buckets| > 0 && !t.noexpand
    && var k := t.buckets[Home(h, |t.buckets|)]; k.count + 1 >= (k.mult + 1) * THRESH
  }

  /** The buckets have been doubled with the element in place. */
  ghost predicate Expanded(t: Table, x: nat, h: nat, chains: Lists, t': Table, chains': Lists) {
    exists t1, chains1 :: InPlace(t, x, h, chains, t1, chains1) && Counted(t1, t', chains')
  }

  method Add(t: Table, x: nat, h: nat, ghost order: seq<nat>, ghost chains: Lists)
    returns (t': Table, ghost chains': Lists)
    requires Fsck(t, order, chains) && x !in order
    ensures Fsck(t', order + [x], chains') && t'.hashv == t.hashv[x := h]
    ensures if Fills(t, h) then Expanded(t, x, h, chains, t', chains') else InPlace(t, x, h, chains, t', chains')
  {
    hide Total, Home, Linked, BucketsOk, Hashed, Counted;
    var b;
    t', b, chains' := AddNoExpand(t, x, h, order, chains);
    if t'.buckets[b].count >= (t'.buckets[b].mult + 1) * THRESH && !t'.noexpand {
      ghost var t1, chains1 := t', chains';
      t', chains' := Expand(t', order + [x], chains');
      assert InPlace(t, x, h, chains, t1, chains1) && Counted(t1, t', chains');
    }
  }

  /** The element has left its chain; the other chains, the thresholds and the number of buckets are as before. */
  ghost predicate OutOfPlace(t: Table, x: nat, chains: Lists, t': Table, chains': Lists) {
    && x in t.hashv && |t.buckets| == |chains| == |t'.buckets| == |chains'| > 0 && t'.noexpand == t.noexpand
    && (forall c :: 0 <= c < |chains| ==> t'.buckets[c].mult == t.buckets[c].mult)
    && var b := Home(t.hashv[x], |chains|);
    && (forall c :: 0 <= c < |chains| && c != b ==> chains'[c] == chains[c])
    && exists j: nat :: LeavesAt(chains[b], j, x, chains'[b])
  }

  ghost predicate LeavesAt(chain: seq<nat>, j: nat, x: nat, chain': seq<nat>) {
    j < |chain| && chain[j] == x && chain' == Without(chain, j)
  }

  /** HASH_DELETE of an element that is not the only one. */
  method Delete(t: Table, x: nat, ghost order: seq<nat>, ghost chains: Lists, ghost k: nat)
    returns (t': Table, ghost chains': Lists)
    requires Fsck(t, order, chains) && k < |order| && order[k] == x && |order| > 1
    ensures Fsck(t', Without(order, k), chains') && t'.hashv == t.hashv && OutOfPlace(t, x, chains, t', chains')
  {
    hide Total, Home, Linked, Unlink, BucketsOk, Hashed;
    TableFacts(t, order, chains);
    DropOrderOk(t, order, k);
    var t1 := DropOrder(t, x);
    Place(t, order, chains, x);
    var b := Home(t.hashv[x], |t.buckets|);
    ghost var j :| 0 <= j < |chains[b]| && chains[b][j] == x;
    DropBucketOk(t, chains, b, j);
    DropHashed(t.hashv, order, chains, k, b, j);
    t' := DropBucket(t1, b, x).(items := t.items - 1);
    chains' := chains[b := Without(chains[b], j)];
    SameBuckets(DropBucket(t, b, x).(items := t.items - 1), t', chains');
    assert LeavesAt(chains[b], j, x, chains'[b]);
  }

  lemma {:induction false} Place(t: Table, order: seq<nat>, chains: Lists, x: nat)
    requires Fsck(t, order, chains) && x in order
    ensures |chains| == |t.buckets| > 0 && x in t.hashv && x in chains[Home(t.hashv[x], |chains|)]
  {
    assert Sits(t.hashv, chains, x);
  }

  /** HASH_FIND_IN_BKT: the first element of the bucket with the hash value and the key. */
  method FindInBucket<K(==)>(t: Table, h: nat, key: K, keys: map<nat, K>, ghost order: seq<nat>, ghost chains: Lists)
    returns (r: Ptr)
    requires Fsck(t, order, chains) && forall x: nat :: x in order ==> x in keys
    ensures r.To? ==> r.i in order && r.i in t.hashv && t.hashv[r.i] == h && keys[r.i] == key
    ensures r.Null? ==> forall x: nat :: x in order && x in t.hashv && t.hashv[x] == h ==> keys[x] != key
  {
    hide Total, Home, Linked, BucketsOk, Hashed;
    TableFacts(t, order, chains);
    var b := Home(h, |t.buckets|);
    HeadOf(t, chains, b);
    r := t.buckets[b].head;
    ghost var k: nat := 0;
    while r.To?
      invariant k <= |chains[b]| && r == At(chains, b, k)
      invariant forall j :: 0 <= j < k ==>
        chains[b][j] in keys && !(chains[b][j] in t.hashv && t.hashv[chains[b][j]] == h && keys[chains[b][j]] == key)
      decreases |chains[b]| - k
    {
      Along(t, order, chains, b, k);
      if t.hashv[r.i] == h && keys[r.i] == key {
        return;
      }
      r := t.hh[r.i].next;
      k := k + 1;
    }
    forall x: nat | x in order && x in t.hashv && t.hashv[x] == h ensures keys[x] != key {
      Place(t, order, chains, x);
    }
  }

  lemma {:induction false} Along(t: Table, order: seq<nat>, chains: Lists, b: nat, k: nat)
    requires Fsck(t, order, chains) && b < |chains| && k < |chains[b]|
    ensures var x := chains[b][k]; x in order && x in t.hashv && x in t.hh && t.hh[x].next == At(chains, b, k + 1)
  {
    var x := chains[b][k];
    assert x in chains[b];
    assert OnList(chains, b, x);
    assert LinkedAt(t.hh, chains, b, k);
    assert Sits(t.hashv, chains, x);
  }

  /** A hash of elements with keys, in the order in which they were added. */
  class UtHash<K(==, !new)> {
    var t: Table
    var keys: map<nat, K>
    const hash: K -> nat
    ghost var order: seq<nat>
    ghost var chains: Lists

    ghost predicate Valid()
      reads this
    {
      && (order == [] ==> t.head == Null)
      && (order != [] ==> Fsck(t, order, chains) && t.head != Null)
      && forall x: nat :: x in order ==> x in keys && x in t.hashv && t.hashv[x] == hash(keys[x])
    }

    constructor (hash: K -> nat)
      ensures Valid() && order == []
    {
      t := Table(map[], map[], map[], [], 0, Null, Null, 0, 0, 0, 0, false);
      keys := map[];
      this.hash := hash;
      order, chains := [], [];
    }

    method AddElement(x: nat, key: K)
      requires Valid() && x !in order
      modifies this
      ensures Valid() && order == old(order) + [x] && keys == old(keys)[x := key]
      ensures old(t).head != Null ==>
        if Fills(old(t), hash(key)) then Expanded(old(t), x, hash(key), old(chains), t, chains)
        else InPlace(old(t), x, hash(key), old(chains), t, chains)
    {
      hide Fsck, Fills, Expanded, InPlace;
      if t.head == Null {
        NewTableOk(t);
        t := NewTable(t);
        chains := seq(32, _ => []);
      }
      t, chains := Add(t, x, hash(key), order, chains);
      keys := keys[x := key];
      order := order + [x];
      HeadSet(t, order, chains);
    }

    method Find(key: K) returns (r: Ptr)
      requires Valid()
      ensures r.To? ==> r.i in order && keys[r.i] == key
      ensures r.Null? ==> forall x: nat :: x in order ==> keys[x] != key
    {
      hide Fsck;
      if t.head == Null {
        return Null;
      }
      r := FindInBucket(t, hash(key), key, keys, order, chains);
    }

    /** HASH_SRT */
    method SortElements(le: S.Le, ghost pos: map<nat, nat>)
      requires Valid() && S.Positions(pos, order)
      modifies this
      ensures Valid() && keys == old(keys)
      ensures multiset(order) == multiset(old(order)) && (S.Preorder(le) ==> S.Sorted(le, pos, order))
    {
      hide Fsck, S.Preorder, S.Positions, S.Sorted, Linked;
      if t.head == Null {
        NothingSorted(le, pos, order);
        return;
      }
      OrderLinked(t, order, chains);
      var app, head, tail, sorted := M.Sort(t.app, le, t.head.i, order, pos);
      Resorted(t, order, chains, app, sorted);
      t := t.(app := app, head := head, tail := tail);
      order := sorted;
      HeadSet(t, order, chains);
    }

    method DeleteElement(x: nat, ghost k: nat)
      requires Valid() && k < |order| && order[k] == x
      modifies this
      ensures Valid() && order == Without(old(order), k)
      ensures keys == old(keys)
    {
      hide Fsck;
      Only(t, order, chains, k);
      if t.app[x].prev == Null && t.app[x].next == Null {
        t := t.(head := Null);
        order := Without(order, k);
      } else {
        t, chains := Delete(t, x, order, chains, k);
        WithoutSome(order, k);
        order := Without(order, k);
        HeadSet(t, order, chains);
      }
    }
  }

  lemma {:induction false} NothingSorted(le: S.Le, pos: map<nat, nat>, order: seq<nat>)
    requires order == []
    ensures S.Sorted(le, pos, order)
  {
  }

  /** The buckets do not see the application order change. */
  lemma {:induction false} Resorted(t: Table, order: seq<nat>, chains: Lists, app: Links, order': seq<nat>)
    requires Fsck(t, order, chains) && multiset(order') == multiset(order) && Linked(app, [order'])
    ensures var t' := t.(app := app, head := M.El(order', 0), tail := M.El(order', |order'| - 1));
      Fsck(t', order', chains)
    ensures forall x: nat :: x in order' <==> x in order
  {
    hide Total, Home, Linked;
    forall x: nat ensures x in order' <==> x in order {
      assert x in order' <==> x in multiset(order');
      assert x in order <==> x in multiset(order);
    }
    assert |order'| == |multiset(order')| && |order| == |multiset(order)|;
    assert [order'][0] == order';
  }

  lemma {:induction false} OrderLinked(t: Table, order: seq<nat>, chains: Lists)
    requires Fsck(t, order, chains) && order != []
    ensures Linked(t.app, [order]) && t.head == To(order[0])
  {
    assert [order][0] == order;
  }

  lemma {:induction false} HeadSet(t: Table, order: seq<nat>, chains: Lists)
    requires Fsck(t, order, chains) && order != []
    ensures t.head != Null
  {
  }

  lemma {:induction false} WithoutSome(order: seq<nat>, k: nat)
    requires k < |order| && |order| > 1
    ensures Without(order, k) != [] && forall y :: y in Without(order, k) ==> y in order
  {
    assert |Without(order, k)| == |order| - 1;
  }

  lemma {:induction false} Only(t: Table, order: seq<nat>, chains: Lists, k: nat)
    requires Fsck(t, order, chains) && k < |order|
    ensures order[k] in t.app && (t.app[order[k]].prev == Null && t.app[order[k]].next == Null <==> |order| == 1)
  {
    DropOrderOk(t, order, k);
  }
}
