/** The uthash table and the integrity that HASH_FSCK checks. */
module UtTable {
  import opened Lists
  import opened Triangular
  import opened UtLinks

  datatype Bucket = Bucket(head: Ptr, count: nat, mult: nat)

  /** Application-order links, bucket links and hash values of the handles; the bucket array and the counters. */
  datatype Table = Table(app: Links, hh: Links, hashv: map<nat, nat>, buckets: seq<Bucket>, log2: nat,
    head: Ptr, tail: Ptr, items: nat, ideal: nat, nonideal: nat, ineff: nat, noexpand: bool)

  const THRESH: nat := 10

  /** The application-order half of HASH_FSCK, and the tail. */
  ghost predicate OrderOk(t: Table, order: seq<nat>) {
    && Linked(t.app, [order]) && t.items == |order|
    && t.head == At([order], 0, 0) && t.tail == At([order], 0, |order| - 1)
  }

  /** The bucket half of HASH_FSCK. */
  ghost predicate BucketsOk(t: Table, chains: Lists) {
    && |t.buckets| == |chains| == Pow2(t.log2) && Linked(t.hh, chains) && Total(chains) == t.items
    && forall b :: 0 <= b < |chains| ==> BucketOk(t.buckets, chains, b)
  }

  predicate BucketOk(buckets: seq<Bucket>, chains: Lists, b: nat)
    requires b < |chains| == |buckets|
  {
    buckets[b].head == At(chains, b, 0) && buckets[b].count == |chains[b]|
  }

  /** Every element is in the bucket of its hash value, and nothing else is in any. */
  ghost predicate Hashed(hashv: map<nat, nat>, order: seq<nat>, chains: Lists) {
    && |chains| > 0
    && (forall b: nat, x: nat :: OnList(chains, b, x) ==> x in order)
    && (forall x: nat :: x in order ==> Sits(hashv, chains, x))
  }

  predicate Sits(hashv: map<nat, nat>, chains: Lists, x: nat)
    requires |chains| > 0
  {
    x in hashv && x in chains[Home(hashv[x], |chains|)]
  }

  ghost predicate Fsck(t: Table, order: seq<nat>, chains: Lists) {
    OrderOk(t, order) && BucketsOk(t, chains) && Hashed(t.hashv, order, chains)
  }

  lemma {:induction false} NotInOrder(hashv: map<nat, nat>, order: seq<nat>, chains: Lists, x: nat)
    requires Hashed(hashv, order, chains) && x !in order
    ensures Loose(chains, x)
  {
    forall l: nat | l < |chains| ensures x !in chains[l] {
      assert OnList(chains, l, x) ==> x in order;
    }
  }

  lemma {:induction false} LooseOne(order: seq<nat>, x: nat)
    ensures Loose([order], x) <==> x !in order
  {
    assert [order][0] == order;
  }

  // ----- HASH_APPEND_LIST -----

  lemma {:induction false} AppendOrder(t: Table, order: seq<nat>, x: nat)
    requires OrderOk(t, order) && x !in order
    ensures t.tail.To? ==> t.tail.i in t.app
    ensures Linked(Append(t.app, t.tail, x), [order + [x]])
    ensures At([order + [x]], 0, 0) == if order == [] then To(x) else t.head
    ensures At([order + [x]], 0, |order|) == To(x)
  {
    LooseOne(order, x);
    AppendLinked(t.app, [order], 0, x);
    assert [order][0 := [order][0] + [x]] == [order + [x]];
  }

  // ----- HASH_ADD_TO_BKT, without the expansion -----

  function AddToBucket(t: Table, b: nat, x: nat): Table
    requires b < |t.buckets| && (t.buckets[b].head.To? ==> t.buckets[b].head.i in t.hh)
  {
    t.(hh := Push(t.hh, t.buckets[b].head, x),
       buckets := t.buckets[b := t.buckets[b].(head := To(x), count := t.buckets[b].count + 1)])
  }

  lemma {:induction false} AddBucketOk(t: Table, chains: Lists, b: nat, x: nat)
    requires BucketsOk(t.(items := Total(chains)), chains) && b < |chains| && Loose(chains, x)
    ensures t.buckets[b].head.To? ==> t.buckets[b].head.i in t.hh
    ensures var t' := AddToBucket(t, b, x); BucketsOk(t'.(items := Total(chains) + 1), chains[b := [x] + chains[b]])
  {
    hide Total, Pow2;
    assert BucketOk(t.buckets, chains, b);
    PushLinked(t.hh, chains, b, x);
    TotalSet(chains, b, [x] + chains[b]);
    var chains', t' := chains[b := [x] + chains[b]], AddToBucket(t, b, x);
    forall c | 0 <= c < |chains'| ensures BucketOk(t'.buckets, chains', c) {
      assert BucketOk(t.buckets, chains, c);
    }
  }

  lemma {:induction false} AddHashed(hashv: map<nat, nat>, order: seq<nat>, chains: Lists, x: nat, h: nat)
    requires Hashed(hashv, order, chains) && x !in order
    ensures var b := Home(h, |chains|); Hashed(hashv[x := h], order + [x], chains[b := [x] + chains[b]])
  {
    hide Home;
    var b := Home(h, |chains|);
    var chains' := chains[b := [x] + chains[b]];
    forall c: nat, y: nat | OnList(chains', c, y) ensures y in order + [x] {
      assert y != x ==> OnList(chains, c, y);
    }
    forall y: nat | y in order + [x] ensures Sits(hashv[x := h], chains', y) {
      if y != x { assert Sits(hashv, chains, y); }
    }
  }

  // ----- HASH_DELETE -----

  function DropOrder(t: Table, x: nat): Table
    requires x in t.app && (t.app[x].prev.To? ==> t.app[x].prev.i in t.app)
    requires (t.app[x].next.To? ==> t.app[x].next.i in t.app)
  {
    t.(app := Unlink(t.app, x),
       tail := if t.tail == To(x) then t.app[x].prev else t.tail,
       head := if t.app[x].prev == Null then t.app[x].next else t.head)
  }

  lemma {:induction false} DropOrderOk(t: Table, order: seq<nat>, k: nat)
    requires OrderOk(t, order) && k < |order|
    ensures var x := order[k];
      && x in t.app && (t.app[x].prev.To? ==> t.app[x].prev.i in t.app)
      && (t.app[x].next.To? ==> t.app[x].next.i in t.app)
      && OrderOk(DropOrder(t, x).(items := |order| - 1), Without(order, k))
      && (t.app[x].prev == Null && t.app[x].next == Null <==> |order| == 1)
  {
    var lists := [order];
    assert lists[0] == order;
    UnlinkLinked(t.app, lists, 0, k);
    assert LinkedAt(t.app, lists, 0, k);
    assert lists[0 := Without(lists[0], k)] == [Without(order, k)];
    DistinctEnds(order, k, t.app);
  }

  lemma {:induction false} DistinctEnds(order: seq<nat>, k: nat, app: Links)
    requires Linked(app, [order]) && k < |order|
    ensures order[k] == order[|order| - 1] <==> k == |order| - 1
    ensures forall x: nat :: x in Without(order, k) <==> x in order && x != order[k]
  {
    var lists := [order];
    assert lists[0] == order;
    WithoutIn(lists, 0, k);
  }

  /** HASH_DEL_IN_BKT */
  function DropBucket(t: Table, b: nat, x: nat): Table
    requires b < |t.buckets| && t.buckets[b].count > 0
    requires x in t.hh && (t.hh[x].prev.To? ==> t.hh[x].prev.i in t.hh) && (t.hh[x].next.To? ==> t.hh[x].next.i in t.hh)
  {
    var d := t.buckets[b];
    t.(hh := Unlink(t.hh, x),
       buckets := t.buckets[b := d.(head := if d.head == To(x) then t.hh[x].next else d.head, count := d.count - 1)])
  }

  lemma {:induction false} DropBucketOk(t: Table, chains: Lists, b: nat, k: nat)
    requires BucketsOk(t, chains) && b < |chains| && k < |chains[b]|
    ensures var x := chains[b][k];
      && t.buckets[b].count > 0 && t.items > 0
      && x in t.hh && (t.hh[x].prev.To? ==> t.hh[x].prev.i in t.hh) && (t.hh[x].next.To? ==> t.hh[x].next.i in t.hh)
      && BucketsOk(DropBucket(t, b, x).(items := t.items - 1), chains[b := Without(chains[b], k)])
  {
    hide Total, Pow2;
    var x := chains[b][k];
    assert BucketOk(t.buckets, chains, b);
    UnlinkLinked(t.hh, chains, b, k);
    assert LinkedAt(t.hh, chains, b, k);
    TotalSet(chains, b, Without(chains[b], k));
    var chains' := chains[b := Without(chains[b], k)];
    var t' := DropBucket(t, b, x);
    forall c | 0 <= c < |chains'| ensures BucketOk(t'.buckets, chains', c) {
      assert BucketOk(t.buckets, chains, c);
    }
  }

  lemma {:induction false} DropHashed(hashv: map<nat, nat>, order: seq<nat>, chains: Lists, k: nat, b: nat, j: nat)
    requires Hashed(hashv, order, chains) && Apart(chains) && Apart([order]) && k < |order|
    requires b < |chains| && j < |chains[b]| && chains[b][j] == order[k]
    ensures Hashed(hashv, Without(order, k), chains[b := Without(chains[b], j)])
  {
    hide Home;
    var x := order[k];
    var lists := [order];
    assert lists[0] == order;
    WithoutIn(lists, 0, k);
    WithoutIn(chains, b, j);
    var chains' := chains[b := Without(chains[b], j)];
    forall c: nat, y: nat | OnList(chains', c, y) ensures y in Without(order, k) {
      assert OnList(chains, c, y);
      assert Loose(chains', x);
    }
    forall y: nat | y in Without(order, k) ensures Sits(hashv, chains', y) {
      assert Sits(hashv, chains, y);
    }
  }
}
