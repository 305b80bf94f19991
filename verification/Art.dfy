/** The adaptive radix tree as a finite map from byte strings to values. */
module Art {
  import opened Basics
  import opened ArtNode
  import C = ArtChild
  import opened ArtTree
  import opened ArtSearch
  import opened ArtInsert
  import opened ArtDelete
  import I = ArtIter

  ghost predicate Maps<V>(m: map<Key, V>, k: Key, v: V) {
    k in m && m[k] == v
  }

  ghost predicate Held<V>(root: Option<Node<V>>, k: Key, v: V) {
    root.Some? && In(root.value, k, v)
  }

  /** The tree stores exactly the bindings of `m`. */
  ghost predicate Stores<V(!new)>(root: Option<Node<V>>, m: map<Key, V>) {
    && (root.Some? ==> WF(root.value, []))
    && forall k, v :: Maps(m, k, v) <==> Held(root, k, v)
  }

  lemma {:induction false} StoresBound<V(!new)>(root: Option<Node<V>>, m: map<Key, V>, r: Node<V>, key: Key, value: V)
    requires Stores(root, m) && WF(r, [])
    requires if root.Some? then Bound(root.value, r, key, value) else r == Leaf(key, value)
    ensures Stores(Some(r), m[key := value])
  {
    hide WF;
    forall k, v ensures Maps(m[key := value], k, v) <==> Held(Some(r), k, v) {
      assert Maps(m, k, v) <==> Held(root, k, v);
    }
  }

  lemma {:induction false} StoresUnbound<V(!new)>(root: Node<V>, m: map<Key, V>, r: Option<Node<V>>, key: Key)
    requires Stores(Some(root), m)
    requires if r.Some? then Took(root, [], key, r.value) else root.Leaf? && root.key == key
    ensures Stores(r, m - {key})
  {
    hide WF;
    forall k, v ensures Maps(m - {key}, k, v) <==> Held(r, k, v) {
      assert Maps(m, k, v) <==> Held(Some(root), k, v);
    }
  }

  lemma {:induction false} StoresFree<V(!new)>(root: Node<V>, m: map<Key, V>, key: Key)
    requires Stores(Some(root), m) && forall k :: k in m ==> Apart(k, key)
    ensures Free(root, key)
  {
    hide In, Apart;
    forall k, v | In(root, k, v) ensures Apart(k, key) {
      assert Held(Some(root), k, v) ==> Maps(m, k, v);
    }
  }

  /** What a lookup in `m` gives. */
  function Lookup<V>(m: map<Key, V>, key: Key): Option<V> {
    if key in m then Some(m[key]) else None
  }

  lemma {:induction false} StoresWas<V(!new)>(root: Node<V>, m: map<Key, V>, key: Key, before: Option<V>)
    requires Stores(Some(root), m) && Was(root, key, before)
    ensures before == Lookup(m, key)
  {
    hide In, WF;
    assert forall v :: Maps(m, key, v) <==> Held(Some(root), key, v);
    assert key in m ==> Maps(m, key, m[key]) && Held(Some(root), key, m[key]) && In(root, key, m[key]);
    assert before.Some? ==> In(root, key, before.value) && Held(Some(root), key, before.value);
  }

  /** Every node of the tree keeps its bytes in order. */
  ghost predicate Ordered<V>(root: Option<Node<V>>) {
    root.Some? ==> Sorted(root.value)
  }

  /** The entries are the bindings of `m`. */
  ghost predicate Listed<V(!new)>(all: seq<I.Entry<V>>, m: map<Key, V>) {
    forall k, v :: (k, v) in all <==> Maps(m, k, v)
  }

  lemma {:induction false} AllListed<V(!new)>(root: Node<V>, m: map<Key, V>)
    requires Stores(Some(root), m)
    ensures Listed(I.Entries(root), m)
  {
    hide In, WF, I.Entries;
    forall k, v ensures (k, v) in I.Entries(root) <==> Maps(m, k, v) {
      I.EntriesIn(root, [], k, v);
      assert Maps(m, k, v) <==> Held(Some(root), k, v);
    }
  }

  lemma {:induction false} NothingListed<V(!new)>(m: map<Key, V>)
    requires m == map[]
    ensures Listed([], m) && I.Once<V>([]) && I.InKeyOrder<V>([])
  {
  }

  lemma {:induction false} StoresLow<V(!new)>(root: Node<V>, m: map<Key, V>, key: Key)
    requires Stores(Some(root), m) && C.Low(key) && forall k :: k in m ==> C.Low(k)
    ensures AllLow(root, key)
  {
    hide In, WF, C.Low;
    forall k, v | In(root, k, v) ensures C.Low(k) {
      assert Held(Some(root), k, v) ==> Maps(m, k, v);
    }
  }

  class Art<V(!new)> {
    var root: Option<Node<V>>
    var size: nat
    /** Whether add_child16 compares bytes as signed, as the SSE2 branches do. */
    const signed: bool
    ghost var contents: map<Key, V>
    /** No key with a byte above 127 was ever put in. */
    ghost var low: bool

    ghost predicate Valid()
      reads this
    {
      && Stores(root, contents) && size == |contents|
      && (low ==> forall k :: k in contents ==> C.Low(k))
      && ((signed ==> low) ==> Ordered(root))
    }

    /** art_tree_init */
    constructor (signed: bool)
      ensures Valid() && contents == map[] && low && this.signed == signed
    {
      low := true;
      root := None;
      size := 0;
      this.signed := signed;
      contents := map[];
    }

    method Get(key: Key) returns (r: Option<V>)
      requires Valid()
      ensures r == Lookup(contents, key)
    {
      hide In, WF;
      r := Search(root, key);
      assert key in contents ==> Maps(contents, key, contents[key]);
      assert r.Some? ==> Held(root, key, r.value);
    }

    /** art_insert: the stored keys together with the new one must be free of prefixes of one another. */
    method Put(key: Key, value: V) returns (before: Option<V>)
      requires Valid() && forall k :: k in contents ==> Apart(k, key)
      modifies this
      ensures Valid() && contents == old(contents)[key := value] && low == (old(low) && C.Low(key))
      ensures before == Lookup(old(contents), key)
      ensures old(Ordered(root)) ==> (Ordered(root) <==> old(root.None? || OrderKept(root.value, key, 0, signed)))
    {
      hide In, WF, Apart, Bound, Was, Free, Stores, Sorted, C.Low, AllLow, OrderKept;
      var r;
      LeafSorted(Leaf(key, value));
      if root.None? {
        r, before := Leaf(key, value), None;
        Empty(root, contents, r);
      } else {
        StoresFree(root.value, contents, key);
        Whole(root.value, contents);
        r, before := Insert(root.value, key, value, 0, signed, []);
        StoresWas(root.value, contents, key, before);
        if !signed {
          UnsignedKept(root.value, key, 0);
        } else if low && C.Low(key) {
          StoresLow(root.value, contents, key);
          LowKept(root.value, key, 0);
        }
      }
      low := low && C.Low(key);
      StoresBound(root, contents, r, key, value);
      root := Some(r);
      if before.None? {
        size := size + 1;
      } else {
        assert contents[key := value].Keys == contents.Keys;
      }
      contents := contents[key := value];
    }

    /** art_delete, for every key and whatever lies in memory after it. */
    method Remove(key: Key, beyond: nat -> Byte) returns (gone: Option<V>)
      requires Valid()
      modifies this
      ensures Valid() && contents == old(contents) - {key} && low == old(low)
      ensures gone == Lookup(old(contents), key)
      ensures old(Ordered(root)) ==> Ordered(root)
    {
      hide In, WF, Was, Stores, Took, Sorted, C.Low;
      gone := None;
      var r := root;
      if root.Some? {
        var n: Node<V>;
        Whole(root.value, contents);
        if root.value.Leaf? {
          LeafWas(root.value, key);
          if root.value.key == key {
            r, gone := None, Some(root.value.value);
          }
        } else {
          n, gone := DeleteBelow(root.value, key, 0, beyond, []);
          r := Some(n);
        }
        StoresWas(root.value, contents, key, gone);
        if gone.Some? {
          StoresUnbound(root.value, contents, r, key);
        }
      } else {
        Nothing(root, contents);
      }
      if gone.Some? {
        size := size - 1;
      }
      RemoveSize(contents, key);
      root := r;
      contents := contents - {key};
    }

    /** art_iter: the callback sees the bindings one by one until it returns something else than 0. They come in
        dictionary order exactly when the tree is in order, as it always is if bytes are compared as unsigned, or no
        byte was ever above 127. */
    method Iterate(cb: (Key, V) -> int) returns (res: int, seen: seq<I.Entry<V>>, ghost all: seq<I.Entry<V>>)
      requires Valid()
      ensures Listed(all, contents) && I.Once(all) && (I.InKeyOrder(all) <==> Ordered(root))
      ensures (signed ==> low) ==> Ordered(root)
      ensures seen == I.Until(all, cb) && res == I.Result(all, cb)
    {
      hide In, WF, Stores, Sorted, I.Entries, I.InKeyOrder, I.Once, Listed;
      if root.None? {
        Nothing(root, contents);
        NothingListed(contents);
        return 0, [], [];
      }
      Whole(root.value, contents);
      all := I.Entries(root.value);
      AllListed(root.value, contents);
      I.EntriesOnce(root.value, []);
      if Sorted(root.value) { I.EntriesOrder(root.value, []); }
      if I.InKeyOrder(all) { I.OrderedEntries(root.value, []); }
      res, seen := I.Iterate(root.value, cb, []);
    }
  }

  lemma {:induction false} RemoveSize<V>(m: map<Key, V>, key: Key)
    ensures |m - {key}| == if key in m then |m| - 1 else |m|
    ensures key !in m ==> m - {key} == m
  {
    if key in m {
      assert m == (m - {key})[key := m[key]];
    } else {
      assert m - {key} == m;
    }
  }

  lemma {:induction false} Nothing<V(!new)>(root: Option<Node<V>>, m: map<Key, V>)
    requires Stores(root, m) && root.None?
    ensures m == map[]
  {
    assert forall k :: k in m ==> Maps(m, k, m[k]);
  }

  lemma {:induction false} Empty<V(!new)>(root: Option<Node<V>>, m: map<Key, V>, leaf: Node<V>)
    requires Stores(root, m) && root.None? && leaf.Leaf?
    ensures m == map[] && WF(leaf, [])
  {
    Nothing(root, m);
  }

  lemma {:induction false} Whole<V(!new)>(root: Node<V>, m: map<Key, V>)
    requires Stores(Some(root), m)
    ensures WF(root, [])
  {
  }

  lemma {:induction false} LeafWas<V(!new)>(n: Node<V>, key: Key)
    requires n.Leaf?
    ensures Was(n, key, if n.key == key then Some(n.value) else None)
  {
  }

  // ----- Where the signed comparison goes wrong -----

  /** The one-byte keys 1, 2, 3 and 4. */
  function FourKeys(): map<Key, nat> {
    map[[1] := 1, [2] := 2, [3] := 3, [4] := 4]
  }

  lemma {:induction false} FourKids(root: Node<nat>)
    requires Stores(Some(root), FourKeys())
    ensures Fits(root, [], []) && Kids(root).Keys == {1, 2, 3, 4}
  {
    hide Layout, Sized, Kids, Describes;
    assert forall c: Byte :: c in {1, 2, 3, 4} ==> Maps(FourKeys(), [c], c) && Held(Some(root), [c], c);
    assert In(root, [1], 1) && In(root, [2], 2) && [1][0] != [2][0];
    assert WF(root, []) && !root.Leaf?;
    var path :| Fits(root, [], path);
    forall c: Byte | c in {1, 2, 3, 4} ensures c in Kids(root) && path == [] {
      assert In(root, [c], c);
      InStep(root, [], path, [c], c);
    }
    assert 1 in {1, 2, 3, 4};
    forall c | c in Kids(root) ensures c in {1, 2, 3, 4} {
      var k, v := LeafUnder(root, [], path, c);
      assert Held(Some(root), k, v) ==> Maps(FourKeys(), k, v);
    }
  }

  /** No tree with these keys takes the key 200 in its right place, */
  lemma {:induction false} FourMisplace(root: Node<nat>)
    requires Stores(Some(root), FourKeys())
    ensures !OrderKept(root, [200], 0, true)
  {
    hide In, Kids, Held, Maps;
    FourKids(root);
    PathLength(root, [], []);
    assert [200][..0] == [];
    FourWay(root);
  }

  lemma {:induction false} FourWay(n: Node<nat>)
    requires !n.Leaf? && Layout(n) && Sized(n) && Kids(n).Keys == {1, 2, 3, 4}
    ensures 200 !in Kids(n) && !C.RightPlace(n, 200, true)
  {
    hide Pairs, Indexed, Direct, Owned, Distinct;
    assert |Kids(n)| == |Kids(n).Keys| == 4;
    assert 1 in Kids(n) && 200 !in Kids(n);
    if n.Node4? || n.Node16? {
      PairsKeys(n.keys, n.children);
      assert 1 in n.keys;
    }
  }

  /** A key of one byte more. */
  method PutByte(t: Art<nat>, c: Byte)
    requires t.Valid() && [c] !in t.contents && forall k :: k in t.contents ==> |k| == 1
    modifies t
    ensures t.Valid() && t.contents == old(t.contents)[[c] := c] && t.low == (old(t.low) && c < 128)
    ensures old(Ordered(t.root)) ==>
      (Ordered(t.root) <==> old(t.root.None? || OrderKept(t.root.value, [c], 0, t.signed)))
  {
    hide Stores, Sorted, OrderKept;
    forall k | k in t.contents ensures Apart(k, [c]) { OneByteApart(k, c); }
    var before := t.Put([c], c);
    assert C.Low([c]) <==> c < 128 by { assert c in [c]; }
  }

  lemma {:induction false} OneByteApart(k: Key, c: Byte)
    requires |k| == 1 && k != [c]
    ensures Apart(k, [c])
  {
    assert k == [k[0]];
  }

  lemma {:induction false} FourContents(m: map<Key, nat>)
    requires m == map[][[1] := 1][[2] := 2][[3] := 3][[4] := 4]
    ensures m == FourKeys() && [200] !in m && forall k :: k in m ==> |k| == 1
  {
    assert [200][0] != [1][0] && [200][0] != [2][0] && [200][0] != [3][0] && [200][0] != [4][0];
  }

  lemma {:induction false} Different(a: Byte, b: Byte)
    ensures [a] == [b] <==> a == b
  {
    assert [a][0] == a;
  }

  /** so that with the signed comparison an iteration over five keys is out of order. */
  method SignedDisorder() returns (t: Art<nat>, ghost all: seq<I.Entry<nat>>)
    ensures t.Valid() && t.contents == FourKeys()[[200] := 200] && Listed(all, t.contents) && !I.InKeyOrder(all)
  {
    hide Sorted, OrderKept, Listed, I.InKeyOrder, I.Once, I.Until, I.Result, FourKeys;
    t := FourPut();
    var res, seen;
    FourMisplaced(t.root);
    PutByte(t, 200);
    res, seen, all := t.Iterate((_, _) => 0);
  }

  method FourPut() returns (t: Art<nat>)
    ensures fresh(t) && t.Valid() && t.contents == FourKeys() && t.signed && Ordered(t.root)
    ensures [200] !in t.contents && forall k :: k in t.contents ==> |k| == 1
  {
    hide Sorted, OrderKept, Stores, C.Low;
    Different(1, 2);
    Different(1, 3);
    Different(1, 4);
    Different(2, 3);
    Different(2, 4);
    Different(3, 4);
    t := new Art<nat>(true);
    PutByte(t, 1);
    PutByte(t, 2);
    PutByte(t, 3);
    PutByte(t, 4);
    FourContents(t.contents);
  }

  lemma {:induction false} FourMisplaced(root: Option<Node<nat>>)
    requires Stores(root, FourKeys())
    ensures root.Some? && !OrderKept(root.value, [200], 0, true)
  {
    hide In, WF, OrderKept;
    assert Maps(FourKeys(), [1], 1);
    assert Held(root, [1], 1);
    FourMisplace(root.value);
  }
}
