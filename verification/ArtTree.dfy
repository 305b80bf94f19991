/** Meaning of an adaptive radix tree: which keys it stores, and the path-compression invariant. */
module ArtTree {
  import opened Basics
  import opened ArtNode
  import opened ArtChild

  /** `n` holds a leaf with key `k` and value `v`. */
  ghost predicate In<V>(n: Node<V>, k: Key, v: V)
    decreases n
  {
    if n.Leaf? then n.key == k && n.value == v
    else exists c :: c in Kids(n) && In(Kids(n)[c], k, v)
  }

  /** `n` is well formed below the path `prefix`. */
  ghost predicate WF<V>(n: Node<V>, prefix: Key)
    decreases n, 1
  {
    if n.Leaf? then prefix <= n.key else exists path :: Fits(n, prefix, path)
  }

  /** Every leaf below the inner node `n` starts with `path`; the header holds the length of what `path` adds to
      `prefix`, and its first 16 bytes. */
  ghost predicate Fits<V>(n: Node<V>, prefix: Key, path: Key)
    decreases n, 0
  {
    && !n.Leaf? && Layout(n) && Sized(n)
    && Describes(n.h, prefix, path)
    && forall c :: c in Kids(n) ==> WF(Kids(n)[c], path + [c])
  }

  ghost predicate Describes(h: Header, prefix: Key, path: Key) {
    && |h.partial| == MAX_PREFIX
    && prefix <= path && |path| == |prefix| + h.len
    && Held(h) == path[|prefix|..|prefix| + Min(h.len, MAX_PREFIX)]
  }

  /** The leaf for `k` is where its byte after `path` leads. */
  ghost predicate Step<V>(n: Node<V>, path: Key, k: Key, v: V) {
    path <= k && |path| < |k| && k[|path|] in Kids(n) && In(Kids(n)[k[|path|]], k, v)
  }

  lemma {:induction false} KeyStarts<V>(n: Node<V>, prefix: Key, k: Key, v: V)
    requires WF(n, prefix) && In(n, k, v)
    ensures prefix <= k
    decreases n
  {
    if !n.Leaf? {
      var path :| Fits(n, prefix, path);
      var c :| c in Kids(n) && In(Kids(n)[c], k, v);
      KeyStarts(Kids(n)[c], path + [c], k, v);
      Shorten(k, path, c, prefix);
    }
  }

  lemma {:induction false} Shorten(k: Key, path: Key, c: Byte, prefix: Key)
    requires path + [c] <= k && prefix <= path
    ensures prefix <= k && path <= k && |path| < |k| && k[|path|] == c
  {
    assert (path + [c])[|path|] == c;
    assert k[..|path|] == (path + [c])[..|path|];
    assert k[..|prefix|] == path[..|prefix|];
  }

  /** Membership follows the key. */
  lemma {:induction false} InStep<V>(n: Node<V>, prefix: Key, path: Key, k: Key, v: V)
    requires Fits(n, prefix, path)
    ensures In(n, k, v) <==> Step(n, path, k, v)
  {
    if In(n, k, v) {
      var c :| c in Kids(n) && In(Kids(n)[c], k, v);
      KeyStarts(Kids(n)[c], path + [c], k, v);
      Shorten(k, path, c, prefix);
    }
  }

  /** The 16-byte check never loses a key, whatever byte is read when the key has ended. */
  lemma {:induction false} Optimistic<V>(n: Node<V>, prefix: Key, path: Key, k: Key, c: Byte, v: V)
    requires Fits(n, prefix, path) && (|path| < |k| ==> c == k[|path|])
    ensures In(n, k, v) <==> c in Kids(n) && In(Kids(n)[c], k, v)
  {
    InStep(n, prefix, path, k, v);
  }

  /** Every node holds a leaf. */
  lemma {:induction false} SomeKid<V>(n: Node<V>)
    requires !n.Leaf? && Layout(n) && Sized(n)
    ensures exists c :: c in Kids(n)
  {
    KidCount(n);
    assert |Kids(n).Keys| == |Kids(n)|;
    var c :| c in Kids(n).Keys;
  }

  /** No two keys of a tree are prefixes of one another. */
  lemma {:induction false} PrefixFree<V>(n: Node<V>, prefix: Key, k: Key, v: V, k': Key, v': V)
    requires WF(n, prefix) && In(n, k, v) && In(n, k', v') && k <= k'
    ensures k == k' && v == v'
    decreases n
  {
    if !n.Leaf? {
      var path :| Fits(n, prefix, path);
      InStep(n, prefix, path, k, v);
      InStep(n, prefix, path, k', v');
      assert k[|path|] == k'[|path|];
      PrefixFree(Kids(n)[k[|path|]], path + [k[|path|]], k, v, k', v');
    }
  }

  // ----- Order -----

  /** Every node below keeps its bytes in order. */
  ghost predicate Sorted<V>(n: Node<V>)
    decreases n
  {
    InOrder(n) && forall c :: c in Kids(n) ==> Sorted(Kids(n)[c])
  }

  lemma {:induction false} SortedSet<V>(n: Node<V>, c: Byte, child: Node<V>, r: Node<V>)
    requires Sorted(n) && Sorted(child) && InOrder(r) && Kids(r) == Kids(n)[c := child]
    ensures Sorted(r)
  {
    hide Kids, InOrder;
  }

  lemma {:induction false} SortedDrop<V>(n: Node<V>, c: Byte, r: Node<V>)
    requires Sorted(n) && InOrder(r) && Kids(r) == Kids(n) - {c}
    ensures Sorted(r)
  {
    hide Kids, InOrder;
  }

  lemma {:induction false} SortedKid<V>(n: Node<V>, c: Byte)
    requires Sorted(n) && c in Kids(n)
    ensures Sorted(Kids(n)[c])
  {
  }

  /** Another header changes nothing. */
  lemma {:induction false} SortedRebase<V>(n: Node<V>, h: Header)
    requires Sorted(n) && !n.Leaf?
    ensures Sorted(n.(h := h))
  {
    assert Kids(n.(h := h)) == Kids(n);
  }

  // ----- Changing one child -----

  lemma {:induction false} FitsSet<V>(n: Node<V>, prefix: Key, path: Key, c: Byte, child: Node<V>, r: Node<V>)
    requires Fits(n, prefix, path) && Added(n, c, child, r) && WF(child, path + [c])
    ensures Fits(r, prefix, path) && WF(r, prefix)
  {
    hide Layout, Sized, Kids, Held;
    forall d | d in Kids(r) ensures WF(Kids(r)[d], path + [d]) {
      assert d in Kids(n) ==> WF(Kids(n)[d], path + [d]);
    }
    assert Fits(r, prefix, path);
  }

  lemma {:induction false} FitsDrop<V>(n: Node<V>, prefix: Key, path: Key, c: Byte, r: Node<V>)
    requires Fits(n, prefix, path) && Removed(n, c, r)
    ensures Fits(r, prefix, path) && WF(r, prefix)
  {
    hide Layout, Sized, Kids, Held;
    forall d | d in Kids(r) ensures WF(Kids(r)[d], path + [d]) {
      assert d in Kids(n) ==> WF(Kids(n)[d], path + [d]);
    }
    assert Fits(r, prefix, path);
  }

  /** Only the header differs. */
  lemma {:induction false} SameKids<V>(n: Node<V>, r: Node<V>, k: Key, v: V)
    requires !n.Leaf? && !r.Leaf? && Kids(n) == Kids(r)
    ensures In(n, k, v) <==> In(r, k, v)
  {
  }

  /** The same node with another header. */
  lemma {:induction false} Rebase<V(!new)>(n: Node<V>, prefix: Key, path: Key, h: Header, prefix': Key)
    requires Fits(n, prefix, path) && Describes(h, prefix', path)
    ensures WF(n.(h := h), prefix')
    ensures forall k, v :: In(n.(h := h), k, v) <==> In(n, k, v)
  {
    var m := n.(h := h);
    assert Layout(m) && Sized(m) && Kids(m) == Kids(n);
    assert Fits(m, prefix', path);
    forall k, v ensures In(m, k, v) <==> In(n, k, v) { SameKids(n, m, k, v); }
  }

  // ----- The order of keys -----

  /** Byte strings in dictionary order. */
  ghost predicate Before(a: Key, b: Key) {
    exists i :: Parts(a, b, i)
  }

  /** They part at `i`, where `a` ends or has the smaller byte. */
  predicate Parts(a: Key, b: Key, i: nat) {
    i <= |a| && i < |b| && a[..i] == b[..i] && (i < |a| ==> a[i] < b[i])
  }

  /** `key` comes before every other key below `n`. */
  ghost predicate IsFirst<V(!new)>(n: Node<V>, key: Key) {
    forall k, v :: In(n, k, v) ==> k == key || Before(key, k)
  }

  /** Keys under a smaller byte come before keys under a larger one. */
  lemma {:induction false} SmallerByte(path: Key, c: Byte, d: Byte, a: Key, b: Key)
    requires path + [c] <= a && path + [d] <= b && c < d
    ensures Before(a, b)
  {
    assert a[..|path|] == (path + [c])[..|path|] == path && a[|path|] == (path + [c])[|path|];
    assert b[..|path|] == (path + [d])[..|path|] == path && b[|path|] == (path + [d])[|path|];
    assert Parts(a, b, |path|);
  }

  /** The first key under the least byte is the first key. */
  lemma {:induction false} FirstBelow<V(!new)>(n: Node<V>, prefix: Key, path: Key, c: Byte, key: Key, value: V)
    requires Fits(n, prefix, path) && c in Kids(n) && (forall b :: b in Kids(n) ==> c <= b)
    requires In(Kids(n)[c], key, value) && IsFirst(Kids(n)[c], key)
    ensures IsFirst(n, key)
  {
    hide Kids, Before;
    KeyStarts(Kids(n)[c], path + [c], key, value);
    forall k, v | In(n, k, v) ensures k == key || Before(key, k) {
      var b :| b in Kids(n) && In(Kids(n)[b], k, v);
      KeyStarts(Kids(n)[b], path + [b], k, v);
      if b != c { SmallerByte(path, c, b, key, k); }
    }
  }
}
