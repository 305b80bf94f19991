/** art_search, minimum, and the prefix comparisons. */
module ArtSearch {
  import opened Basics
  import opened ArtNode
  import opened ArtChild
  import opened ArtTree

  /** check_prefix: how many of the held prefix bytes the key has at `depth`. */
  method CheckPrefix(h: Header, key: Key, depth: nat) returns (idx: nat)
    requires |h.partial| == MAX_PREFIX
    ensures idx <= Min(h.len, MAX_PREFIX)
    ensures idx == Min(h.len, MAX_PREFIX) ==> idx == 0 || (depth + idx <= |key| && key[depth..depth + idx] == Held(h))
    ensures depth + idx <= |key| || idx == 0
    ensures idx < Min(h.len, MAX_PREFIX) ==> depth + idx >= |key| || key[depth + idx] != h.partial[idx]
  {
    var max := Min(Min(h.len, MAX_PREFIX), |key| - depth);
    idx := 0;
    while idx < max
      invariant idx == 0 || idx <= max
      invariant forall i :: 0 <= i < idx ==> h.partial[i] == key[depth + i]
    {
      if h.partial[idx] != key[depth + idx] {
        return;
      }
      idx := idx + 1;
    }
  }

  /** The whole of Min(16, len) bytes matching is implied by the key being below the path. */
  lemma {:induction false} PrefixHolds(h: Header, prefix: Key, path: Key, key: Key, idx: nat)
    requires Describes(h, prefix, path) && path <= key && idx < Min(h.len, MAX_PREFIX)
    ensures |prefix| + idx < |key| && key[|prefix| + idx] == h.partial[idx]
  {
    assert h.partial[idx] == Held(h)[idx];
    assert Held(h)[idx] == path[|prefix| + idx];
  }

  /** art_search: exact for every key, although the descent compares at most 16 bytes of a compressed path. */
  method Search<V(!new)>(root: Option<Node<V>>, key: Key) returns (r: Option<V>)
    requires root.Some? ==> WF(root.value, [])
    ensures forall v :: r == Some(v) <==> root.Some? && In(root.value, key, v)
  {
    hide Layout, Kids, Describes;
    if root.None? {
      return None;
    }
    var n := root.value;
    var depth := 0;
    ghost var prefix: Key := [];
    while !n.Leaf?
      invariant |prefix| == depth && WF(n, prefix)
      invariant forall v :: In(root.value, key, v) <==> In(n, key, v)
      decreases n
    {
      ghost var path :| Fits(n, prefix, path);
      PathLength(n, prefix, path);
      if n.h.len != 0 {
        var idx := CheckPrefix(n.h, key, depth);
        if idx != Min(MAX_PREFIX, n.h.len) {
          Bail(n, prefix, path, key, idx);
          return None;
        }
        depth := depth + n.h.len;
      }
      var c := if depth < |key| then key[depth] else 0;
      forall v ensures In(n, key, v) <==> c in Kids(n) && In(Kids(n)[c], key, v) {
        Optimistic(n, prefix, path, key, c, v);
      }
      var child := FindChild(n, c);
      if child.None? {
        return None;
      }
      n := child.value;
      depth := depth + 1;
      prefix := path + [c];
    }
    return if n.key == key then Some(n.value) else None;
  }

  lemma {:induction false} PathLength<V>(n: Node<V>, prefix: Key, path: Key)
    requires Fits(n, prefix, path)
    ensures !n.Leaf? && |n.h.partial| == MAX_PREFIX && |path| == |prefix| + n.h.len
    ensures Layout(n) && Describes(n.h, prefix, path)
    ensures forall c :: c in Kids(n) ==> WF(Kids(n)[c], path + [c])
  {
  }

  /** A failed check means no key of the subtree matches. */
  lemma {:induction false} Bail<V(!new)>(n: Node<V>, prefix: Key, path: Key, key: Key, idx: nat)
    requires Fits(n, prefix, path) && idx < Min(n.h.len, MAX_PREFIX)
    requires |prefix| + idx >= |key| || key[|prefix| + idx] != n.h.partial[idx]
    ensures forall v :: !In(n, key, v)
  {
    hide Layout, Kids, Describes;
    forall v ensures !In(n, key, v) {
      if In(n, key, v) {
        InStep(n, prefix, path, key, v);
        PathLength(n, prefix, path);
        PrefixHolds(n.h, prefix, path, key, idx);
      }
    }
  }

  /** The first child: the head of the small arrays, the first used byte of the large ones. */
  method FirstChild<V>(n: Node<V>) returns (child: Node<V>, ghost c: Byte)
    requires !n.Leaf? && Layout(n) && Sized(n)
    ensures c in Kids(n) && Kids(n)[c] == child
    ensures InOrder(n) ==> forall b :: b in Kids(n) ==> c <= b
  {
    hide Owned, Owns;
    match n
    case Node4(_, keys, children) =>
      PairsAt(keys, children, 0);
      PairsKeys(keys, children);
      child, c := children[0], keys[0];
    case Node16(_, keys, children) =>
      PairsAt(keys, children, 0);
      PairsKeys(keys, children);
      child, c := children[0], keys[0];
    case Node48(_, _, index, slots) =>
      SomeKid(n);
      forall b: Byte ensures b in Indexed(index, slots) <==> index[b] != 0 { NoIndex(index, slots, b); }
      var i: nat := 0;
      while index[i] == 0
        invariant i < 256 && forall b: Byte :: b < i ==> index[b] == 0
        decreases 256 - i
      {
        i := i + 1;
      }
      child, c := slots[index[i] - 1].value, i;
    case Node256(_, _, slots) =>
      SomeKid(n);
      var i: nat := 0;
      while slots[i].None?
        invariant i < 256 && forall b: Byte :: b < i ==> slots[b].None?
        decreases 256 - i
      {
        i := i + 1;
      }
      child, c := slots[i].value, i;
  }

  /** minimum: a leaf of the subtree, the one with the first key when the small nodes are in order. */
  method Minimum<V(!new)>(n: Node<V>, ghost prefix: Key) returns (leaf: Node<V>)
    requires WF(n, prefix)
    ensures leaf.Leaf? && In(n, leaf.key, leaf.value)
    ensures Sorted(n) ==> IsFirst(n, leaf.key)
    decreases n
  {
    hide Layout, Sized, InOrder, Before;
    if n.Leaf? {
      return n;
    }
    ghost var path :| Fits(n, prefix, path);
    var child, c := FirstChild(n);
    leaf := Minimum(child, path + [c]);
    if Sorted(n) { FirstBelow(n, prefix, path, c, leaf.key, leaf.value); }
  }

  // ----- prefix_mismatch -----

  /** Neither key is a proper prefix of the other. */
  predicate Apart(k: Key, k': Key) {
    k == k' || (!(k <= k') && !(k' <= k))
  }

  /** No key stored below `n` is a prefix of `key`, or has it as a prefix. */
  ghost predicate Free<V(!new)>(n: Node<V>, key: Key) {
    forall k, v :: In(n, k, v) ==> Apart(k, key)
  }

  /** `i` bytes of the compressed path agree with the key and the next one differs, or all of it agrees. */
  ghost predicate Diverges(path: Key, key: Key, depth: nat, i: nat) {
    if depth + i < |path|
    then depth + i < |key| && path[..depth + i] == key[..depth + i] && path[depth + i] != key[depth + i]
    else path <= key && |path| < |key|
  }

  lemma {:induction false} HeldBytes(h: Header, prefix: Key, path: Key)
    requires Describes(h, prefix, path)
    ensures forall i :: 0 <= i < Min(h.len, MAX_PREFIX) ==> h.partial[i] == path[|prefix| + i]
  {
    forall i | 0 <= i < Min(h.len, MAX_PREFIX) ensures h.partial[i] == path[|prefix| + i] {
      assert h.partial[i] == Held(h)[i];
    }
  }

  lemma {:induction false} LeafBelow<V>(n: Node<V>, prefix: Key, path: Key) returns (k: Key, v: V)
    requires Fits(n, prefix, path)
    ensures In(n, k, v) && path <= k && |path| < |k|
    decreases n
  {
    SomeKid(n);
    var c :| c in Kids(n);
    var m := Kids(n)[c];
    assert WF(m, path + [c]);
    if m.Leaf? {
      k, v := m.key, m.value;
    } else {
      var path' :| Fits(m, path + [c], path');
      k, v := LeafBelow(m, path + [c], path');
    }
    InStep(n, prefix, path, k, v);
  }

  lemma {:induction false} Agree(a: Key, b: Key, i: nat)
    requires i < |a| && i < |b| && a[..i] == b[..i] && a[i] == b[i]
    ensures a[..i + 1] == b[..i + 1]
  {
    assert a[..i + 1] == a[..i] + [a[i]] && b[..i + 1] == b[..i] + [b[i]];
  }

  lemma {:induction false} LeafDiverges(path: Key, k: Key, key: Key, depth: nat, i: nat)
    requires path <= k && |path| < |k| && depth + i < |k| && depth + i < |key|
    requires k[..depth + i] == key[..depth + i] && k[depth + i] != key[depth + i]
    ensures Diverges(path, key, depth, i)
  {
    if depth + i < |path| {
      assert path[..depth + i] == k[..depth + i];
    } else {
      assert path == key[..depth + i][..|path|];
    }
  }

  /** Two keys that agree as far as both go are one key. */
  lemma {:induction false} LeafEnds(path: Key, k: Key, key: Key, m: nat)
    requires path <= k && |path| < |k| && Apart(k, key)
    requires m == Min(|k|, |key|) && k[..m] == key[..m]
    ensures |path| < m && path <= key && |path| < |key|
  {
    assert k <= key || key <= k;
  }

  lemma {:induction false} PathEnds(path: Key, k: Key, key: Key, m: nat)
    requires path <= k && |path| < |k| && Apart(k, key)
    requires m == Min(|path|, |key|) && path[..m] == key[..m]
    ensures m == |path| < |key| && path <= key
  {
    assert path[..m] == k[..m];
    assert |key| <= |path| ==> key <= k;
  }

  method PrefixMismatch<V(!new)>(n: Node<V>, key: Key, depth: nat, ghost prefix: Key, ghost path: Key)
    returns (idx: nat)
    requires Fits(n, prefix, path) && prefix <= key && |prefix| == depth && Free(n, key)
    ensures Diverges(path, key, depth, idx)
  {
    hide Layout, Sized, Kids, Apart, In, Fits, WF;
    PathLength(n, prefix, path);
    HeldBytes(n.h, prefix, path);
    ghost var k, v := LeafBelow(n, prefix, path);
    var max := Min(Min(MAX_PREFIX, n.h.len), |key| - depth);
    idx := 0;
    while idx < max
      invariant idx <= max && path[..depth + idx] == key[..depth + idx]
    {
      if n.h.partial[idx] != key[depth + idx] {
        return;
      }
      Agree(path, key, depth + idx);
      idx := idx + 1;
    }
    if n.h.len > MAX_PREFIX {
      FitsIsWF(n, prefix, path);
      var l := Minimum(n, prefix);
      InStep(n, prefix, path, l.key, l.value);
      assert l.key[..depth + idx] == path[..depth + idx];
      max := Min(|l.key|, |key|) - depth;
      while idx < max
        invariant idx <= max && l.key[..depth + idx] == key[..depth + idx]
      {
        if l.key[depth + idx] != key[depth + idx] {
          LeafDiverges(path, l.key, key, depth, idx);
          return;
        }
        Agree(l.key, key, depth + idx);
        idx := idx + 1;
      }
      LeafEnds(path, l.key, key, depth + idx);
    } else {
      PathEnds(path, k, key, depth + idx);
    }
  }

  lemma {:induction false} FitsIsWF<V>(n: Node<V>, prefix: Key, path: Key)
    requires Fits(n, prefix, path)
    ensures WF(n, prefix)
  {
  }
}
