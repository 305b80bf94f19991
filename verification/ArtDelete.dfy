/** recursive_delete: removal from every layout, and the merge of a single-child node with its child. */
module ArtDelete {
  import opened Basics
  import opened ArtNode
  import opened ArtChild
  import opened ArtTree
  import opened ArtSearch
  import opened ArtInsert

  /** `r` holds what `n` holds except for `key`. */
  ghost predicate Unbound<V(!new)>(n: Node<V>, r: Node<V>, key: Key) {
    forall k, v :: In(r, k, v) <==> k != key && In(n, k, v)
  }

  // ----- remove_child4: the single-child merge -----

  /** The header of a child that takes over its parent's path: the parent's bytes, the child's byte and as many of
      the child's own as still fit. */
  method MergeHeader(h: Header, c: Byte, hc: Header) returns (r: Header)
    requires |h.partial| == |hc.partial| == MAX_PREFIX
    ensures Merged(h, c, hc, r)
  {
    var prefix := h.len;
    var partial := h.partial;
    if prefix < MAX_PREFIX {
      partial := partial[prefix := c];
      prefix := prefix + 1;
    }
    if prefix < MAX_PREFIX {
      var sub := Min(hc.len, MAX_PREFIX - prefix);
      partial := partial[..prefix] + hc.partial[..sub] + partial[prefix + sub..];
      prefix := prefix + sub;
    }
    var keep := Min(prefix, MAX_PREFIX);
    r := Header(hc.len + h.len + 1, partial[..keep] + hc.partial[keep..]);
  }

  /** Byte by byte: what the merged header holds. */
  ghost predicate Merged(h: Header, c: Byte, hc: Header, r: Header)
    requires |h.partial| == |hc.partial| == MAX_PREFIX
  {
    && |r.partial| == MAX_PREFIX && r.len == h.len + 1 + hc.len
    && forall i :: 0 <= i < Min(r.len, MAX_PREFIX) ==>
      r.partial[i] == if i < h.len then h.partial[i] else if i == h.len then c else hc.partial[i - h.len - 1]
  }

  lemma {:induction false} MergedDescribes(h: Header, c: Byte, hc: Header, r: Header, prefix: Key, path: Key,
    path': Key)
    requires Describes(h, prefix, path) && Describes(hc, path + [c], path') && Merged(h, c, hc, r)
    ensures Describes(r, prefix, path')
  {
    hide Held;
    HeldBytes(h, prefix, path);
    HeldBytes(hc, path + [c], path');
    Shorten(path', path, c, prefix);
    forall i | 0 <= i < Min(r.len, MAX_PREFIX) ensures r.partial[i] == path'[|prefix| + i] {
      if i < h.len {
        assert path'[..|path|][|prefix| + i] == path[|prefix| + i];
      }
    }
    HoldsBytes(r, prefix, path');
  }

  lemma {:induction false} HoldsBytes(h: Header, prefix: Key, path: Key)
    requires |h.partial| == MAX_PREFIX && prefix <= path && |path| == |prefix| + h.len
    requires forall i :: 0 <= i < Min(h.len, MAX_PREFIX) ==> h.partial[i] == path[|prefix| + i]
    ensures Describes(h, prefix, path)
  {
  }

  /** The child under `c` is the only one left. */
  ghost predicate Last<V>(n: Node<V>, c: Byte, d: Byte) {
    c != d && c in Kids(n) && d in Kids(n) && forall b :: b in Kids(n) ==> b == c || b == d
  }

  /** What taking the leaf of `key` out of `n` leaves in its place. */
  ghost predicate Took<V(!new)>(n: Node<V>, prefix: Key, key: Key, r: Node<V>) {
    WF(r, prefix) && Unbound(n, r, key)
  }

  lemma {:induction false} LastLeft<V(!new)>(n: Node<V>, prefix: Key, path: Key, key: Key, d: Byte, m: Node<V>)
    requires Fits(n, prefix, path) && path <= key && |path| < |key| && Last(n, key[|path|], d)
    requires Kids(n)[key[|path|]].Leaf? && Kids(n)[key[|path|]].key == key
    requires forall k, v :: In(m, k, v) <==> In(Kids(n)[d], k, v)
    ensures Unbound(n, m, key)
  {
    hide Layout, Sized, Describes, Kids;
    forall k, v ensures In(m, k, v) <==> k != key && In(n, k, v) {
      InStep(n, prefix, path, k, v);
      if In(Kids(n)[d], k, v) {
        KeyStarts(Kids(n)[d], path + [d], k, v);
        Shorten(k, path, d, path);
      }
    }
  }

  method RemoveChild4<V(!new)>(n: Node<V>, c: Byte, ghost prefix: Key, ghost path: Key, ghost key: Key)
    returns (r: Node<V>)
    requires n.Node4? && Fits(n, prefix, path) && path <= key && |path| < |key| && c == key[|path|] && c in Kids(n)
    requires Kids(n)[c].Leaf? && Kids(n)[c].key == key
    ensures Took(n, prefix, key, r) && (Sorted(n) ==> Sorted(r))
  {
    hide Describes, In, WF, Took, Last, Removed, Layout, Sorted;
    PathLength(n, prefix, path);
    Small(n);
    var i := FindIndex(n.keys, c);
    var keys, children := n.keys[..i] + n.keys[i + 1..], n.children[..i] + n.children[i + 1..];
    if |keys| == 1 {
      OneLeft(n, i);
      r := MergeUp(n, c, keys[0], children[0], prefix, path, key);
    } else {
      r := Node4(n.h, keys, children);
      ShrinkInPlace(n, i);
      Dropped(n, r, prefix, path, key);
      if Sorted(n) { DropSorted(n, c, r); }
    }
  }

  lemma {:induction false} Small<V>(n: Node<V>)
    requires n.Node4? && Layout(n)
    ensures |n.keys| == |n.children| <= 4
    ensures forall c: Byte :: c in Kids(n) <==> c in n.keys
  {
    PairsKeys(n.keys, n.children);
  }

  lemma {:induction false} ShrinkInPlace<V>(n: Node<V>, i: nat)
    requires n.Node4? && Layout(n) && |n.h.partial| == MAX_PREFIX && |n.keys| >= 3 && i < |n.keys|
    ensures var r := Node4(n.h, n.keys[..i] + n.keys[i + 1..], n.children[..i] + n.children[i + 1..]);
      Removed(n, n.keys[i], r) && (InOrder(n) ==> InOrder(r))
  {
    RemovePair(n.keys, n.children, i);
    if InOrder(n) { RemoveAscending(n.keys, i); }
  }

  lemma {:induction false} DropSorted<V>(n: Node<V>, c: Byte, r: Node<V>)
    requires Sorted(n) && Removed(n, c, r) && (InOrder(n) ==> InOrder(r))
    ensures Sorted(r)
  {
    hide Layout, Sized, InOrder, Kids;
    SortedDrop(n, c, r);
  }

  lemma {:induction false} OneLeft<V>(n: Node<V>, i: nat)
    requires n.Node4? && Layout(n) && |n.keys| == 2 && i < 2
    ensures (n.keys[..i] + n.keys[i + 1..])[0] == n.keys[1 - i]
    ensures (n.children[..i] + n.children[i + 1..])[0] == n.children[1 - i]
    ensures Last(n, n.keys[i], n.keys[1 - i]) && Kids(n)[n.keys[1 - i]] == n.children[1 - i]
  {
    PairsKeys(n.keys, n.children);
    PairsAt(n.keys, n.children, 1 - i);
    assert n.keys == [n.keys[0], n.keys[1]];
  }

  lemma {:induction false} Dropped<V(!new)>(n: Node<V>, r: Node<V>, prefix: Key, path: Key, key: Key)
    requires Fits(n, prefix, path) && path <= key && |path| < |key| && key[|path|] in Kids(n)
    requires Removed(n, key[|path|], r)
    requires Kids(n)[key[|path|]].Leaf? && Kids(n)[key[|path|]].key == key
    ensures Took(n, prefix, key, r)
  {
    hide Layout, Sized, Describes, Kids;
    var c := key[|path|];
    FitsDrop(n, prefix, path, c, r);
    forall k, v ensures In(r, k, v) <==> k != key && In(n, k, v) {
      InStep(n, prefix, path, k, v);
      InStep(r, prefix, path, k, v);
    }
  }

  method MergeUp<V(!new)>(n: Node<V>, c: Byte, d: Byte, child: Node<V>, ghost prefix: Key, ghost path: Key,
    ghost key: Key)
    returns (r: Node<V>)
    requires Fits(n, prefix, path) && path <= key && |path| < |key| && c == key[|path|] && Last(n, c, d)
    requires Kids(n)[c].Leaf? && Kids(n)[c].key == key && Kids(n)[d] == child
    ensures Took(n, prefix, key, r) && (Sorted(n) ==> Sorted(r))
  {
    hide Layout, Sized, Describes, Kids, In, Fits, WF, Sorted;
    PathLength(n, prefix, path);
    if Sorted(n) { SortedKid(n, d); }
    if !child.Leaf? {
      ghost var path' := PathOf(child, path + [d]);
      PathLength(child, path + [d], path');
      var h := MergeHeader(n.h, d, child.h);
      MergedDescribes(n.h, d, child.h, h, prefix, path, path');
      Rebase(child, path + [d], path', h, prefix);
      if Sorted(child) { SortedRebase(child, h); }
      r := child.(h := h);
    } else {
      LeafUp(child, path, d, prefix);
      r := child;
    }
    LastLeft(n, prefix, path, key, d, r);
  }

  lemma {:induction false} LeafUp<V>(n: Node<V>, path: Key, d: Byte, prefix: Key)
    requires n.Leaf? && WF(n, path + [d]) && prefix <= path
    ensures WF(n, prefix)
  {
    Shorten(n.key, path, d, prefix);
  }

  lemma {:induction false} HasPath<V>(n: Node<V>, prefix: Key)
    requires WF(n, prefix) && !n.Leaf?
    ensures exists path :: Fits(n, prefix, path)
  {
  }

  ghost function PathOf<V>(n: Node<V>, prefix: Key): (path: Key)
    requires WF(n, prefix) && !n.Leaf?
    ensures Fits(n, prefix, path)
  {
    HasPath(n, prefix);
    var path :| Fits(n, prefix, path);
    path
  }

  method RemoveChild<V(!new)>(n: Node<V>, c: Byte, ghost prefix: Key, ghost path: Key, ghost key: Key)
    returns (r: Node<V>)
    requires Fits(n, prefix, path) && path <= key && |path| < |key| && c == key[|path|] && c in Kids(n)
    requires Kids(n)[c].Leaf? && Kids(n)[c].key == key
    ensures Took(n, prefix, key, r) && (Sorted(n) ==> Sorted(r))
  {
    hide Kids, Describes, Took, Sorted, InOrder;
    PathLength(n, prefix, path);
    if n.Node4? {
      r := RemoveChild4(n, c, prefix, path, key);
      return;
    }
    match n {
      case Node16(_, _, _) => r := RemoveChild16(n, c);
      case Node48(_, _, _, _) => r := RemoveChild48(n, c);
      case Node256(_, _, _) => r := RemoveChild256(n, c);
    }
    Dropped(n, r, prefix, path, key);
    if Sorted(n) { DropSorted(n, c, r); }
  }

  /** What recursive_delete reads at `depth`: past the end of the key it is whatever the memory holds there. */
  function ByteAt(key: Key, depth: nat, beyond: nat -> Byte): (c: Byte)
    ensures depth < |key| ==> c == key[depth]
  {
    if depth < |key| then key[depth] else beyond(depth)
  }

  /** The tree after removing `key` below the child under `c`. */
  lemma {:induction false} TookBelow<V(!new)>(n: Node<V>, r: Node<V>, prefix: Key, path: Key, key: Key, child: Node<V>)
    requires Fits(n, prefix, path) && path <= key && |path| < |key| && key[|path|] in Kids(n)
    requires Added(n, key[|path|], child, r) && Took(Kids(n)[key[|path|]], path + [key[|path|]], key, child)
    ensures Took(n, prefix, key, r)
  {
    hide Layout, Sized, Describes, Kids;
    var c := key[|path|];
    FitsSet(n, prefix, path, c, child, r);
    forall k, v ensures In(r, k, v) <==> k != key && In(n, k, v) {
      InStep(n, prefix, path, k, v);
      InStep(r, prefix, path, k, v);
    }
  }

  /** recursive_delete on an inner node. Correct for every key, stored or not, and for every value of the bytes past
      the end of the key. */
  method DeleteBelow<V(!new)>(n: Node<V>, key: Key, depth: nat, beyond: nat -> Byte, ghost prefix: Key)
    returns (r: Node<V>, gone: Option<V>)
    requires WF(n, prefix) && |prefix| == depth && !n.Leaf?
    ensures Was(n, key, gone)
    ensures if gone.Some? then Took(n, prefix, key, r) else r == n
    ensures Sorted(n) ==> Sorted(r)
    decreases n
  {
    hide Layout, Sized, Kids, Describes, Took, Fits, Held, Added, SameHeader, Sorted, InOrder;
    ghost var path := PathOf(n, prefix);
    PathLength(n, prefix, path);
    var at := depth;
    if n.h.len != 0 {
      var idx := CheckPrefix(n.h, key, depth);
      if idx != Min(MAX_PREFIX, n.h.len) {
        Bail(n, prefix, path, key, idx);
        return n, None;
      }
      at := depth + n.h.len;
    }
    var c := ByteAt(key, at, beyond);
    forall v ensures In(n, key, v) <==> c in Kids(n) && In(Kids(n)[c], key, v) {
      Optimistic(n, prefix, path, key, c, v);
    }
    var child := FindChild(n, c);
    if child.None? {
      return n, None;
    }
    if child.value.Leaf? {
      if child.value.key != key {
        return n, None;
      }
      InStep(n, prefix, path, key, child.value.value);
      r := RemoveChild(n, c, prefix, path, key);
      return r, Some(child.value.value);
    }
    var child';
    child', gone := DeleteBelow(child.value, key, at + 1, beyond, path + [c]);
    if gone.Some? {
      InStep(n, prefix, path, key, gone.value);
      r := ReplaceChild(n, c, child');
      TookBelow(n, r, prefix, path, key, child');
      if Sorted(n) {
        SortedKid(n, c);
        KeepsSorted(n, c, child', r);
      }
    } else {
      r := n;
    }
  }
}
