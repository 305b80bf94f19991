/** recursive_insert: leaf split, prefix split, descent and node growth all add one binding. */
module ArtInsert {
  import opened Basics
  import opened ArtNode
  import opened ArtChild
  import opened ArtTree
  import opened ArtSearch

  /** `r` holds what `n` holds, with `key` bound to `value`. */
  ghost predicate Bound<V(!new)>(n: Node<V>, r: Node<V>, key: Key, value: V) {
    forall k, v :: In(r, k, v) <==> if k == key then v == value else In(n, k, v)
  }

  /** The old value under `key`, if there was one. */
  ghost predicate Was<V(!new)>(n: Node<V>, key: Key, before: Option<V>) {
    forall v :: before == Some(v) <==> In(n, key, v)
  }

  /** A header for a path of `len` bytes starting with `bytes`, in a zeroed node. */
  function MakeHeader(len: nat, bytes: seq<Byte>): (h: Header)
    requires |bytes| == Min(len, MAX_PREFIX)
    ensures |h.partial| == MAX_PREFIX && h.len == len && Held(h) == bytes
  {
    var partial := bytes + seq(MAX_PREFIX - |bytes|, _ => 0);
    assert partial[..|bytes|] == bytes;
    Header(len, partial)
  }

  /** Two children in a fresh node4. */
  method Pair<V>(h: Header, c: Byte, one: Node<V>, d: Byte, two: Node<V>) returns (r: Node<V>)
    requires |h.partial| == MAX_PREFIX && c != d
    ensures r.Node4? && Layout(r) && Sized(r) && r.h == h && Kids(r) == map[c := one, d := two]
    ensures Sorted(one) && Sorted(two) ==> Sorted(r)
  {
    r := Node4(h, [], []);
    r := AddChild4(r, c, one, false);
    PairsKeys(r.keys, r.children);
    r := AddChild4(r, d, two, false);
    PairsKeys(r.keys, r.children);
    assert Kids(r) == map[c := one, d := two];
  }

  lemma {:induction false} PairFits<V(!new)>(r: Node<V>, prefix: Key, path: Key, c: Byte, n: Node<V>, key: Key,
    value: V)
    requires !r.Leaf? && Layout(r) && Sized(r) && Describes(r.h, prefix, path)
    requires path <= key && |path| < |key| && c != key[|path|]
    requires Kids(r) == map[c := n, key[|path|] := Leaf(key, value)] && WF(n, path + [c])
    ensures WF(r, prefix) && Bound(n, r, key, value) && Was(n, key, None)
  {
    hide Layout, Sized, Describes, Kids;
    var d := key[|path|];
    assert WF(Leaf(key, value), path + [d]);
    assert Fits(r, prefix, path);
    forall k, v ensures In(r, k, v) <==> In(n, k, v) || (k == key && v == value) {
      assert c in Kids(r) && d in Kids(r) && Kids(r)[c] == n && Kids(r)[d] == Leaf(key, value);
      if In(r, k, v) {
        var b :| b in Kids(r) && In(Kids(r)[b], k, v);
      }
    }
    forall v ensures !In(n, key, v) {
      if In(n, key, v) {
        KeyStarts(n, path + [c], key, v);
        Shorten(key, path, c, path);
      }
    }
  }

  lemma {:induction false} LeafSorted<V>(n: Node<V>)
    requires n.Leaf?
    ensures Sorted(n)
  {
  }

  /** longest_common_prefix */
  method LongestCommonPrefix(k: Key, key: Key, depth: nat) returns (idx: nat)
    requires depth <= |k| && depth <= |key| && k[..depth] == key[..depth]
    ensures depth + idx <= |k| && depth + idx <= |key| && k[..depth + idx] == key[..depth + idx]
    ensures depth + idx == |k| || depth + idx == |key| || k[depth + idx] != key[depth + idx]
  {
    var max := Min(|k|, |key|) - depth;
    idx := 0;
    while idx < max
      invariant idx <= max && k[..depth + idx] == key[..depth + idx]
    {
      if k[depth + idx] != key[depth + idx] {
        return;
      }
      Agree(k, key, depth + idx);
      idx := idx + 1;
    }
  }

  lemma {:induction false} Part(k: Key, key: Key, at: nat)
    requires k != key && Apart(k, key) && at <= |k| && at <= |key| && k[..at] == key[..at]
    ensures at < |k| && at < |key|
  {
    assert at == |k| ==> k <= key;
    assert at == |key| ==> key <= k;
  }

  /** A leaf becomes a node4 with the old and the new leaf. */
  method SplitLeaf<V(!new)>(n: Node<V>, key: Key, value: V, depth: nat, ghost prefix: Key) returns (r: Node<V>)
    requires n.Leaf? && n.key != key && prefix <= n.key && prefix <= key && |prefix| == depth && Apart(n.key, key)
    ensures WF(r, prefix) && Bound(n, r, key, value) && Was(n, key, None) && Sorted(r)
  {
    hide Layout, Sized, Kids;
    var lcp := LongestCommonPrefix(n.key, key, depth);
    var at := depth + lcp;
    Part(n.key, key, at);
    var h := MakeHeader(lcp, key[depth..depth + Min(MAX_PREFIX, lcp)]);
    LeafSorted(n);
    LeafSorted(Leaf(key, value));
    r := Pair(h, n.key[at], n, key[at], Leaf(key, value));
    ghost var path := key[..at];
    assert path[depth..depth + Min(lcp, MAX_PREFIX)] == key[depth..depth + Min(MAX_PREFIX, lcp)];
    assert Describes(h, prefix, path);
    assert n.key[..at + 1] == path + [n.key[at]];
    PairFits(r, prefix, path, n.key[at], n, key, value);
  }

  /** Cutting `drop` bytes off the front of a node's compressed path; `bytes` are what is then held. */
  function CutHeader(h: Header, drop: nat, bytes: seq<Byte>): (r: Header)
    requires |h.partial| == MAX_PREFIX && drop <= h.len && |bytes| == Min(MAX_PREFIX, h.len - drop)
    ensures |r.partial| == MAX_PREFIX && r.len == h.len - drop && Held(r) == bytes
  {
    var partial := bytes + h.partial[|bytes|..];
    assert partial[..|bytes|] == bytes;
    Header(h.len - drop, partial)
  }

  /** The old node below the cut, and the byte that leads to it. */
  method CutNode<V(!new)>(n: Node<V>, depth: nat, diff: nat, ghost prefix: Key, ghost path: Key)
    returns (c: Byte, h: Header)
    requires Fits(n, prefix, path) && |prefix| == depth && depth + diff < |path|
    ensures c == path[depth + diff] && Describes(h, path[..depth + diff + 1], path)
  {
    hide Layout, Sized, Kids, In, Held, Describes, WF;
    PathLength(n, prefix, path);
    PathEnd(n, prefix, path);
    HeldBytes(n.h, prefix, path);
    var at := depth + diff;
    if n.h.len <= MAX_PREFIX {
      c := n.h.partial[diff];
      h := CutHeader(n.h, diff + 1, n.h.partial[diff + 1..n.h.len]);
      assert path[at + 1..|path|] == n.h.partial[diff + 1..n.h.len];
    } else {
      FitsIsWF(n, prefix, path);
      var l := Minimum(n, prefix);
      InStep(n, prefix, path, l.key, l.value);
      c := l.key[at];
      var len := Min(MAX_PREFIX, n.h.len - (diff + 1));
      h := CutHeader(n.h, diff + 1, l.key[at + 1..at + 1 + len]);
      assert path[at + 1..at + 1 + len] == l.key[at + 1..at + 1 + len];
    }
    CutDescribes(h, path, at + 1);
  }

  lemma {:induction false} PathEnd<V>(n: Node<V>, prefix: Key, path: Key)
    requires Fits(n, prefix, path)
    ensures |path| == |prefix| + n.h.len
  {
  }

  lemma {:induction false} CutDescribes(h: Header, path: Key, at: nat)
    requires at <= |path| && |h.partial| == MAX_PREFIX && h.len == |path| - at
    requires Held(h) == path[at..at + Min(h.len, MAX_PREFIX)]
    ensures Describes(h, path[..at], path)
  {
  }

  lemma {:induction false} UpperHeader(h: Header, prefix: Key, path: Key, diff: nat)
    requires Describes(h, prefix, path) && diff < h.len
    ensures Describes(MakeHeader(diff, h.partial[..Min(MAX_PREFIX, diff)]), prefix, path[..|prefix| + diff])
  {
    hide Held;
    HeldBytes(h, prefix, path);
    assert path[..|prefix| + diff][|prefix|..|prefix| + Min(diff, MAX_PREFIX)] == h.partial[..Min(MAX_PREFIX, diff)];
  }

  /** The compressed path is cut where the key leaves it: a node4 above holds the old node and the new leaf. */
  method SplitPrefix<V(!new)>(n: Node<V>, key: Key, value: V, depth: nat, diff: nat, ghost prefix: Key, ghost path: Key)
    returns (r: Node<V>)
    requires Fits(n, prefix, path) && prefix <= key && |prefix| == depth
    requires depth + diff < |path| && Diverges(path, key, depth, diff)
    ensures WF(r, prefix) && Bound(n, r, key, value) && Was(n, key, None) && (Sorted(n) ==> Sorted(r))
  {
    hide Layout, Sized, Kids, In, Held, Fits, WF, Describes, Sorted;
    PathLength(n, prefix, path);
    UpperHeader(n.h, prefix, path, diff);
    var at := depth + diff;
    var c, h := CutNode(n, depth, diff, prefix, path);
    Rebase(n, prefix, path, h, path[..at + 1]);
    assert path[..at + 1] == path[..at] + [c];
    LeafSorted(Leaf(key, value));
    if Sorted(n) { SortedRebase(n, h); }
    r := Pair(MakeHeader(diff, n.h.partial[..Min(MAX_PREFIX, diff)]), c, n.(h := h), key[at], Leaf(key, value));
    PairFits(r, prefix, path[..at], c, n.(h := h), key, value);
  }

  lemma {:induction false} FreeChild<V(!new)>(n: Node<V>, c: Byte, key: Key)
    requires !n.Leaf? && c in Kids(n) && Free(n, key)
    ensures Free(Kids(n)[c], key)
  {
    forall k, v | In(Kids(n)[c], k, v) ensures Apart(k, key) {
      assert In(n, k, v);
    }
  }

  /** Binding `key` in the child its byte selects binds it in the node. */
  lemma {:induction false} BoundBelow<V(!new)>(n: Node<V>, r: Node<V>, prefix: Key, path: Key, key: Key, value: V,
    child: Node<V>)
    requires Fits(n, prefix, path) && path <= key && |path| < |key|
    requires Added(n, key[|path|], child, r) && WF(child, path + [key[|path|]])
    requires
      if key[|path|] in Kids(n) then Bound(Kids(n)[key[|path|]], child, key, value) else child == Leaf(key, value)
    ensures WF(r, prefix) && Bound(n, r, key, value)
  {
    hide Layout, Sized, Describes, Kids;
    var c := key[|path|];
    FitsSet(n, prefix, path, c, child, r);
    forall k, v ensures In(r, k, v) <==> if k == key then v == value else In(n, k, v) {
      InStep(n, prefix, path, k, v);
      InStep(r, prefix, path, k, v);
    }
  }

  method Insert<V(!new)>(n: Node<V>, key: Key, value: V, depth: nat, signed: bool, ghost prefix: Key)
    returns (r: Node<V>, before: Option<V>)
    requires WF(n, prefix) && prefix <= key && |prefix| == depth && Free(n, key)
    ensures WF(r, prefix) && Bound(n, r, key, value) && Was(n, key, before)
    ensures Sorted(n) ==> (Sorted(r) <==> OrderKept(n, key, depth, signed))
    decreases n
  {
    hide Layout, Sized, Kids, Apart, Sorted, InOrder, Places, RightPlace, OrderKept;
    LeafSorted(Leaf(key, value));
    if n.Leaf? {
      LeafKeeps(n, key, depth, signed);
      if n.key == key {
        return Leaf(key, value), Some(n.value);
      }
      assert In(n, n.key, n.value);
      r := SplitLeaf(n, key, value, depth, prefix);
      return r, None;
    }
    ghost var path :| Fits(n, prefix, path);
    PathLength(n, prefix, path);
    var at := depth;
    if n.h.len != 0 {
      var diff := PrefixMismatch(n, key, depth, prefix, path);
      if diff < n.h.len {
        r := SplitPrefix(n, key, value, depth, diff, prefix, path);
        OffPath(n, prefix, path, key, diff, signed);
        return r, None;
      }
      at := depth + n.h.len;
    }
    PathGoesOn(n, prefix, path, key);
    var c := key[at];
    forall v ensures In(n, key, v) <==> c in Kids(n) && In(Kids(n)[c], key, v) {
      Optimistic(n, prefix, path, key, c, v);
    }
    assert path + [c] <= key;
    OnPath(n, prefix, path, key, signed);
    var child := FindChild(n, c);
    if child.Some? {
      FreeChild(n, c, key);
      var child';
      child', before := Insert(child.value, key, value, at + 1, signed, path + [c]);
      r := ReplaceChild(n, c, child');
      BoundBelow(n, r, prefix, path, key, value, child');
      if Sorted(n) {
        SortedKid(n, c);
        SetSorted(n, c, child', r);
      }
    } else {
      before := None;
      r := AddChild(n, c, Leaf(key, value), signed);
      if Sorted(n) { SetSorted(n, c, Leaf(key, value), r); }
      BoundBelow(n, r, prefix, path, key, value, Leaf(key, value));
    }
  }

  // ----- When the order is kept -----

  /** The new key finds its right place: it splits a leaf or a compressed path, or the node where it lands keeps its
      bytes in order. */
  ghost predicate OrderKept<V>(n: Node<V>, key: Key, depth: nat, signed: bool)
    decreases n
  {
    !n.Leaf? && depth + n.h.len < |key| && Fits(n, key[..depth], key[..depth + n.h.len]) ==>
      var at := depth + n.h.len;
      if key[at] in Kids(n) then OrderKept(Kids(n)[key[at]], key, at + 1, signed) else RightPlace(n, key[at], signed)
  }

  lemma {:induction false} LeafKeeps<V>(n: Node<V>, key: Key, depth: nat, signed: bool)
    requires n.Leaf?
    ensures OrderKept(n, key, depth, signed)
  {
  }

  /** A node has one path. */
  lemma {:induction false} PathUnique<V>(n: Node<V>, prefix: Key, path: Key, path': Key)
    requires Fits(n, prefix, path) && Fits(n, prefix, path')
    ensures path == path'
  {
    hide Layout, Sized, Kids, WF;
    var k, v := LeafBelow(n, prefix, path);
    InStep(n, prefix, path', k, v);
    assert path == k[..|path|] && path' == k[..|path'|];
  }

  lemma {:induction false} OffPath<V>(n: Node<V>, prefix: Key, path: Key, key: Key, diff: nat, signed: bool)
    requires Fits(n, prefix, path) && prefix <= key && diff < n.h.len && Diverges(path, key, |prefix|, diff)
    ensures OrderKept(n, key, |prefix|, signed)
  {
    hide Layout, Sized, Kids, WF, RightPlace;
    PathLength(n, prefix, path);
    var at := |prefix| + n.h.len;
    if at < |key| && Fits(n, prefix, key[..at]) {
      PathUnique(n, prefix, path, key[..at]);
    }
  }

  lemma {:induction false} OnPath<V>(n: Node<V>, prefix: Key, path: Key, key: Key, signed: bool)
    requires Fits(n, prefix, path) && path <= key && |path| < |key|
    ensures prefix <= key && |path| == |prefix| + n.h.len
    ensures var c := key[|path|];
      OrderKept(n, key, |prefix|, signed) <==>
        if c in Kids(n) then OrderKept(Kids(n)[c], key, |path| + 1, signed) else RightPlace(n, c, signed)
  {
    hide Layout, Sized, Kids, WF, RightPlace;
    PathLength(n, prefix, path);
    assert key[..|prefix|] == prefix && key[..|path|] == path;
  }

  /** Setting a child of a sorted node: sorted exactly when the child is and the bytes are in order. */
  lemma {:induction false} SetSorted<V>(n: Node<V>, c: Byte, child: Node<V>, r: Node<V>)
    requires Sorted(n) && Added(n, c, child, r)
    ensures InOrder(n) && (Sorted(r) <==> Sorted(child) && InOrder(r))
  {
    hide Layout, Sized, InOrder, Kids;
    if Sorted(child) && InOrder(r) { SortedSet(n, c, child, r); }
    assert c in Kids(r) && Kids(r)[c] == child;
  }

  /** The unsigned comparison keeps the order always, */
  lemma {:induction false} UnsignedKept<V>(n: Node<V>, key: Key, depth: nat)
    ensures OrderKept(n, key, depth, false)
    decreases n
  {
    hide Kids, Fits;
    if !n.Leaf? && depth + n.h.len < |key| && key[depth + n.h.len] in Kids(n) {
      UnsignedKept(Kids(n)[key[depth + n.h.len]], key, depth + n.h.len + 1);
    }
  }

  /** and the signed one when all bytes are below 128. */
  lemma {:induction false} LowKept<V(!new)>(n: Node<V>, key: Key, depth: nat)
    requires AllLow(n, key)
    ensures OrderKept(n, key, depth, true)
    decreases n
  {
    hide Kids, AllLow, RightPlace, Fits;
    if !n.Leaf? && depth + n.h.len < |key| && Fits(n, key[..depth], key[..depth + n.h.len]) {
      var at := depth + n.h.len;
      if key[at] in Kids(n) {
        LowChild(n, key[at], key);
        LowKept(Kids(n)[key[at]], key, at + 1);
      } else {
        LowPlaces(n, key[..depth], key[..at], key, true);
        PlacesRight(n, key[at], true);
      }
    }
  }

  lemma {:induction false} PlacesRight<V>(n: Node<V>, c: Byte, signed: bool)
    requires Places(n, c, signed)
    ensures RightPlace(n, c, signed)
  {
  }

  /** The new key and all stored ones have only bytes below 128. */
  ghost predicate AllLow<V(!new)>(n: Node<V>, key: Key) {
    Low(key) && forall k, v :: In(n, k, v) ==> Low(k)
  }

  lemma {:induction false} LowChild<V(!new)>(n: Node<V>, c: Byte, key: Key)
    requires AllLow(n, key) && !n.Leaf? && c in Kids(n)
    ensures AllLow(Kids(n)[c], key)
  {
    hide Kids;
    forall k, v | In(Kids(n)[c], k, v) ensures Low(k) {
      assert In(n, k, v);
    }
  }

  lemma {:induction false} LowPlaces<V(!new)>(n: Node<V>, prefix: Key, path: Key, key: Key, signed: bool)
    requires Fits(n, prefix, path) && path <= key && |path| < |key| && (signed ==> AllLow(n, key))
    ensures Places(n, key[|path|], signed)
  {
    if signed && (n.Node4? || n.Node16?) {
      PairsKeys(n.keys, n.children);
      forall c | c in n.keys ensures c < 128 {
        var k, v := LeafUnder(n, prefix, path, c);
      }
      assert key[|path|] in key;
    }
  }

  lemma {:induction false} LeafUnder<V(!new)>(n: Node<V>, prefix: Key, path: Key, c: Byte) returns (k: Key, v: V)
    requires Fits(n, prefix, path) && c in Kids(n)
    ensures In(n, k, v) && c in k
  {
    hide Layout, Sized, Describes, Kids;
    var m := Kids(n)[c];
    assert WF(m, path + [c]);
    if m.Leaf? {
      k, v := m.key, m.value;
    } else {
      var path' :| Fits(m, path + [c], path');
      k, v := LeafBelow(m, path + [c], path');
      assert In(m, k, v);
      KeyStarts(m, path + [c], k, v);
    }
    Shorten(k, path, c, path);
    assert k[|path|] == c;
  }

  lemma {:induction false} KeepsSorted<V>(n: Node<V>, c: Byte, child: Node<V>, r: Node<V>)
    requires Sorted(n) && Sorted(child) && Added(n, c, child, r) && (InOrder(n) ==> InOrder(r))
    ensures Sorted(r)
  {
    hide Layout, Sized, InOrder, Kids;
    SortedSet(n, c, child, r);
  }

  /** A key that stays on the compressed path goes past its end. */
  lemma {:induction false} PathGoesOn<V(!new)>(n: Node<V>, prefix: Key, path: Key, key: Key)
    requires Fits(n, prefix, path) && Free(n, key) && path <= key
    ensures |path| < |key|
  {
    var k, v := LeafBelow(n, prefix, path);
    PathEnds(path, k, key, |path|);
  }
}
