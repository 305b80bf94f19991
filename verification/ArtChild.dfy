/** find_child, add_child and remove_child: every layout, with its growth and shrinkage, keeps one and the
    same map from bytes to children. */
module ArtChild {
  import opened Basics
  import opened ArtNode

  function Min(a: int, b: int): int {
    if a < b then a else b
  }

  /** The bytes of the path that the header holds. */
  function Held(h: Header): seq<Byte> {
    h.partial[..Min(Min(h.len, MAX_PREFIX), |h.partial|)]
  }

  /** Two headers that agree on everything the code reads. */
  predicate SameHeader(h: Header, h': Header) {
    h.len == h'.len && |h.partial| == |h'.partial| == MAX_PREFIX && Held(h) == Held(h')
  }

  /** copy_header into a zeroed node */
  function CopyHeader(h: Header): (r: Header)
    requires |h.partial| == MAX_PREFIX
    ensures SameHeader(h, r)
  {
    var m := Min(h.len, MAX_PREFIX);
    var partial := h.partial[..m] + seq(MAX_PREFIX - m, _ => 0);
    assert partial[..m] == h.partial[..m];
    Header(h.len, partial)
  }

  // ----- find_child -----

  method FindIndex(keys: seq<Byte>, c: Byte) returns (i: nat)
    ensures i <= |keys|
    ensures i < |keys| ==> keys[i] == c
    ensures i == |keys| ==> c !in keys
  {
    i := 0;
    while i < |keys| && keys[i] != c
      invariant i <= |keys| && c !in keys[..i]
    {
      i := i + 1;
    }
  }

  method FindChild<V>(n: Node<V>, c: Byte) returns (r: Option<Node<V>>)
    requires Layout(n) && !n.Leaf?
    ensures r == if c in Kids(n) then Some(Kids(n)[c]) else None
  {
    match n
    case Node4(_, keys, children) => r := FindByKey(keys, children, c);
    case Node16(_, keys, children) => r := FindByKey(keys, children, c);
    case Node48(_, _, index, slots) =>
      NoIndex(index, slots, c);
      r := if index[c] != 0 then slots[index[c] - 1] else None;
    case Node256(_, _, slots) =>
      r := slots[c];
  }

  /** The search of the two small layouts; Node16 takes the lowest matching index below num_children. */
  method FindByKey<V>(keys: seq<Byte>, children: seq<Node<V>>, c: Byte) returns (r: Option<Node<V>>)
    requires |keys| == |children| && Distinct(keys)
    ensures r == if c in Pairs(keys, children) then Some(Pairs(keys, children)[c]) else None
  {
    var i := FindIndex(keys, c);
    PairsKeys(keys, children);
    if i < |keys| {
      PairsAt(keys, children, i);
      r := Some(children[i]);
    } else {
      r := None;
    }
  }

  // ----- add_child -----

  lemma {:induction false} InsertPair<V>(keys: seq<Byte>, children: seq<Node<V>>, i: nat, c: Byte, child: Node<V>)
    requires |keys| == |children| && Distinct(keys) && i <= |keys| && c !in keys
    ensures var keys', children' := keys[..i] + [c] + keys[i..], children[..i] + [child] + children[i..];
      Distinct(keys') && Pairs(keys', children') == Pairs(keys, children)[c := child]
  {
    hide Pairs, Distinct;
    var keys', children' := keys[..i] + [c] + keys[i..], children[..i] + [child] + children[i..];
    var m := Pairs(keys, children)[c := child];
    PairsKeys(keys, children);
    forall j | 0 <= j < |keys'| ensures keys'[j] in m && m[keys'[j]] == children'[j] {
      if j != i { PairsAt(keys, children, if j < i then j else j - 1); }
    }
    InsertDistinct(keys, i, c);
    PairsUnique(keys', children', m);
  }

  lemma {:induction false} InsertDistinct(keys: seq<Byte>, i: nat, c: Byte)
    requires Distinct(keys) && i <= |keys| && c !in keys
    ensures Distinct(keys[..i] + [c] + keys[i..])
    ensures forall k: Byte :: k in keys[..i] + [c] + keys[i..] <==> k == c || k in keys
  {
    assert keys == keys[..i] + keys[i..];
    var keys' := keys[..i] + [c] + keys[i..];
    assert forall j :: 0 <= j < |keys'| && j != i ==> keys'[j] == keys[if j < i then j else j - 1];
  }

  /** Byte comparison: unsigned, or signed as the SSE2 compare of add_child16 does it. */
  predicate Less(signed: bool, a: Byte, b: Byte) {
    if signed then (if a < 128 then a else a - 256) < (if b < 128 then b else b - 256) else a < b
  }

  /** The first position whose key is above `c`. */
  method InsertPosition(keys: seq<Byte>, c: Byte, signed: bool) returns (i: nat)
    ensures i <= |keys|
    ensures forall j :: 0 <= j < i ==> !Less(signed, c, keys[j])
    ensures i < |keys| ==> Less(signed, c, keys[i])
  {
    i := 0;
    while i < |keys| && !Less(signed, c, keys[i])
      invariant i <= |keys|
      invariant forall j :: 0 <= j < i ==> !Less(signed, c, keys[j])
    {
      i := i + 1;
    }
  }

  lemma {:induction false} InsertAscending(keys: seq<Byte>, c: Byte, i: nat)
    requires Ascending(keys) && c !in keys && i <= |keys|
    ensures Ascending(keys[..i] + [c] + keys[i..]) <==> (i > 0 ==> keys[i - 1] < c) && (i < |keys| ==> c < keys[i])
  {
    var keys' := keys[..i] + [c] + keys[i..];
    assert keys'[i] == c && (i > 0 ==> keys'[i - 1] == keys[i - 1]) && (i < |keys| ==> keys'[i + 1] == keys[i]);
    if Ascending(keys') {
      assert i > 0 ==> keys'[i - 1] < keys'[i];
      assert i < |keys| ==> keys'[i] < keys'[i + 1];
    }
    if (i > 0 ==> keys[i - 1] < c) && (i < |keys| ==> c < keys[i]) {
      forall j, k | 0 <= j < k < |keys'| ensures keys'[j] < keys'[k] {
        assert j != i ==> keys'[j] == keys[if j < i then j else j - 1];
        assert k != i ==> keys'[k] == keys[if k < i then k else k - 1];
        assert i > 0 && j < i ==> keys[j] <= keys[i - 1];
        assert i < |keys| && k > i ==> keys[i] <= keys[k - 1];
      }
    }
  }

  predicate Low(keys: seq<Byte>) {
    forall k :: k in keys ==> k < 128
  }

  predicate High(keys: seq<Byte>) {
    forall k :: k in keys ==> k >= 128
  }

  /** The signed comparison finds the right place exactly when it meets no byte of the other half that it takes to be on
      the wrong side. */
  predicate Agrees(keys: seq<Byte>, c: Byte) {
    if c < 128 then Low(keys) || exists k :: k in keys && c < k < 128 else High(keys)
  }

  /** Inserting at the position found keeps the order, with the unsigned comparison always, */
  lemma {:induction false} UnsignedExact(keys: seq<Byte>, c: Byte, i: nat)
    requires Ascending(keys) && c !in keys && i <= |keys|
    requires (forall j :: 0 <= j < i ==> !Less(false, c, keys[j])) && (i < |keys| ==> Less(false, c, keys[i]))
    ensures Ascending(keys[..i] + [c] + keys[i..])
  {
    InsertAscending(keys, c, i);
  }

  /** and with the signed one exactly when it agrees. */
  lemma {:induction false} SignedExact(keys: seq<Byte>, c: Byte, i: nat)
    requires Ascending(keys) && c !in keys && i <= |keys|
    requires (forall j :: 0 <= j < i ==> !Less(true, c, keys[j])) && (i < |keys| ==> Less(true, c, keys[i]))
    ensures Ascending(keys[..i] + [c] + keys[i..]) <==> Agrees(keys, c)
  {
    InsertAscending(keys, c, i);
    if c >= 128 {
      if !High(keys) {
        var j :| 0 <= j < |keys| && keys[j] < 128;
        assert j > 0 ==> keys[0] < keys[j];
      } else {
        assert i > 0 ==> keys[i - 1] in keys;
        assert i < |keys| ==> keys[i] in keys;
      }
    } else if i < |keys| {
      assert keys[i] in keys && c < keys[i] < 128;
    } else if |keys| > 0 {
      assert keys[|keys| - 1] in keys;
      forall j | 0 <= j < |keys| ensures !(c < keys[j] < 128) {
        assert !Less(true, c, keys[j]);
      }
    }
  }

  /** The comparison in use finds the place of `c` among the bytes of `n`. */
  predicate Places<V>(n: Node<V>, c: Byte, signed: bool) {
    signed && (n.Node4? || n.Node16?) ==> Agrees(n.keys, c)
  }

  /** add_child leaves the bytes of a node in order that has them in order. */
  predicate RightPlace<V>(n: Node<V>, c: Byte, signed: bool) {
    match n
    case Node4(_, keys, _) => |keys| < 4 || Places(n, c, signed)
    case Node16(_, keys, _) => |keys| >= 16 || Places(n, c, signed)
    case _ => true
  }

  /** What add_child promises, whatever the layout before and after. */
  ghost predicate Added<V>(n: Node<V>, c: Byte, child: Node<V>, r: Node<V>) {
    && !r.Leaf? && !n.Leaf? && Layout(r) && Kids(r) == Kids(n)[c := child] && SameHeader(n.h, r.h)
    && (Sized(n) ==> Sized(r))
  }

  method AddChild<V>(n: Node<V>, c: Byte, child: Node<V>, signed: bool) returns (r: Node<V>)
    requires !n.Leaf? && Layout(n) && c !in Kids(n) && |n.h.partial| == MAX_PREFIX
    ensures Added(n, c, child, r)
    ensures InOrder(n) ==> (InOrder(r) <==> RightPlace(n, c, signed))
  {
    match n
    case Node4(_, _, _) => r := AddChild4(n, c, child, signed);
    case Node16(_, _, _) => r := AddChild16(n, c, child, signed);
    case Node48(_, _, _, _) => r := AddChild48(n, c, child);
    case Node256(_, _, _) => r := AddChild256(n, c, child);
  }

  method AddChild4<V>(n: Node<V>, c: Byte, child: Node<V>, signed: bool) returns (r: Node<V>)
    requires n.Node4? && Layout(n) && c !in Kids(n) && |n.h.partial| == MAX_PREFIX
    ensures Added(n, c, child, r)
    ensures |n.keys| < 4 ==> r.Node4? && r.h == n.h
    ensures InOrder(n) ==> (InOrder(r) <==> RightPlace(n, c, signed))
  {
    hide Pairs, Distinct, Ascending, Agrees;
    PairsKeys(n.keys, n.children);
    if |n.keys| < 4 {
      var i := InsertPosition(n.keys, c, false);
      if InOrder(n) { UnsignedExact(n.keys, c, i); }
      InsertPair(n.keys, n.children, i, c, child);
      r := Node4(n.h, n.keys[..i] + [c] + n.keys[i..], n.children[..i] + [child] + n.children[i..]);
    } else {
      r := AddChild16(Node16(CopyHeader(n.h), n.keys, n.children), c, child, signed);
    }
  }

  method AddChild16<V>(n: Node<V>, c: Byte, child: Node<V>, signed: bool) returns (r: Node<V>)
    requires n.Node16? && Layout(n) && c !in Kids(n) && |n.h.partial| == MAX_PREFIX
    ensures Added(n, c, child, r)
    ensures InOrder(n) ==> (InOrder(r) <==> RightPlace(n, c, signed))
  {
    hide Pairs, Distinct, Ascending, Agrees, Owned, Indexed;
    PairsKeys(n.keys, n.children);
    if |n.keys| < 16 {
      var i := InsertPosition(n.keys, c, signed);
      if InOrder(n) {
        if signed { SignedExact(n.keys, c, i); } else { UnsignedExact(n.keys, c, i); }
      }
      InsertPair(n.keys, n.children, i, c, child);
      r := Node16(n.h, n.keys[..i] + [c] + n.keys[i..], n.children[..i] + [child] + n.children[i..]);
    } else {
      var index, slots := SpreadKeys(n.keys, n.children);
      r := AddChild48(Node48(CopyHeader(n.h), 16, index, slots), c, child);
    }
  }

  /** Linking a free slot into the byte index. */
  lemma {:induction false} OwnSlot<V>(index: seq<nat>, slots: seq<Option<Node<V>>>, c: Byte, p: nat, child: Node<V>)
    requires |index| == 256 && Owned(index, slots) && p < |slots| && slots[p].None? && index[c] == 0
    ensures Owned(index[c := p + 1], slots[p := Some(child)])
    ensures Indexed(index[c := p + 1], slots[p := Some(child)]) == Indexed(index, slots)[c := child]
    ensures c !in Indexed(index, slots)
  {
    OwnStill(index, slots, c, p, child);
    var index', slots' := index[c := p + 1], slots[p := Some(child)];
    forall d: Byte | d != c ensures SlotOf(index', slots', d) == SlotOf(index, slots, d) {
      if index[d] != 0 { assert Owns(index, d, index[d] - 1); }
    }
    assert SlotOf(index', slots', c) == Some(child);
    var m, m' := Indexed(index, slots)[c := child], Indexed(index', slots');
    assert m.Keys == m'.Keys;
  }

  lemma {:induction false} OwnStill<V>(index: seq<nat>, slots: seq<Option<Node<V>>>, c: Byte, p: nat, child: Node<V>)
    requires |index| == 256 && Owned(index, slots) && p < |slots| && slots[p].None? && index[c] == 0
    ensures Owned(index[c := p + 1], slots[p := Some(child)])
  {
    var index', slots' := index[c := p + 1], slots[p := Some(child)];
    assert forall d, q :: d != c ==> Owns(index', d, q) == Owns(index, d, q);
    assert Owns(index', c, p);
    forall q | 0 <= q < |slots'| && slots'[q].Some? ensures exists d :: Owns(index', d, q) {
      if q != p {
        var d :| Owns(index, d, q);
        assert Owns(index', d, q);
      }
    }
  }

  /** The Node48 that a full Node16 turns into. */
  method SpreadKeys<V>(keys: seq<Byte>, children: seq<Node<V>>) returns (index: seq<nat>, slots: seq<Option<Node<V>>>)
    requires |keys| == |children| <= 48 && Distinct(keys)
    ensures |index| == 256 && |slots| == 48 && Owned(index, slots)
    ensures Indexed(index, slots) == Pairs(keys, children)
  {
    index := seq(256, _ => 0);
    slots := seq(48, _ => None);
    var i := 0;
    NothingOwned<V>();
    while i < |keys|
      invariant i <= |keys| && |index| == 256 && |slots| == 48
      invariant Owned(index, slots) && Indexed(index, slots) == Pairs(keys[..i], children[..i])
      invariant forall p :: i <= p < 48 ==> slots[p].None?
      invariant forall c: Byte :: index[c] != 0 ==> c in keys[..i]
    {
      assert keys[i] !in keys[..i];
      OwnSlot(index, slots, keys[i], i, children[i]);
      NextPair(keys, children, i);
      slots := slots[i := Some(children[i])];
      index := index[keys[i] := i + 1];
      i := i + 1;
    }
    assert keys[..i] == keys && children[..i] == children;
  }

  lemma {:induction false} NextPair<V>(keys: seq<Byte>, children: seq<Node<V>>, i: nat)
    requires |keys| == |children| && i < |keys|
    ensures Pairs(keys[..i + 1], children[..i + 1]) == Pairs(keys[..i], children[..i])[keys[i] := children[i]]
    ensures forall c: Byte :: c in keys[..i] || c == keys[i] <==> c in keys[..i + 1]
  {
    assert keys[..i + 1][..i] == keys[..i] && children[..i + 1][..i] == children[..i];
    assert keys[..i + 1] == keys[..i] + [keys[i]];
  }

  /** A Node48 with fewer than 48 children has a free slot. */
  lemma {:induction false} FreeSlot<V>(index: seq<nat>, slots: seq<Option<Node<V>>>)
    requires |index| == 256 && Owned(index, slots) && |Indexed(index, slots)| < |slots|
    ensures exists p :: 0 <= p < |slots| && slots[p].None?
  {
    if forall p :: 0 <= p < |slots| ==> slots[p].Some? {
      SlotCount(index, slots, Indexed(index, slots), |slots|);
    }
  }

  lemma {:induction false} SlotCount<V>(index: seq<nat>, slots: seq<Option<Node<V>>>, m: map<Byte, Node<V>>, n: nat)
    requires n <= |slots| && |index| == 256 && Owned(index, slots)
    requires forall p :: 0 <= p < n ==> slots[p].Some?
    requires forall c: Byte :: 0 < index[c] <= n ==> c in m
    ensures |m| >= n
  {
    if n > 0 {
      assert slots[n - 1].Some?;
      var c :| Owns(index, c, n - 1);
      var b: Byte := c;
      SlotCount(index, slots, m - {b}, n - 1);
      assert m == (m - {b})[b := m[b]];
    }
  }

  lemma {:induction false} NoIndex<V>(index: seq<nat>, slots: seq<Option<Node<V>>>, c: Byte)
    requires |index| == 256 && Owned(index, slots)
    ensures c in Indexed(index, slots) <==> index[c] != 0
    ensures index[c] <= |slots|
  {
    if index[c] != 0 { assert Owns(index, c, index[c] - 1); }
  }

  method AddChild48<V>(n: Node<V>, c: Byte, child: Node<V>) returns (r: Node<V>)
    requires n.Node48? && Layout(n) && c !in Kids(n) && |n.h.partial| == MAX_PREFIX
    ensures Added(n, c, child, r) && InOrder(r)
  {
    if n.num < 48 {
      FreeSlot(n.index, n.slots);
      var pos := 0;
      while n.slots[pos].Some?
        invariant pos < 48 && forall p :: 0 <= p < pos ==> n.slots[p].Some?
        decreases 48 - pos
      {
        pos := pos + 1;
      }
      NoIndex(n.index, n.slots, c);
      OwnSlot(n.index, n.slots, c, pos, child);
      r := Node48(n.h, n.num + 1, n.index[c := pos + 1], n.slots[pos := Some(child)]);
    } else {
      var slots := Unindex(n.index, n.slots);
      r := AddChild256(Node256(CopyHeader(n.h), n.num, slots), c, child);
    }
  }

  /** The children whose byte is below `i`. */
  ghost function Upto<V>(m: map<Byte, Node<V>>, i: nat): map<Byte, Node<V>> {
    map c | c in m && c < i :: m[c]
  }

  lemma {:induction false} UptoNext<V>(m: map<Byte, Node<V>>, i: Byte)
    ensures Upto(m, i + 1) == if i in m then Upto(m, i)[i := m[i]] else Upto(m, i)
    ensures i !in Upto(m, i)
  {
    var u := if i in m then Upto(m, i)[i := m[i]] else Upto(m, i);
    assert Upto(m, i + 1).Keys == u.Keys;
  }

  lemma {:induction false} UptoEnds<V>(m: map<Byte, Node<V>>)
    ensures Upto(m, 0) == map[] && Upto(m, 256) == m
  {
  }

  /** The child array of the Node256 that a full Node48 turns into. */
  method Unindex<V>(index: seq<nat>, slots: seq<Option<Node<V>>>) returns (all: seq<Option<Node<V>>>)
    requires |index| == 256 && Owned(index, slots)
    ensures |all| == 256 && Direct(all) == Indexed(index, slots)
  {
    ghost var m := Indexed(index, slots);
    forall c: Byte ensures c in m <==> index[c] != 0 { NoIndex(index, slots, c); }
    all := seq(256, _ => None);
    UptoEnds(m);
    assert Direct(all) == map[];
    for i := 0 to 256
      invariant |all| == 256 && Direct(all) == Upto(m, i)
      invariant forall c: Byte :: i <= c ==> all[c].None?
    {
      UptoNext(m, i);
      if index[i] != 0 {
        DirectSet(all, i, slots[index[i] - 1].value);
        all := all[i := slots[index[i] - 1]];
      }
    }
  }

  lemma {:induction false} DirectSet<V>(slots: seq<Option<Node<V>>>, c: Byte, child: Node<V>)
    requires |slots| == 256
    ensures Direct(slots[c := Some(child)]) == Direct(slots)[c := child]
  {
    assert Direct(slots[c := Some(child)]).Keys == Direct(slots)[c := child].Keys;
  }

  /** num_children is a byte: with 256 children it reads 0. */
  method AddChild256<V>(n: Node<V>, c: Byte, child: Node<V>) returns (r: Node<V>)
    requires n.Node256? && Layout(n) && c !in Kids(n) && |n.h.partial| == MAX_PREFIX
    ensures Added(n, c, child, r) && InOrder(r)
  {
    DirectSet(n.slots, c, child);
    r := Node256(n.h, (n.num + 1) % 256, n.slots[c := Some(child)]);
  }

  /** Overwriting the link to a child in place, as the recursion on its address does. */
  method ReplaceChild<V>(n: Node<V>, c: Byte, child: Node<V>) returns (r: Node<V>)
    requires !n.Leaf? && Layout(n) && c in Kids(n) && |n.h.partial| == MAX_PREFIX
    ensures Added(n, c, child, r)
    ensures r.h == n.h && (InOrder(n) ==> InOrder(r))
  {
    match n
    case Node4(h, keys, children) =>
      var i := ReplacePair(keys, children, c, child);
      r := Node4(h, keys, children[i := child]);
    case Node16(h, keys, children) =>
      var i := ReplacePair(keys, children, c, child);
      r := Node16(h, keys, children[i := child]);
    case Node48(h, num, index, slots) =>
      NoIndex(index, slots, c);
      ReplaceSlot(index, slots, c, child);
      r := Node48(h, num, index, slots[index[c] - 1 := Some(child)]);
    case Node256(h, num, slots) =>
      DirectSet(slots, c, child);
      r := Node256(h, num, slots[c := Some(child)]);
      SameSize(Direct(slots), c, child);
  }

  lemma {:induction false} SameSize<V>(m: map<Byte, Node<V>>, c: Byte, child: Node<V>)
    requires c in m
    ensures |m[c := child]| == |m|
  {
    assert m[c := child].Keys == m.Keys;
  }

  method ReplacePair<V>(keys: seq<Byte>, children: seq<Node<V>>, c: Byte, child: Node<V>) returns (i: nat)
    requires |keys| == |children| && Distinct(keys) && c in Pairs(keys, children)
    ensures i < |keys| && keys[i] == c && Pairs(keys, children[i := child]) == Pairs(keys, children)[c := child]
  {
    PairsKeys(keys, children);
    i := FindIndex(keys, c);
    forall j | 0 <= j < |keys|
      ensures keys[j] in Pairs(keys, children) && Pairs(keys, children)[keys[j]] == children[j]
    {
      PairsAt(keys, children, j);
    }
    PairsUnique(keys, children[i := child], Pairs(keys, children)[c := child]);
  }

  lemma {:induction false} ReplaceSlot<V>(index: seq<nat>, slots: seq<Option<Node<V>>>, c: Byte, child: Node<V>)
    requires |index| == 256 && |slots| == 48 && Owned(index, slots) && index[c] != 0
    ensures var slots' := slots[index[c] - 1 := Some(child)];
      Owned(index, slots') && Indexed(index, slots') == Indexed(index, slots)[c := child]
      && |Indexed(index, slots')| == |Indexed(index, slots)|
  {
    hide Indexed, Owned;
    NoIndex(index, slots, c);
    SlotIs(index, slots, c, Some(child));
    SlotsMap(index, slots, index, slots[index[c] - 1 := Some(child)], c, Some(child));
    ReplaceOwned(index, slots, c, child);
    SameSize(Indexed(index, slots), c, child);
  }

  lemma {:induction false} ReplaceOwned<V>(index: seq<nat>, slots: seq<Option<Node<V>>>, c: Byte, child: Node<V>)
    requires |index| == 256 && Owned(index, slots) && 0 < index[c] <= |slots|
    ensures Owned(index, slots[index[c] - 1 := Some(child)])
  {
    assert Owns(index, c, index[c] - 1);
  }

  /** Overwriting the slot of `c` leaves the other bytes' slots alone. */
  lemma {:induction false} SlotIs<V>(index: seq<nat>, slots: seq<Option<Node<V>>>, c: Byte, v: Option<Node<V>>)
    requires |index| == 256 && Owned(index, slots) && index[c] != 0
    ensures index[c] <= |slots|
    ensures SlotOf(index, slots[index[c] - 1 := v], c) == v
    ensures forall d: Byte :: d != c ==> SlotOf(index, slots[index[c] - 1 := v], d) == SlotOf(index, slots, d)
  {
    assert Owns(index, c, index[c] - 1);
    forall d: Byte | d != c ensures SlotOf(index, slots[index[c] - 1 := v], d) == SlotOf(index, slots, d) {
      if index[d] != 0 { assert Owns(index, d, index[d] - 1); }
    }
  }

  /** Two Node48 arrays that differ in the slot of one byte. */
  lemma {:induction false} SlotsMap<V>(index: seq<nat>, slots: seq<Option<Node<V>>>,
    index': seq<nat>, slots': seq<Option<Node<V>>>, c: Byte, v: Option<Node<V>>)
    requires SlotOf(index', slots', c) == v
    requires forall d: Byte :: d != c ==> SlotOf(index', slots', d) == SlotOf(index, slots, d)
    ensures v.Some? ==> Indexed(index', slots') == Indexed(index, slots)[c := v.value]
    ensures v.None? ==> Indexed(index', slots') == Indexed(index, slots) - {c}
  {
    hide SlotOf;
    if v.Some? {
      assert Indexed(index', slots').Keys == Indexed(index, slots)[c := v.value].Keys;
    } else {
      assert Indexed(index', slots').Keys == Indexed(index, slots).Keys - {c};
    }
  }

  // ----- remove_child -----

  /** What remove_child promises when more than one child is left. */
  ghost predicate Removed<V>(n: Node<V>, c: Byte, r: Node<V>) {
    && !r.Leaf? && !n.Leaf? && Layout(r) && Kids(r) == Kids(n) - {c} && SameHeader(n.h, r.h)
    && (Sized(n) ==> Sized(r))
  }

  lemma {:induction false} RemovePair<V>(keys: seq<Byte>, children: seq<Node<V>>, i: nat)
    requires |keys| == |children| && Distinct(keys) && i < |keys|
    ensures var keys', children' := keys[..i] + keys[i + 1..], children[..i] + children[i + 1..];
      Distinct(keys') && Pairs(keys', children') == Pairs(keys, children) - {keys[i]}
  {
    var keys', children' := keys[..i] + keys[i + 1..], children[..i] + children[i + 1..];
    var m := Pairs(keys, children) - {keys[i]};
    PairsKeys(keys, children);
    RemoveKey(keys, i);
    forall j | 0 <= j < |keys'| ensures keys'[j] in m && m[keys'[j]] == children'[j] {
      PairsAt(keys, children, if j < i then j else j + 1);
    }
    PairsUnique(keys', children', m);
  }

  lemma {:induction false} RemoveKey(keys: seq<Byte>, i: nat)
    requires Distinct(keys) && i < |keys|
    ensures Distinct(keys[..i] + keys[i + 1..])
    ensures forall c: Byte :: c in keys[..i] + keys[i + 1..] <==> c in keys && c != keys[i]
  {
    var keys' := keys[..i] + keys[i + 1..];
    assert forall j :: 0 <= j < |keys'| ==> keys'[j] == keys[if j < i then j else j + 1];
    forall c: Byte | c in keys && c != keys[i] ensures c in keys' {
      var j :| 0 <= j < |keys| && keys[j] == c;
      assert keys'[if j < i then j else j - 1] == c;
    }
  }

  method RemoveChild16<V>(n: Node<V>, c: Byte) returns (r: Node<V>)
    requires n.Node16? && Layout(n) && c in Kids(n) && |n.h.partial| == MAX_PREFIX && |n.keys| >= 4
    ensures Removed(n, c, r) && (InOrder(n) ==> InOrder(r))
  {
    hide Ascending, Distinct;
    PairsKeys(n.keys, n.children);
    var i := FindIndex(n.keys, c);
    RemovePair(n.keys, n.children, i);
    if InOrder(n) { RemoveAscending(n.keys, i); }
    var keys, children := n.keys[..i] + n.keys[i + 1..], n.children[..i] + n.children[i + 1..];
    if |keys| == 3 {
      r := Node4(CopyHeader(n.h), keys, children);
    } else {
      r := Node16(n.h, keys, children);
    }
  }

  method RemoveChild48<V>(n: Node<V>, c: Byte) returns (r: Node<V>)
    requires n.Node48? && Layout(n) && c in Kids(n) && |n.h.partial| == MAX_PREFIX
    ensures Removed(n, c, r) && InOrder(r)
  {
    hide Ascending, Distinct, Owned, Pairs, Indexed;
    NoIndex(n.index, n.slots, c);
    ReleaseSlot(n.index, n.slots, c);
    var pos := n.index[c];
    var index, slots := n.index[c := 0], n.slots[pos - 1 := None];
    if n.num - 1 == 12 {
      var keys, children := Gather(index, slots);
      PairsKeys(keys, children);
      r := Node16(CopyHeader(n.h), keys, children);
    } else {
      r := Node48(n.h, n.num - 1, index, slots);
    }
  }

  lemma {:induction false} ReleaseSlot<V>(index: seq<nat>, slots: seq<Option<Node<V>>>, c: Byte)
    requires |index| == 256 && |slots| == 48 && Owned(index, slots) && index[c] != 0
    ensures var index', slots' := index[c := 0], slots[index[c] - 1 := None];
      Owned(index', slots') && Indexed(index', slots') == Indexed(index, slots) - {c}
      && |Indexed(index', slots')| == |Indexed(index, slots)| - 1
  {
    hide Indexed, Owned;
    NoIndex(index, slots, c);
    SlotIs(index, slots, c, None);
    var index', slots' := index[c := 0], slots[index[c] - 1 := None];
    assert forall d: Byte :: d != c ==> SlotOf(index', slots', d) == SlotOf(index, slots', d);
    SlotsMap(index, slots, index', slots', c, None);
    ReleaseOwned(index, slots, c, index[c] - 1);
    DropOne(Indexed(index, slots), c);
  }

  lemma {:induction false} DropOne<K, V>(m: map<K, V>, k: K)
    requires k in m
    ensures |m - {k}| == |m| - 1
  {
    assert m == (m - {k})[k := m[k]];
  }

  lemma {:induction false} ReleaseOwned<V>(index: seq<nat>, slots: seq<Option<Node<V>>>, c: Byte, p: nat)
    requires |index| == 256 && Owned(index, slots) && Owns(index, c, p) && p < |slots|
    ensures Owned(index[c := 0], slots[p := None])
  {
    var index', slots' := index[c := 0], slots[p := None];
    assert forall d, q :: d != c ==> Owns(index', d, q) == Owns(index, d, q);
    assert forall q :: 0 <= q ==> !Owns(index', c, q);
    forall q | 0 <= q < |slots'| && slots'[q].Some? ensures exists d :: Owns(index', d, q) {
      var d :| Owns(index, d, q);
      assert Owns(index', d, q);
    }
  }

  /** The children of a Node48 in byte order. */
  method Gather<V>(index: seq<nat>, slots: seq<Option<Node<V>>>) returns (keys: seq<Byte>, children: seq<Node<V>>)
    requires |index| == 256 && Owned(index, slots)
    ensures |keys| == |children| && Ascending(keys) && Distinct(keys) && Pairs(keys, children) == Indexed(index, slots)
  {
    hide Ascending, Distinct;
    ghost var m := Indexed(index, slots);
    forall c: Byte ensures c in m <==> index[c] != 0 { NoIndex(index, slots, c); }
    keys, children := [], [];
    NoneAscends();
    UptoEnds(m);
    for i := 0 to 256
      invariant |keys| == |children| && Ascending(keys) && Distinct(keys) && Pairs(keys, children) == Upto(m, i)
      invariant forall k :: k in keys ==> k < i
    {
      UptoNext(m, i);
      if index[i] != 0 {
        AppendPair(keys, children, i, slots[index[i] - 1].value);
        AppendAscending(keys, i);
        keys, children := keys + [i], children + [slots[index[i] - 1].value];
      }
    }
  }

  lemma {:induction false} AppendAscending(keys: seq<Byte>, c: Byte)
    requires Ascending(keys) && forall k :: k in keys ==> k < c
    ensures Ascending(keys + [c])
  {
    assert forall j :: 0 <= j < |keys| ==> keys[j] in keys;
  }

  lemma {:induction false} NoneAscends()
    ensures Ascending([]) && Distinct([])
  {
  }

  lemma {:induction false} RemoveAscending(keys: seq<Byte>, i: nat)
    requires Ascending(keys) && i < |keys|
    ensures Ascending(keys[..i] + keys[i + 1..])
  {
  }

  lemma {:induction false} AppendPair<V>(keys: seq<Byte>, children: seq<Node<V>>, c: Byte, child: Node<V>)
    requires |keys| == |children| && Distinct(keys) && c !in keys
    ensures Distinct(keys + [c]) && Pairs(keys + [c], children + [child]) == Pairs(keys, children)[c := child]
  {
    assert (keys + [c])[..|keys|] == keys && (children + [child])[..|keys|] == children;
  }

  method RemoveChild256<V>(n: Node<V>, c: Byte) returns (r: Node<V>)
    requires n.Node256? && Layout(n) && c in Kids(n) && |n.h.partial| == MAX_PREFIX
    ensures Removed(n, c, r) && InOrder(r)
  {
    hide Direct;
    DirectClear(n.slots, c);
    ByteDecrement(|Direct(n.slots)|);
    var slots, num := n.slots[c := None], (n.num + 255) % 256;
    if num == 37 {
      var index, few := Compact(slots);
      r := Node48(CopyHeader(n.h), num, index, few);
    } else {
      r := Node256(n.h, num, slots);
    }
  }

  lemma {:induction false} ByteDecrement(k: nat)
    requires 0 < k <= 256
    ensures (k % 256 + 255) % 256 == k - 1
  {
  }

  lemma {:induction false} DirectClear<V>(slots: seq<Option<Node<V>>>, c: Byte)
    requires |slots| == 256 && c in Direct(slots)
    ensures Direct(slots[c := None]) == Direct(slots) - {c}
    ensures |Direct(slots[c := None])| == |Direct(slots)| - 1 < 256
  {
    DropOne(Direct(slots), c);
    assert Direct(slots[c := None]).Keys == Direct(slots).Keys - {c};
    BytesBound(Direct(slots).Keys);
  }

  lemma {:induction false} BytesBound(s: set<Byte>)
    ensures |s| <= 256
  {
    assert s <= AllBelow(256);
    SubsetSize(s, AllBelow(256));
  }

  function AllBelow(n: nat): (s: set<Byte>)
    requires n <= 256
    ensures |s| == n
    ensures forall b: Byte :: b in s <==> b < n
  {
    if n == 0 then {} else AllBelow(n - 1) + {n - 1}
  }

  /** The Node48 that a shrunken Node256 turns into. */
  method Compact<V>(all: seq<Option<Node<V>>>) returns (index: seq<nat>, slots: seq<Option<Node<V>>>)
    requires |all| == 256 && |Direct(all)| <= 48
    ensures |index| == 256 && |slots| == 48 && Owned(index, slots) && Indexed(index, slots) == Direct(all)
  {
    hide Owned, Indexed;
    ghost var m := Direct(all);
    index := seq(256, _ => 0);
    slots := seq(48, _ => None);
    var pos := 0;
    UptoEnds(m);
    NothingOwned<V>();
    for i := 0 to 256
      invariant |index| == 256 && |slots| == 48 && Owned(index, slots) && Indexed(index, slots) == Upto(m, i)
      invariant pos == |Upto(m, i)|
      invariant forall p :: pos <= p < 48 ==> slots[p].None?
      invariant forall c: Byte :: i <= c ==> index[c] == 0
    {
      UptoNext(m, i);
      UptoFits(m, i);
      if all[i].Some? {
        OwnSlot(index, slots, i, pos, all[i].value);
        slots := slots[pos := all[i]];
        index := index[i := pos + 1];
        pos := pos + 1;
      }
    }
  }

  lemma {:induction false} UptoFits<V>(m: map<Byte, Node<V>>, i: Byte)
    ensures i in m ==> |Upto(m, i)| < |m|
  {
    if i in m {
      SubsetSize(Upto(m, i).Keys, m.Keys - {i});
      assert |Upto(m, i)| == |Upto(m, i).Keys| && |m| == |m.Keys|;
    }
  }

  lemma {:induction false} NothingOwned<V>()
    ensures Owned(seq<nat>(256, _ => 0), seq<Option<Node<V>>>(48, _ => None))
    ensures Indexed(seq<nat>(256, _ => 0), seq<Option<Node<V>>>(48, _ => None)) == map[]
  {
  }
}
