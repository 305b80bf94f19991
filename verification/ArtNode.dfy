/** Nodes of the adaptive radix tree: four layouts of one map from bytes to children. */
module ArtNode {
  import opened Basics

  type Key = seq<Byte>

  const MAX_PREFIX: nat := 16

  /** The common node header: the length of the compressed path and its first 16 bytes. */
  datatype Header = Header(len: nat, partial: seq<Byte>)

  datatype Node<V> =
    | Leaf(key: Key, value: V)
    | Node4(h: Header, keys: seq<Byte>, children: seq<Node<V>>)
    | Node16(h: Header, keys: seq<Byte>, children: seq<Node<V>>)
    | Node48(h: Header, num: nat, index: seq<nat>, slots: seq<Option<Node<V>>>)
    | Node256(h: Header, num: nat, slots: seq<Option<Node<V>>>)

  // ----- The map a node stands for -----

  function Pairs<V>(keys: seq<Byte>, children: seq<Node<V>>): (m: map<Byte, Node<V>>)
    requires |keys| == |children|
    ensures forall c :: c in m ==> m[c] in children
  {
    if keys == [] then map[]
    else Pairs(keys[..|keys| - 1], children[..|keys| - 1])[keys[|keys| - 1] := children[|keys| - 1]]
  }

  /** Byte `c` is mapped to child slot `p` of a Node48. */
  predicate Owns(index: seq<nat>, c: int, p: int) {
    0 <= c < |index| && index[c] == p + 1
  }

  /** The child a Node48 holds for byte `c`. */
  function SlotOf<V>(index: seq<nat>, slots: seq<Option<Node<V>>>, c: Byte): (r: Option<Node<V>>)
    ensures r.Some? ==> r in slots
  {
    if c < |index| && 0 < index[c] <= |slots| then slots[index[c] - 1] else None
  }

  function Indexed<V>(index: seq<nat>, slots: seq<Option<Node<V>>>): map<Byte, Node<V>> {
    map c: Byte | SlotOf(index, slots, c).Some? :: SlotOf(index, slots, c).value
  }

  function Direct<V>(slots: seq<Option<Node<V>>>): map<Byte, Node<V>> {
    map c: Byte | c < |slots| && slots[c].Some? :: slots[c].value
  }

  /** The children by their byte. */
  function Kids<V>(n: Node<V>): (m: map<Byte, Node<V>>)
    ensures forall c :: c in m ==> m[c] < n
  {
    match n
    case Leaf(_, _) => map[]
    case Node4(_, keys, children) => if |keys| == |children| then Pairs(keys, children) else map[]
    case Node16(_, keys, children) => if |keys| == |children| then Pairs(keys, children) else map[]
    case Node48(_, _, index, slots) => Indexed(index, slots)
    case Node256(_, _, slots) => Direct(slots)
  }

  predicate Distinct(keys: seq<Byte>) {
    forall i, j :: 0 <= i < j < |keys| ==> keys[i] != keys[j]
  }

  predicate Ascending(keys: seq<Byte>) {
    forall i, j :: 0 <= i < j < |keys| ==> keys[i] < keys[j]
  }

  /** The small layouts keep their bytes in order. */
  predicate InOrder<V>(n: Node<V>) {
    n.Node4? || n.Node16? ==> Ascending(n.keys)
  }

  /** What each layout guarantees of its arrays. */
  ghost predicate Layout<V>(n: Node<V>) {
    match n
    case Leaf(_, _) => true
    case Node4(_, keys, children) => |keys| == |children| <= 4 && Distinct(keys)
    case Node16(_, keys, children) => |keys| == |children| <= 16 && Distinct(keys)
    case Node48(_, num, index, slots) =>
      && |index| == 256 && |slots| == 48 && num == |Indexed(index, slots)| <= 48
      && Owned(index, slots)
    case Node256(_, num, slots) => |slots| == 256 && num == |Direct(slots)| % 256
  }

  /** How full each layout is between operations. */
  ghost predicate Sized<V>(n: Node<V>) {
    match n
    case Leaf(_, _) => true
    case Node4(_, keys, _) => 2 <= |keys|
    case Node16(_, keys, _) => 4 <= |keys|
    case Node48(_, num, _, _) => 13 <= num
    case Node256(_, _, slots) => 38 <= |Direct(slots)|
  }

  lemma {:induction false} KidCount<V>(n: Node<V>)
    requires !n.Leaf? && Layout(n) && Sized(n)
    ensures |Kids(n)| >= 2
  {
    match n
    case Node4(_, keys, children) => PairsKeys(keys, children);
    case Node16(_, keys, children) => PairsKeys(keys, children);
    case _ =>
  }

  /** The byte index and the child slots of a Node48 name each other one to one. */
  ghost predicate Owned<V>(index: seq<nat>, slots: seq<Option<Node<V>>>) {
    && (forall c :: 0 <= c < |index| ==> index[c] <= |slots|)
    && (forall c, p :: 0 <= p < |slots| && Owns(index, c, p) ==> slots[p].Some?)
    && (forall c, d, p :: Owns(index, c, p) && Owns(index, d, p) && 0 <= p ==> c == d)
    && (forall p :: 0 <= p < |slots| && slots[p].Some? ==> exists c :: Owns(index, c, p))
  }

  lemma {:induction false} PairsAt<V>(keys: seq<Byte>, children: seq<Node<V>>, i: nat)
    requires |keys| == |children| && Distinct(keys) && i < |keys|
    ensures keys[i] in Pairs(keys, children) && Pairs(keys, children)[keys[i]] == children[i]
  {
    if i < |keys| - 1 {
      PairsAt(keys[..|keys| - 1], children[..|keys| - 1], i);
    }
  }

  lemma {:induction false} PairsKeys<V>(keys: seq<Byte>, children: seq<Node<V>>)
    requires |keys| == |children|
    ensures forall c: Byte :: c in Pairs(keys, children) <==> c in keys
    ensures Distinct(keys) ==> |Pairs(keys, children)| == |keys|
  {
    if keys != [] {
      var k := keys[..|keys| - 1];
      PairsKeys(k, children[..|keys| - 1]);
      assert keys == k + [keys[|keys| - 1]];
    }
  }

  /** A map is determined by its keys and values. */
  lemma {:induction false} PairsUnique<V>(keys: seq<Byte>, children: seq<Node<V>>, m: map<Byte, Node<V>>)
    requires |keys| == |children| && Distinct(keys)
    requires forall c: Byte :: c in m <==> c in keys
    requires forall i :: 0 <= i < |keys| ==> keys[i] in m && m[keys[i]] == children[i]
    ensures Pairs(keys, children) == m
  {
    PairsKeys(keys, children);
    var p := Pairs(keys, children);
    forall c | c in p ensures c in m && p[c] == m[c] {
      var i :| 0 <= i < |keys| && keys[i] == c;
      PairsAt(keys, children, i);
    }
    assert p.Keys == m.Keys;
  }
}
