/** recursive_iter: which entries a callback sees, and in which order. */
module ArtIter {
  import opened Basics
  import opened ArtNode
  import opened ArtChild
  import opened ArtTree
  import opened ArtSearch

  type Entry<V> = (Key, V)

  /** The bytes of `m` from `i` on, ascending. */
  function BytesFrom<V>(m: map<Byte, Node<V>>, i: nat): (bytes: seq<Byte>)
    requires i <= 256
    ensures forall c: Byte :: c in bytes <==> c in m && i <= c
    ensures Ascending(bytes)
    decreases 256 - i
  {
    if i == 256 then []
    else if i in m then FrontAscends(i, BytesFrom(m, i + 1)); [i] + BytesFrom(m, i + 1)
    else BytesFrom(m, i + 1)
  }

  lemma {:induction false} FrontAscends(c: Byte, bytes: seq<Byte>)
    requires Ascending(bytes) && forall b :: b in bytes ==> c < b
    ensures Ascending([c] + bytes)
  {
    assert forall j :: 0 <= j < |bytes| ==> bytes[j] in bytes;
  }

  /** The bytes of the children in the order in which the iteration visits them. */
  function Visits<V>(n: Node<V>): seq<Byte> {
    if n.Node4? || n.Node16? then n.keys else BytesFrom(Kids(n), 0)
  }

  lemma {:induction false} VisitsKids<V>(n: Node<V>)
    requires Layout(n)
    ensures forall c: Byte :: c in Visits(n) <==> c in Kids(n)
    ensures InOrder(n) ==> Ascending(Visits(n))
  {
    if n.Node4? || n.Node16? { PairsKeys(n.keys, n.children); }
  }

  /** All entries of the subtree, in the order of the iteration. */
  function Entries<V>(n: Node<V>): seq<Entry<V>>
    decreases n, 1, 0
  {
    if n.Leaf? then [(n.key, n.value)] else Under(n, Visits(n))
  }

  function Under<V>(n: Node<V>, bytes: seq<Byte>): seq<Entry<V>>
    decreases n, 0, |bytes|
  {
    if bytes == [] then []
    else (if bytes[0] in Kids(n) then Entries(Kids(n)[bytes[0]]) else []) + Under(n, bytes[1..])
  }

  // ----- The callback -----

  /** What is seen when the iteration stops after the first entry on which the callback is not 0. */
  function Until<V>(es: seq<Entry<V>>, cb: (Key, V) -> int): seq<Entry<V>> {
    if es == [] then [] else if cb(es[0].0, es[0].1) != 0 then [es[0]] else [es[0]] + Until(es[1..], cb)
  }

  /** The result: that of the callback which stopped it, or 0. */
  function Result<V>(es: seq<Entry<V>>, cb: (Key, V) -> int): int {
    if es == [] then 0 else if cb(es[0].0, es[0].1) != 0 then cb(es[0].0, es[0].1) else Result(es[1..], cb)
  }

  lemma {:induction false} Tail<T>(a: seq<T>, b: seq<T>)
    requires a != []
    ensures (a + b)[0] == a[0] && (a + b)[1..] == a[1..] + b && a == [a[0]] + a[1..]
  {
  }

  lemma {:induction false} Regroup<T>(a: seq<T>, b: seq<T>, c: seq<T>)
    ensures a + (b + c) == (a + b) + c
  {
  }

  lemma {:induction false} ResultConcat<V>(a: seq<Entry<V>>, b: seq<Entry<V>>, cb: (Key, V) -> int)
    ensures Result(a + b, cb) == if Result(a, cb) != 0 then Result(a, cb) else Result(b, cb)
  {
    if a == [] {
      assert a + b == b;
    } else {
      Tail(a, b);
      ResultConcat(a[1..], b, cb);
    }
  }

  lemma {:induction false} UntilConcat<V>(a: seq<Entry<V>>, b: seq<Entry<V>>, cb: (Key, V) -> int)
    ensures Until(a + b, cb) == if Result(a, cb) != 0 then Until(a, cb) else a + Until(b, cb)
  {
    if a == [] {
      assert a + b == b;
    } else {
      Tail(a, b);
      UntilConcat(a[1..], b, cb);
      Regroup([a[0]], a[1..], Until(b, cb));
    }
  }

  /** The seen entries are a first part of all of them: all of them exactly when the result is 0. */
  lemma {:induction false} UntilPrefix<V>(es: seq<Entry<V>>, cb: (Key, V) -> int)
    ensures Until(es, cb) <= es
    ensures Result(es, cb) == 0 <==> forall e :: e in es ==> cb(e.0, e.1) == 0
    ensures Result(es, cb) == 0 ==> Until(es, cb) == es
    ensures Result(es, cb) != 0 ==>
      var seen := Until(es, cb); seen != [] && Result(es, cb) == cb(seen[|seen| - 1].0, seen[|seen| - 1].1)
    ensures forall i :: 0 <= i < |Until(es, cb)| - 1 ==> cb(Until(es, cb)[i].0, Until(es, cb)[i].1) == 0
  {
    if es != [] && cb(es[0].0, es[0].1) == 0 {
      UntilPrefix(es[1..], cb);
    }
  }

  // ----- recursive_iter -----

  lemma {:induction false} UnderSplit<V>(n: Node<V>, a: seq<Byte>, b: seq<Byte>)
    ensures Under(n, a + b) == Under(n, a) + Under(n, b)
  {
    hide Entries, Kids;
    if a == [] {
      assert a + b == b;
    } else {
      Tail(a, b);
      UnderSplit(n, a[1..], b);
      Regroup(if a[0] in Kids(n) then Entries(Kids(n)[a[0]]) else [], Under(n, a[1..]), Under(n, b));
    }
  }

  /** The callback stops in the middle, so it stops the whole. */
  lemma {:induction false} StopsAll<V>(n: Node<V>, done: seq<Byte>, c: Byte, rest: seq<Byte>, cb: (Key, V) -> int)
    requires c in Kids(n) && Result(Under(n, done), cb) == 0
    ensures Result(Entries(Kids(n)[c]), cb) != 0 ==>
      && Until(Under(n, done + [c] + rest), cb) == Under(n, done) + Until(Entries(Kids(n)[c]), cb)
      && Result(Under(n, done + [c] + rest), cb) == Result(Entries(Kids(n)[c]), cb)
    ensures Result(Entries(Kids(n)[c]), cb) == 0 ==> Result(Under(n, done + [c]), cb) == 0
    ensures Under(n, done + [c]) == Under(n, done) + Entries(Kids(n)[c])
  {
    hide Entries, Until, Result;
    var es := Entries(Kids(n)[c]);
    assert Under(n, [c]) == es;
    UnderSplit(n, done, [c]);
    UnderSplit(n, done + [c], rest);
    UntilConcat(Under(n, done) + es, Under(n, rest), cb);
    ResultConcat(Under(n, done) + es, Under(n, rest), cb);
    UntilConcat(Under(n, done), es, cb);
    ResultConcat(Under(n, done), es, cb);
  }

  /** recursive_iter */
  method Iterate<V>(n: Node<V>, cb: (Key, V) -> int, ghost prefix: Key) returns (res: int, seen: seq<Entry<V>>)
    requires WF(n, prefix)
    ensures seen == Until(Entries(n), cb) && res == Result(Entries(n), cb)
    decreases n, 1
  {
    if n.Leaf? {
      return cb(n.key, n.value), [(n.key, n.value)];
    }
    ghost var path :| Fits(n, prefix, path);
    if n.Node4? || n.Node16? {
      res, seen := IterSmall(n, cb, prefix, path);
    } else {
      res, seen := IterLarge(n, cb, prefix, path);
    }
  }

  /** The loops over the child arrays of the small layouts. */
  method IterSmall<V>(n: Node<V>, cb: (Key, V) -> int, ghost prefix: Key, ghost path: Key)
    returns (res: int, seen: seq<Entry<V>>)
    requires Fits(n, prefix, path) && (n.Node4? || n.Node16?)
    ensures seen == Until(Entries(n), cb) && res == Result(Entries(n), cb)
    decreases n, 0
  {
    hide Until, Result, Under, Entries, Kids, Pairs, Layout, Sized, Describes, Distinct;
    SmallFacts(n);
    NoneUnder(n, cb);
    seen := [];
    for i := 0 to |n.keys|
      invariant seen == Under(n, n.keys[..i]) && Result(seen, cb) == 0
    {
      PairsAt(n.keys, n.children, i);
      var more;
      res, more := Iterate(n.children[i], cb, path + [n.keys[i]]);
      assert n.keys == n.keys[..i] + [n.keys[i]] + n.keys[i + 1..];
      assert n.keys[..i + 1] == n.keys[..i] + [n.keys[i]];
      StopsAll(n, n.keys[..i], n.keys[i], n.keys[i + 1..], cb);
      if res != 0 {
        return res, seen + more;
      }
      WholeUntil(Entries(n.children[i]), cb);
      seen := seen + more;
    }
    assert n.keys[..|n.keys|] == n.keys;
    WholeUntil(seen, cb);
    res := 0;
  }

  lemma {:induction false} SmallFacts<V>(n: Node<V>)
    requires (n.Node4? || n.Node16?) && Layout(n)
    ensures |n.keys| == |n.children| && Distinct(n.keys) && Entries(n) == Under(n, n.keys)
    ensures Kids(n) == Pairs(n.keys, n.children)
  {
  }

  lemma {:induction false} NoneUnder<V>(n: Node<V>, cb: (Key, V) -> int)
    ensures Under(n, []) == [] && Result<V>([], cb) == 0
  {
  }

  lemma {:induction false} WholeUntil<V>(es: seq<Entry<V>>, cb: (Key, V) -> int)
    ensures Result(es, cb) == 0 ==> Until(es, cb) == es
  {
    UntilPrefix(es, cb);
  }

  /** The child that the large layouts hold for byte `c`. */
  function ChildAt<V>(n: Node<V>, c: Byte): (r: Option<Node<V>>)
    requires (n.Node48? || n.Node256?) && Layout(n)
    ensures r == if c in Kids(n) then Some(Kids(n)[c]) else None
  {
    if n.Node48? then
      NoIndex(n.index, n.slots, c);
      if n.index[c] == 0 then None else n.slots[n.index[c] - 1]
    else n.slots[c]
  }

  /** The loops over the 256 bytes of the large layouts. */
  method IterLarge<V>(n: Node<V>, cb: (Key, V) -> int, ghost prefix: Key, ghost path: Key)
    returns (res: int, seen: seq<Entry<V>>)
    requires Fits(n, prefix, path) && (n.Node48? || n.Node256?)
    ensures seen == Until(Entries(n), cb) && res == Result(Entries(n), cb)
    decreases n, 0
  {
    hide Until, Result, Under, BytesFrom, Kids, Entries, Visits, Layout, Fits, WF;
    LargeFacts(n, prefix, path);
    NoneUnder(n, cb);
    seen := [];
    ghost var done: seq<Byte> := [];
    assert done + BytesFrom(Kids(n), 0) == Visits(n);
    for i := 0 to 256
      invariant done + BytesFrom(Kids(n), i) == Visits(n) && seen == Under(n, done) && Result(seen, cb) == 0
    {
      NextByte(Kids(n), i);
      var child := ChildAt(n, i);
      if child.Some? {
        var more;
        KidFits(n, prefix, path, i);
        res, more := Iterate(child.value, cb, path + [i]);
        assert done + ([i] + BytesFrom(Kids(n), i + 1)) == done + [i] + BytesFrom(Kids(n), i + 1);
        StopsAll(n, done, i, BytesFrom(Kids(n), i + 1), cb);
        if res != 0 {
          return res, seen + more;
        }
        WholeUntil(Entries(child.value), cb);
        seen, done := seen + more, done + [i];
      }
    }
    NextByte(Kids(n), 256);
    assert done + [] == done;
    WholeUntil(seen, cb);
    res := 0;
  }

  lemma {:induction false} NextByte<V>(m: map<Byte, Node<V>>, i: nat)
    requires i <= 256
    ensures i < 256 ==> BytesFrom(m, i) == (if i in m then [i] else []) + BytesFrom(m, i + 1)
    ensures i == 256 ==> BytesFrom(m, i) == []
  {
  }

  lemma {:induction false} LargeFacts<V>(n: Node<V>, prefix: Key, path: Key)
    requires Fits(n, prefix, path) && (n.Node48? || n.Node256?)
    ensures Visits(n) == BytesFrom(Kids(n), 0) && Entries(n) == Under(n, Visits(n)) && Layout(n)
  {
  }

  lemma {:induction false} KidFits<V>(n: Node<V>, prefix: Key, path: Key, c: Byte)
    requires Fits(n, prefix, path) && c in Kids(n)
    ensures WF(Kids(n)[c], path + [c])
  {
  }

  // ----- What is visited -----

  lemma {:induction false} UnderIn<V>(n: Node<V>, prefix: Key, path: Key, bytes: seq<Byte>, k: Key, v: V)
    requires Fits(n, prefix, path)
    ensures (k, v) in Under(n, bytes) <==> exists c :: c in bytes && c in Kids(n) && In(Kids(n)[c], k, v)
    decreases n, 0, |bytes|
  {
    hide Layout, Sized, Kids, Describes, Entries;
    if bytes != [] {
      var c := bytes[0];
      if c in Kids(n) { EntriesIn(Kids(n)[c], path + [c], k, v); }
      UnderIn(n, prefix, path, bytes[1..], k, v);
      assert bytes == [c] + bytes[1..];
    }
  }

  /** The iteration visits exactly what the tree holds. */
  lemma {:induction false} EntriesIn<V>(n: Node<V>, prefix: Key, k: Key, v: V)
    requires WF(n, prefix)
    ensures (k, v) in Entries(n) <==> In(n, k, v)
    decreases n, 1, 0
  {
    if !n.Leaf? {
      var path :| Fits(n, prefix, path);
      UnderIn(n, prefix, path, Visits(n), k, v);
      VisitsKids(n);
    }
  }

  // ----- The order -----

  ghost predicate InKeyOrder<V>(es: seq<Entry<V>>) {
    forall i, j :: 0 <= i < j < |es| ==> Before(es[i].0, es[j].0)
  }

  lemma {:induction false} JoinOrder<V>(a: seq<Entry<V>>, b: seq<Entry<V>>)
    requires InKeyOrder(a) && InKeyOrder(b)
    requires forall x, y :: x in a && y in b ==> Before(x.0, y.0)
    ensures InKeyOrder(a + b)
  {
    forall i, j | 0 <= i < j < |a + b| ensures Before((a + b)[i].0, (a + b)[j].0) {
      if i < |a| <= j { assert a[i] in a && b[j - |a|] in b; }
    }
  }

  /** Keys under a smaller byte come before keys under a larger one. */
  lemma {:induction false} ByteDecides<V>(n: Node<V>, prefix: Key, path: Key, c: Byte, d: Byte, x: Entry<V>,
    y: Entry<V>)
    requires Fits(n, prefix, path) && c in Kids(n) && d in Kids(n) && c < d
    requires In(Kids(n)[c], x.0, x.1) && In(Kids(n)[d], y.0, y.1)
    ensures Before(x.0, y.0)
  {
    hide Layout, Sized, Kids, Describes;
    KeyStarts(Kids(n)[c], path + [c], x.0, x.1);
    KeyStarts(Kids(n)[d], path + [d], y.0, y.1);
    SmallerByte(path, c, d, x.0, y.0);
  }

  lemma {:induction false} UnderOrder<V(!new)>(n: Node<V>, prefix: Key, path: Key, bytes: seq<Byte>)
    requires Fits(n, prefix, path) && Sorted(n) && Ascending(bytes) && forall c :: c in bytes ==> c in Kids(n)
    ensures InKeyOrder(Under(n, bytes))
    decreases n, 0, |bytes|
  {
    hide Layout, Sized, Kids, Describes, Entries, InKeyOrder, InOrder, Before;
    if bytes == [] {
      Trivial<V>();
    } else {
      var c := bytes[0];
      EntriesOrder(Kids(n)[c], path + [c]);
      UnderOrder(n, prefix, path, bytes[1..]);
      forall x, y | x in Entries(Kids(n)[c]) && y in Under(n, bytes[1..]) ensures Before(x.0, y.0) {
        EntriesIn(Kids(n)[c], path + [c], x.0, x.1);
        UnderIn(n, prefix, path, bytes[1..], y.0, y.1);
        var d :| d in bytes[1..] && d in Kids(n) && In(Kids(n)[d], y.0, y.1);
        FirstLess(bytes, d);
        ByteDecides(n, prefix, path, c, d, x, y);
      }
      JoinOrder(Entries(Kids(n)[c]), Under(n, bytes[1..]));
    }
  }

  lemma {:induction false} Trivial<V>()
    ensures InKeyOrder<V>([])
  {
  }

  lemma {:induction false} FirstLess(bytes: seq<Byte>, d: Byte)
    requires Ascending(bytes) && bytes != [] && d in bytes[1..]
    ensures bytes[0] < d
  {
    var j :| 0 <= j < |bytes[1..]| && bytes[1..][j] == d;
    assert bytes[j + 1] == d;
  }

  /** With the bytes of every node in order, the keys come in dictionary order. */
  lemma {:induction false} EntriesOrder<V(!new)>(n: Node<V>, prefix: Key)
    requires WF(n, prefix) && Sorted(n)
    ensures InKeyOrder(Entries(n))
    decreases n, 1, 0
  {
    hide Sized, Kids, Describes, InOrder;
    if !n.Leaf? {
      var path :| Fits(n, prefix, path);
      VisitsKids(n);
      assert InOrder(n);
      UnderOrder(n, prefix, path, Visits(n));
    }
  }

  lemma {:induction false} Antisymmetric(a: Key, b: Key)
    requires Before(a, b)
    ensures !Before(b, a)
  {
    var i: nat :| Parts(a, b, i);
    forall j: nat ensures !Parts(b, a, j) {
      assert i < j && j <= |a| && j <= |b| ==> a[..j][i] == a[i] && b[..j][i] == b[i];
      assert j < i ==> a[..i][j] == a[j] && b[..i][j] == b[j];
    }
  }

  lemma {:induction false} SplitOrder<V>(a: seq<Entry<V>>, b: seq<Entry<V>>)
    requires InKeyOrder(a + b)
    ensures InKeyOrder(a) && InKeyOrder(b)
    ensures forall x, y :: x in a && y in b ==> Before(x.0, y.0)
  {
    var c := a + b;
    forall i, j | 0 <= i < j < |a| ensures Before(a[i].0, a[j].0) { assert c[i] == a[i] && c[j] == a[j]; }
    forall i, j | 0 <= i < j < |b| ensures Before(b[i].0, b[j].0) {
      assert c[|a| + i] == b[i] && c[|a| + j] == b[j];
    }
    forall x, y | x in a && y in b ensures Before(x.0, y.0) {
      var i :| 0 <= i < |a| && a[i] == x;
      var j :| 0 <= j < |b| && b[j] == y;
      assert c[i] == x && c[|a| + j] == y;
    }
  }

  /** Some entry lies under every child. */
  lemma {:induction false} SomeEntry<V(!new)>(n: Node<V>, prefix: Key) returns (e: Entry<V>)
    requires WF(n, prefix)
    ensures In(n, e.0, e.1) && e in Entries(n)
  {
    if n.Leaf? {
      e := (n.key, n.value);
    } else {
      var path :| Fits(n, prefix, path);
      var k, v := LeafBelow(n, prefix, path);
      e := (k, v);
    }
    EntriesIn(n, prefix, e.0, e.1);
  }

  lemma {:induction false} FirstIsLess<V(!new)>(n: Node<V>, prefix: Key, path: Key, bytes: seq<Byte>, d: Byte)
    requires Fits(n, prefix, path) && Distinct(bytes) && bytes != [] && d in bytes[1..] && forall c :: c in bytes ==>
      c in Kids(n)
    requires forall x, y :: x in Entries(Kids(n)[bytes[0]]) && y in Under(n, bytes[1..]) ==> Before(x.0, y.0)
    ensures bytes[0] < d
  {
    hide Layout, Sized, Kids, Describes, Entries, Under, Before;
    var c := bytes[0];
    assert d in bytes && c in bytes;
    var x := SomeEntry(Kids(n)[c], path + [c]);
    var y := SomeEntry(Kids(n)[d], path + [d]);
    UnderIn(n, prefix, path, bytes[1..], y.0, y.1);
    assert (y.0, y.1) == y;
    Antisymmetric(x.0, y.0);
    if d < c { ByteDecides(n, prefix, path, d, c, y, x); }
  }

  lemma {:induction false} OrderedUnder<V(!new)>(n: Node<V>, prefix: Key, path: Key, bytes: seq<Byte>)
    requires Fits(n, prefix, path) && Distinct(bytes) && forall c :: c in bytes ==> c in Kids(n)
    requires InKeyOrder(Under(n, bytes))
    ensures Ascending(bytes) && forall c :: c in bytes ==> Sorted(Kids(n)[c])
    decreases n, 0, |bytes|
  {
    hide Layout, Sized, Kids, Describes, Entries, InKeyOrder, InOrder, Before, Sorted;
    if bytes != [] {
      var c := bytes[0];
      SplitOrder(Entries(Kids(n)[c]), Under(n, bytes[1..]));
      OrderedEntries(Kids(n)[c], path + [c]);
      OrderedUnder(n, prefix, path, bytes[1..]);
      forall d | d in bytes[1..] ensures c < d { FirstIsLess(n, prefix, path, bytes, d); }
      FrontAscends(c, bytes[1..]);
      assert bytes == [c] + bytes[1..];
    }
  }

  /** And only then. */
  lemma {:induction false} OrderedEntries<V(!new)>(n: Node<V>, prefix: Key)
    requires WF(n, prefix) && InKeyOrder(Entries(n))
    ensures Sorted(n)
    decreases n, 1, 0
  {
    hide Sized, Describes;
    if !n.Leaf? {
      var path :| Fits(n, prefix, path);
      VisitsKids(n);
      OrderedUnder(n, prefix, path, Visits(n));
    }
  }

  // ----- Each entry once, in whatever order -----

  ghost predicate Once<V>(es: seq<Entry<V>>) {
    forall i, j :: 0 <= i < j < |es| ==> es[i].0 != es[j].0
  }

  lemma {:induction false} JoinOnce<V>(a: seq<Entry<V>>, b: seq<Entry<V>>)
    requires Once(a) && Once(b) && forall x, y :: x in a && y in b ==> x.0 != y.0
    ensures Once(a + b)
  {
    forall i, j | 0 <= i < j < |a + b| ensures (a + b)[i].0 != (a + b)[j].0 {
      if i < |a| <= j { assert a[i] in a && b[j - |a|] in b; }
    }
  }

  lemma {:induction false} UnderOnce<V(!new)>(n: Node<V>, prefix: Key, path: Key, bytes: seq<Byte>)
    requires Fits(n, prefix, path) && Distinct(bytes) && forall c :: c in bytes ==> c in Kids(n)
    ensures Once(Under(n, bytes))
    decreases n, 0, |bytes|
  {
    hide Layout, Sized, Kids, Describes, Entries, Once;
    if bytes == [] {
      TrivialOnce<V>();
    } else {
      var c := bytes[0];
      EntriesOnce(Kids(n)[c], path + [c]);
      UnderOnce(n, prefix, path, bytes[1..]);
      forall x, y | x in Entries(Kids(n)[c]) && y in Under(n, bytes[1..]) ensures x.0 != y.0 {
        EntriesIn(Kids(n)[c], path + [c], x.0, x.1);
        UnderIn(n, prefix, path, bytes[1..], y.0, y.1);
        var d :| d in bytes[1..] && d in Kids(n) && In(Kids(n)[d], y.0, y.1);
        KeyStarts(Kids(n)[c], path + [c], x.0, x.1);
        KeyStarts(Kids(n)[d], path + [d], y.0, y.1);
        Shorten(x.0, path, c, path);
        Shorten(y.0, path, d, path);
      }
      JoinOnce(Entries(Kids(n)[c]), Under(n, bytes[1..]));
    }
  }

  lemma {:induction false} TrivialOnce<V>()
    ensures Once<V>([])
  {
  }

  /** No entry is visited twice. */
  lemma {:induction false} EntriesOnce<V(!new)>(n: Node<V>, prefix: Key)
    requires WF(n, prefix)
    ensures Once(Entries(n))
    decreases n, 1, 0
  {
    hide Sized, Kids, Describes;
    if !n.Leaf? {
      var path :| Fits(n, prefix, path);
      VisitsKids(n);
      assert Distinct(Visits(n));
      UnderOnce(n, prefix, path, Visits(n));
    }
  }
}
