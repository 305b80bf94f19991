/** The per-file extent tree: file offsets to device blocks, with physically contiguous extents coalesced. */
module BlockTree {
  import opened RbTree
  import opened RbMemory
  import R = RbRoot
  import RbInsert
  import Unlink = RbUnlink

  const BLOCK: nat := 4096
  const WORD: nat := 0x1_0000_0000_0000_0000
  /** The number of block addresses whose byte address fits a 64-bit word. */
  const BLOCKS: nat := 0x10_0000_0000_0000

  /** struct block_node, without its tree links. */
  datatype Extent = Extent(fileoff: nat, size: nat, devid: nat, addr: nat) {
    function End(): nat { fileoff + size }

    predicate Covers(off: nat) { fileoff <= off < End() }

    /** The device and block where the byte at `off` lies. */
    function Translate(off: nat): (nat, nat)
      requires fileoff <= off
    {
      (devid, addr + (off - fileoff) / BLOCK)
    }

    /** Block-aligned, not empty, within the 64-bit offsets and the 2^52 block addresses. */
    predicate WellFormed() {
      fileoff % BLOCK == 0 && size % BLOCK == 0 && size > 0 && End() < WORD && addr + size / BLOCK < BLOCKS
    }
  }

  type Extents = map<Ptr, Extent>

  /** fileoffcmp */
  function FileOffCmp(offset: nat, e: Extent): int {
    if offset < e.fileoff then -1 else if offset >= e.End() then 1 else 0
  }

  /** nodecmp: the end of the extent still counts as a hit. */
  function NodeCmp(offset: nat, e: Extent): int {
    if offset < e.fileoff then -1 else if offset > e.End() then 1 else 0
  }

  /** The coalescing test of block_insert, on 64-bit words: ((block->addr - this->addr) << 12) == this->size. */
  predicate Contiguous(e: Extent, b: Extent) {
    ((b.addr - e.addr) * BLOCK) % WORD == e.size
  }

  /** The test compares block addresses modulo 2^52 only. */
  lemma {:induction false} ContiguousIsCongruent(e: Extent, b: Extent)
    requires e.size % BLOCK == 0 && e.size < WORD
    ensures Contiguous(e, b) <==> (b.addr - e.addr - e.size / BLOCK) % BLOCKS == 0
  {
    var d, k := b.addr - e.addr, e.size / BLOCK;
    assert e.size == k * BLOCK && WORD == BLOCKS * BLOCK && k < BLOCKS;
    var q, r := d / BLOCKS, d % BLOCKS;
    assert d * BLOCK == q * WORD + r * BLOCK;
    assert (d * BLOCK) % WORD == r * BLOCK;
    assert (d - k) % BLOCKS == 0 <==> r == k;
  }

  /** So it means physical contiguity for extents within the 2^52 block addresses, */
  lemma {:induction false} ContiguousWithinRange(e: Extent, b: Extent)
    requires e.WellFormed() && b.WellFormed()
    ensures Contiguous(e, b) <==> b.addr == e.addr + e.size / BLOCK
  {
    ContiguousIsCongruent(e, b);
    var x := b.addr - e.addr - e.size / BLOCK;
    assert 0 - BLOCKS < x < BLOCKS;
  }

  /** and not beyond: this pair passes the test though block 1 does not follow block 2^52, */
  lemma {:induction false} ContiguousBeyondRange()
    ensures var e, b := Extent(0, BLOCK, 0, BLOCKS), Extent(BLOCK, BLOCK, 0, 1);
      && Contiguous(e, b) && b.addr != e.addr + e.size / BLOCK
      && Grown(e, b).Translate(BLOCK) == (0, BLOCKS + 1) && b.Translate(BLOCK) == (0, 1)
  {
    ContiguousIsCongruent(Extent(0, BLOCK, 0, BLOCKS), Extent(BLOCK, BLOCK, 0, 1));
  }

  /** The extent that block_insert makes of `e` when `b` passes the test. */
  function Grown(e: Extent, b: Extent): Extent
    requires e.fileoff <= b.End()
  {
    e.(size := b.End() - e.fileoff)
  }

  /** and then every byte of the new extent is translated to a wrong block. */
  lemma {:induction false} GrownRightExactly(e: Extent, b: Extent, off: nat)
    requires e.End() == b.fileoff && e.devid == b.devid && e.size % BLOCK == 0 && b.Covers(off)
    ensures Grown(e, b).Covers(off)
    ensures Grown(e, b).Translate(off) == b.Translate(off) <==> b.addr == e.addr + e.size / BLOCK
  {
    assert off - e.fileoff == e.size + (off - b.fileoff);
  }

  // ----- What a set of extents means -----

  ghost predicate Ordered(order: seq<Ptr>, ext: Extents) {
    && (forall i :: 0 <= i < |order| ==> order[i] in ext && ext[order[i]].WellFormed())
    && (forall i, j :: 0 <= i < j < |order| ==> ext[order[i]].End() <= ext[order[j]].fileoff)
  }

  /** The byte at file offset `off` lies in block `at` of the mapping. */
  ghost predicate MapsTo(order: seq<Ptr>, ext: Extents, off: nat, at: (nat, nat)) {
    exists p :: p in order && p in ext && ext[p].Covers(off) && ext[p].Translate(off) == at
  }

  /** No offset is covered twice, so the mapping is a function. */
  lemma {:induction false} MapsToUnique(order: seq<Ptr>, ext: Extents, off: nat, at: (nat, nat), at': (nat, nat))
    requires Ordered(order, ext) && MapsTo(order, ext, off, at) && MapsTo(order, ext, off, at')
    ensures at == at'
  {
    var p :| p in order && p in ext && ext[p].Covers(off) && ext[p].Translate(off) == at;
    var q :| q in order && q in ext && ext[q].Covers(off) && ext[q].Translate(off) == at';
    var i :| 0 <= i < |order| && order[i] == p;
    var j :| 0 <= j < |order| && order[j] == q;
  }

  /** `b` overlaps no stored extent. */
  ghost predicate Disjoint(order: seq<Ptr>, ext: Extents, b: Extent) {
    forall p :: p in order && p in ext ==> ext[p].End() <= b.fileoff || b.End() <= ext[p].fileoff
  }

  // ----- The descents -----

  type OffCompare = (nat, Extent) -> int

  /** The comparison respects the order of the extents. */
  ghost predicate Monotone(cmp: OffCompare) {
    forall off, e: Extent, f: Extent :: e.End() <= f.fileoff && f.size > 0 && e.size > 0 ==>
      (cmp(off, f) > 0 ==> cmp(off, e) > 0) && (cmp(off, e) < 0 ==> cmp(off, f) < 0)
  }

  lemma {:induction false} ComparisonsMonotone()
    ensures Monotone(FileOffCmp) && Monotone(NodeCmp)
  {
  }

  ghost predicate AllGreater(s: seq<Ptr>, ext: Extents, off: nat, cmp: OffCompare) {
    forall q :: q in s ==> q in ext && cmp(off, ext[q]) > 0
  }

  ghost predicate AllLess(s: seq<Ptr>, ext: Extents, off: nat, cmp: OffCompare) {
    forall q :: q in s ==> q in ext && cmp(off, ext[q]) < 0
  }

  lemma {:induction false} SplitOrdered(a: seq<Ptr>, p: Ptr, b: seq<Ptr>, ext: Extents, off: nat, cmp: OffCompare)
    requires Monotone(cmp) && Ordered(a + [p] + b, ext)
    ensures p in ext
    ensures cmp(off, ext[p]) > 0 ==> AllGreater(a + [p], ext, off, cmp)
    ensures cmp(off, ext[p]) < 0 ==> AllLess([p] + b, ext, off, cmp)
  {
    var s, k := a + [p] + b, |a|;
    assert s[k] == p;
    if cmp(off, ext[p]) > 0 {
      forall q | q in a + [p] ensures q in ext && cmp(off, ext[q]) > 0 {
        var i :| 0 <= i < |a + [p]| && (a + [p])[i] == q;
        assert s[i] == q;
      }
    }
    if cmp(off, ext[p]) < 0 {
      forall q | q in [p] + b ensures q in ext && cmp(off, ext[q]) < 0 {
        var i :| 0 <= i < |[p] + b| && ([p] + b)[i] == q;
        assert s[k + i] == q;
      }
    }
  }

  lemma {:induction false} InOrderNode(t: Tree)
    requires t.Node?
    ensures InOrder(t) == InOrder(t.left) + [t.p] + InOrder(t.right)
  {
  }

  lemma {:induction false} DescendSides(ctx: Ctx, t: Tree, ext: Extents, off: nat, cmp: OffCompare)
    requires t.Node? && Monotone(cmp) && Ordered(InOrder(Plug(ctx, t)), ext)
    ensures t.p in ext
    ensures cmp(off, ext[t.p]) < 0 ==> AllLess(After(Step(ctx, Left, t.p, t.color, t.right)), ext, off, cmp)
    ensures cmp(off, ext[t.p]) > 0 ==> AllGreater(Before(Step(ctx, Right, t.p, t.color, t.left)), ext, off, cmp)
  {
    hide Monotone, Ordered, AllGreater, AllLess, Plug, InOrder;
    InOrderPlug(ctx, t);
    InOrderNode(t);
    var a, l, r, b := Before(ctx), InOrder(t.left), InOrder(t.right), After(ctx);
    assert a + (l + [t.p] + r) + b == (a + l) + [t.p] + (r + b);
    SplitOrdered(a + l, t.p, r + b, ext, off, cmp);
    assert [t.p] + (r + b) == [t.p] + r + b;
  }

  /** The descent shared by block_search and the first loop of block_insert, each with its own comparison. */
  method Descend(s: State, ext: Extents, off: nat, cmp: OffCompare, ghost tree: Tree) returns (p: Ptr)
    requires Holds(s, tree) && Ordered(InOrder(tree), ext) && Monotone(cmp)
    ensures p != NULL ==> p in InOrder(tree) && p in ext && cmp(off, ext[p]) == 0
    ensures p == NULL ==> forall q :: q in InOrder(tree) ==> q in ext && cmp(off, ext[q]) != 0
  {
    hide Monotone, Ordered;
    ghost var ctx, t := Top, tree;
    ghost var up := NULL;
    p := s.root;
    while p != NULL
      invariant Plug(ctx, t) == tree && p == Root(t) && Stored(s.mem, t, up) && Distinct(t)
      invariant AllGreater(Before(ctx), ext, off, cmp) && AllLess(After(ctx), ext, off, cmp)
      decreases t
    {
      DescendSides(ctx, t, ext, off, cmp);
      var result := cmp(off, ext[p]);
      if result == 0 {
        NodesPlug(ctx, t);
        RootAmong(t);
        NodesInOrder(tree);
        return;
      }
      var d := if result < 0 then Left else Right;
      p := s.mem[p].Child(d);
      ctx, up := Step(ctx, d, t.p, t.color, if d == Left then t.right else t.left), t.p;
      t := if d == Left then t.left else t.right;
    }
    Unlink.NullRoot(t);
    InOrderPlug(ctx, Leaf);
  }

  // ----- What block_insert does to the mapping -----

  /** Stored extent `p` ends where `b` begins, on the same device, and passes the test. */
  ghost predicate Continued(order: seq<Ptr>, ext: Extents, p: Ptr, b: Extent) {
    p in order && p in ext && ext[p].End() == b.fileoff && ext[p].devid == b.devid && Contiguous(ext[p], b)
  }

  /** The extent that `b` continues has grown by it, and no other extent has changed. */
  ghost predicate OneGrown(order: seq<Ptr>, ext: Extents, b: Extent, ext': Extents) {
    exists p :: Continued(order, ext, p, b) && ext' == ext[p := Grown(ext[p], b)]
  }

  /** The comparison finds the one extent that ends where `b` begins. */
  lemma {:induction false} TouchesOnly(order: seq<Ptr>, ext: Extents, p: Ptr, b: Extent)
    requires Ordered(order, ext) && b.WellFormed() && Disjoint(order, ext, b)
    requires p in order && p in ext && NodeCmp(b.fileoff, ext[p]) == 0
    ensures ext[p].End() == b.fileoff && forall q :: q in order && q in ext && ext[q].End() == b.fileoff ==> q == p
  {
    assert ext[p].WellFormed();
    forall q | q in order && q in ext && ext[q].End() == b.fileoff ensures q == p {
      var i :| 0 <= i < |order| && order[i] == p;
      var j :| 0 <= j < |order| && order[j] == q;
    }
  }

  lemma {:induction false} NoneTouches(order: seq<Ptr>, ext: Extents, b: Extent)
    requires forall q :: q in order ==> q in ext && NodeCmp(b.fileoff, ext[q]) != 0
    ensures forall p :: !Continued(order, ext, p, b)
  {
  }

  /** Growing the extent that `b` continues adds exactly b's offsets. */
  lemma {:induction false} CoalesceMaps(order: seq<Ptr>, ext: Extents, p: Ptr, b: Extent, off: nat, at: (nat, nat))
    requires Ordered(order, ext) && b.WellFormed() && Disjoint(order, ext, b)
    requires p in order && p in ext && ext[p].End() == b.fileoff && ext[p].devid == b.devid
    requires b.addr == ext[p].addr + ext[p].size / BLOCK
    ensures var ext' := ext[p := Grown(ext[p], b)];
      MapsTo(order, ext', off, at) <==> MapsTo(order, ext, off, at) || (b.Covers(off) && b.Translate(off) == at)
  {
    hide Ordered, Disjoint, Extent.Translate;
    GoodAt(order, ext, p);
    var e := ext[p];
    var ext' := ext[p := Grown(e, b)];
    if b.Covers(off) { GrownTranslate(e, b, off); }
    SizeIrrelevant(e, b.End() - e.fileoff);
    if MapsTo(order, ext', off, at) {
      var q :| q in order && q in ext' && ext'[q].Covers(off) && ext'[q].Translate(off) == at;
      assert q in ext && (q != p ==> ext[q] == ext'[q]);
    }
    if MapsTo(order, ext, off, at) {
      var q :| q in order && q in ext && ext[q].Covers(off) && ext[q].Translate(off) == at;
      assert ext'[q].Covers(off) && ext'[q].Translate(off) == at;
    }
    if b.Covers(off) && b.Translate(off) == at {
      assert ext'[p].Covers(off) && ext'[p].Translate(off) == at;
    }
  }

  lemma {:induction false} GoodAt(order: seq<Ptr>, ext: Extents, p: Ptr)
    requires Ordered(order, ext) && p in order
    ensures p in ext && ext[p].WellFormed()
  {
  }

  lemma {:induction false} SizeIrrelevant(e: Extent, size: nat)
    ensures forall off: nat :: e.fileoff <= off ==> e.Translate(off) == e.(size := size).Translate(off)
  {
  }

  lemma {:induction false} GrownTranslate(e: Extent, b: Extent, off: nat)
    requires e.End() == b.fileoff && e.devid == b.devid && e.size % BLOCK == 0 && b.addr == e.addr + e.size / BLOCK
    requires b.fileoff <= off
    ensures e.Translate(off) == b.Translate(off)
  {
    assert off - e.fileoff == e.size + (off - b.fileoff);
  }

  lemma {:induction false} CoalesceOrdered(order: seq<Ptr>, ext: Extents, p: Ptr, b: Extent)
    requires Ordered(order, ext) && b.WellFormed() && Disjoint(order, ext, b)
    requires p in order && p in ext && ext[p].End() == b.fileoff && b.addr == ext[p].addr + ext[p].size / BLOCK
    ensures Ordered(order, ext[p := Grown(ext[p], b)])
  {
    hide Ordered, Disjoint;
    GoodAt(order, ext, p);
    var e := ext[p];
    var e' := Grown(e, b);
    GrownWellFormed(e, b);
    forall i | 0 <= i < |order| ensures order[i] in ext && ext[order[i]].WellFormed() { GoodAt(order, ext, order[i]); }
    forall i, j | 0 <= i < j < |order| && order[i] == p ensures e'.End() <= ext[order[j]].fileoff {
      StillBefore(order, ext, b, i, j);
    }
    OrderedDistinct(order, ext);
    GrownOrdered(order, ext, p, e');
  }

  lemma {:induction false} OrderedDistinct(order: seq<Ptr>, ext: Extents)
    requires Ordered(order, ext)
    ensures forall i, j :: 0 <= i < j < |order| ==> order[i] != order[j]
  {
  }

  lemma {:induction false} GrownOrdered(order: seq<Ptr>, ext: Extents, p: Ptr, e: Extent)
    requires Ordered(order, ext) && p in ext && e.WellFormed() && e.fileoff == ext[p].fileoff
    requires forall i, j :: 0 <= i < j < |order| ==> order[i] != order[j]
    requires forall i, j :: 0 <= i < j < |order| && order[i] == p ==>
      order[j] in ext && e.End() <= ext[order[j]].fileoff
    ensures Ordered(order, ext[p := e])
  {
  }

  lemma {:induction false} GrownWellFormed(e: Extent, b: Extent)
    requires e.WellFormed() && b.WellFormed() && e.End() == b.fileoff && b.addr == e.addr + e.size / BLOCK
    ensures Grown(e, b).WellFormed()
  {
    assert b.End() - e.fileoff == e.size + b.size;
  }

  lemma {:induction false} StillBefore(order: seq<Ptr>, ext: Extents, b: Extent, i: int, j: int)
    requires Ordered(order, ext) && Disjoint(order, ext, b) && b.size > 0 && 0 <= i < j < |order|
    requires ext[order[i]].End() == b.fileoff
    ensures b.End() <= ext[order[j]].fileoff
  {
    assert order[j] in order;
  }

  // ----- Taking an extent out -----

  lemma {:induction false} RemoveSplits(s: seq<Ptr>, x: Ptr) returns (k: nat)
    requires x in s
    ensures k < |s| && s[k] == x && Unlink.Remove(s, x) == s[..k] + s[k + 1..]
  {
    if s[0] == x {
      k := 0;
    } else {
      var j := RemoveSplits(s[1..], x);
      k := j + 1;
      assert s[..k] == [s[0]] + s[1..][..j];
    }
  }

  lemma {:induction false} WithoutMembers(s: seq<Ptr>, k: nat)
    requires k < |s| && forall i, j :: 0 <= i < j < |s| ==> s[i] != s[j]
    ensures forall q :: q in s[..k] + s[k + 1..] <==> q in s && q != s[k]
  {
    var rest := s[..k] + s[k + 1..];
    forall q ensures q in rest <==> q in s && q != s[k] {
      if q in s && q != s[k] {
        var i :| 0 <= i < |s| && s[i] == q;
        assert rest[if i < k then i else i - 1] == q;
      }
      if q in rest {
        var i :| 0 <= i < |rest| && rest[i] == q;
        assert s[if i < k then i else i + 1] == q;
      }
    }
  }

  lemma {:induction false} WithoutOrdered(s: seq<Ptr>, ext: Extents, k: nat)
    requires k < |s| && Ordered(s, ext)
    ensures Ordered(s[..k] + s[k + 1..], ext)
  {
    var rest := s[..k] + s[k + 1..];
    forall i | 0 <= i < |rest| ensures rest[i] == s[if i < k then i else i + 1] { }
    forall i, j | 0 <= i < j < |rest| ensures ext[rest[i]].End() <= ext[rest[j]].fileoff {
      assert ext[s[if i < k then i else i + 1]].End() <= ext[s[if j < k then j else j + 1]].fileoff;
    }
  }

  /** Without one of the extents the offsets of that extent, and no others, are unmapped. */
  lemma {:induction false} DroppedMaps(order: seq<Ptr>, ext: Extents, p: Ptr)
    requires Ordered(order, ext) && p in order
    ensures Ordered(Unlink.Remove(order, p), ext) && p in ext
    ensures forall off: nat, at :: MapsTo(Unlink.Remove(order, p), ext, off, at) <==>
      MapsTo(order, ext, off, at) && !ext[p].Covers(off)
  {
    hide Ordered, MapsTo, Unlink.Remove;
    var k := RemoveSplits(order, p);
    var rest := Unlink.Remove(order, p);
    GoodAt(order, ext, p);
    OrderedDistinct(order, ext);
    WithoutMembers(order, k);
    WithoutOrdered(order, ext, k);
    forall off: nat, at ensures MapsTo(rest, ext, off, at) <==> MapsTo(order, ext, off, at) && !ext[p].Covers(off) {
      DroppedAt(order, rest, ext, p, off, at);
    }
  }

  lemma {:induction false} DroppedAt(order: seq<Ptr>, rest: seq<Ptr>, ext: Extents, p: Ptr, off: nat, at: (nat, nat))
    requires Ordered(order, ext) && p in order && p in ext && forall q :: q in rest <==> q in order && q != p
    ensures MapsTo(rest, ext, off, at) <==> MapsTo(order, ext, off, at) && !ext[p].Covers(off)
  {
    var i :| 0 <= i < |order| && order[i] == p;
    forall q | q in order && q in ext && q != p && ext[q].Covers(off) ensures !ext[p].Covers(off) {
      var j :| 0 <= j < |order| && order[j] == q;
    }
  }

  // ----- Linking a new extent -----

  function Key(ext: Extents, p: Ptr): nat {
    if p in ext then ext[p].fileoff else 0
  }

  /** The comparison of the second loop of block_insert. */
  function ByOffset(ext: Extents): R.Compare {
    (x: Ptr, y: Ptr) => Key(ext, x) - Key(ext, y)
  }

  lemma {:induction false} ByOffsetOrders(order: seq<Ptr>, ext: Extents)
    ensures R.Ordering(ByOffset(ext))
    ensures Ordered(order, ext) ==> R.Sorted(order, ByOffset(ext))
  {
    if Ordered(order, ext) {
      forall i, j | 0 <= i < j < |order| ensures ByOffset(ext)(order[i], order[j]) < 0 {
        assert ext[order[i]].End() <= ext[order[j]].fileoff;
      }
    }
  }

  lemma {:induction false} RemoveMembers(s: seq<Ptr>, x: Ptr)
    requires x in s
    ensures forall q :: q in s <==> q == x || q in Unlink.Remove(s, x)
  {
    if s[0] != x {
      RemoveMembers(s[1..], x);
      assert s == [s[0]] + s[1..];
    } else {
      assert s == [x] + s[1..];
    }
  }

  lemma {:induction false} LinkedOrdered(order: seq<Ptr>, order': seq<Ptr>, ext: Extents, b: Ptr)
    requires Ordered(order, ext) && b in ext && ext[b].WellFormed() && Disjoint(order, ext, ext[b])
    requires R.Sorted(order', ByOffset(ext)) && b in order' && Unlink.Remove(order', b) == order
    ensures Ordered(order', ext)
  {
    RemoveMembers(order', b);
    forall i | 0 <= i < |order'| ensures order'[i] in ext && ext[order'[i]].WellFormed() {
      assert order'[i] in order';
      if order'[i] != b { GoodAt(order, ext, order'[i]); }
    }
    forall i, j | 0 <= i < j < |order'| ensures ext[order'[i]].End() <= ext[order'[j]].fileoff {
      assert ByOffset(ext)(order'[i], order'[j]) < 0;
      assert order'[i] in order' && order'[j] in order';
      NoOverlap(order, ext, b, order'[i], order'[j]);
    }
  }

  lemma {:induction false} NoOverlap(order: seq<Ptr>, ext: Extents, b: Ptr, p: Ptr, q: Ptr)
    requires Ordered(order, ext) && b in ext && ext[b].WellFormed() && Disjoint(order, ext, ext[b])
    requires (p == b || p in order) && (q == b || q in order) && Key(ext, p) < Key(ext, q)
    ensures p in ext && q in ext && ext[p].End() <= ext[q].fileoff
  {
    if p in order && q in order {
      var i :| 0 <= i < |order| && order[i] == p;
      var j :| 0 <= j < |order| && order[j] == q;
    }
  }

  lemma {:induction false} LinkedMaps(order: seq<Ptr>, order': seq<Ptr>, ext: Extents, b: Ptr, off: nat, at: (nat, nat))
    requires b in ext && b in order' && Unlink.Remove(order', b) == order
    ensures MapsTo(order', ext, off, at) <==>
      MapsTo(order, ext, off, at) || (ext[b].Covers(off) && ext[b].Translate(off) == at)
  {
    RemoveMembers(order', b);
  }

  lemma {:induction false} NoneEqual(order: seq<Ptr>, ext: Extents, b: Ptr, q: Ptr)
    requires Ordered(order, ext) && b in ext && ext[b].WellFormed() && Disjoint(order, ext, ext[b]) && q in order
    ensures ByOffset(ext)(b, q) != 0
  {
    GoodAt(order, ext, q);
  }

  class BlockTree {
    var mem: Memory
    var root: Ptr
    var ext: Extents
    ghost var tree: Tree

    ghost predicate Valid()
      reads this
    {
      Holds(State(mem, root), tree) && RedBlack(tree) && Ordered(InOrder(tree), ext)
    }

    ghost function Order(): seq<Ptr>
      reads this
    {
      InOrder(tree)
    }

    constructor ()
      ensures Valid() && Order() == []
    {
      mem, root, ext, tree := map[], NULL, map[], Leaf;
    }

    /** block_search: the extent that covers `offset`, or NULL. */
    method Search(offset: nat) returns (p: Ptr)
      requires Valid()
      ensures p != NULL ==>
        p in ext && p in Order() && ext[p].Covers(offset) && MapsTo(Order(), ext, offset, ext[p].Translate(offset))
      ensures p == NULL ==> forall at :: !MapsTo(Order(), ext, offset, at)
    {
      hide Ordered, RedBlack;
      ComparisonsMonotone();
      p := Descend(State(mem, root), ext, offset, FileOffCmp, tree);
    }

    /** block_delete: take out the extent that covers `offset`, if there is one. */
    method Delete(offset: nat) returns (p: Ptr)
      requires Valid()
      modifies this`mem, this`root, this`tree
      ensures Valid()
      ensures p == NULL <==> forall at :: !MapsTo(old(Order()), ext, offset, at)
      ensures p == NULL ==> Order() == old(Order())
      ensures p != NULL ==> p in ext && ext[p].Covers(offset) && Order() == Unlink.Remove(old(Order()), p)
      ensures forall off: nat, at :: MapsTo(Order(), ext, off, at) <==>
        MapsTo(old(Order()), ext, off, at) && (p == NULL || !ext[p].Covers(off))
    {
      hide Ordered, RedBlack, Holds, InOrder, MapsTo, Unlink.Remove;
      p := Search(offset);
      if p != NULL {
        DroppedMaps(Order(), ext, p);
        var s;
        s, tree := R.EraseFrom(State(mem, root), p, tree);
        mem, root := s.mem, s.root;
      }
    }

    /** block_insert: grow the extent that `block` continues, or link `block` as an extent of its own. */
    method Insert(block: Ptr) returns (ret: int)
      requires Valid() && block != NULL && block !in Order()
      requires block in ext && ext[block].WellFormed() && Disjoint(Order(), ext, ext[block])
      modifies this
      ensures Valid()
      ensures forall off: nat, at :: MapsTo(Order(), ext, off, at) <==>
        MapsTo(old(Order()), old(ext), off, at) || (old(ext[block]).Covers(off) && old(ext[block]).Translate(off) == at)
      ensures ret == 0 <==> exists p :: Continued(old(Order()), old(ext), p, old(ext[block]))
      ensures ret == 0 ==> Order() == old(Order())
      ensures ret == 0 ==> OneGrown(old(Order()), old(ext), old(ext[block]), ext)
      ensures ret == 1 ==> ext == old(ext) && block in Order() && Unlink.Remove(Order(), block) == old(Order())
      ensures ret in {0, 1}
    {
      hide Ordered, RedBlack, Holds, InOrder, MapsTo, Monotone, Disjoint, Contiguous, Unlink.Remove;
      var b := ext[block];
      ComparisonsMonotone();
      var p := Descend(State(mem, root), ext, b.fileoff, NodeCmp, tree);
      if p != NULL { TouchesOnly(Order(), ext, p, b); } else { NoneTouches(Order(), ext, b); }
      ghost var order0, ext0 := Order(), ext;
      if p != NULL && ext[p].devid == b.devid && Contiguous(ext[p], b) {
        Grow(Order(), ext, p, b);
        ext := ext[p := ext[p].(size := b.fileoff + b.size - ext[p].fileoff)];
        ret := 0;
        assert Continued(order0, ext0, p, b);
      } else {
        ret := Link(block);
      }
    }

    /** The second half of block_insert. */
    method Link(block: Ptr) returns (ret: int)
      requires Valid() && block != NULL && block !in Order()
      requires block in ext && ext[block].WellFormed() && Disjoint(Order(), ext, ext[block])
      modifies this`mem, this`root, this`tree
      ensures Valid() && ret == 1
      ensures block in Order() && Unlink.Remove(Order(), block) == old(Order())
      ensures forall off: nat, at :: MapsTo(Order(), ext, off, at) <==>
        MapsTo(old(Order()), old(ext), off, at) || (ext[block].Covers(off) && ext[block].Translate(off) == at)
    {
      hide Ordered, RedBlack, Holds, InOrder, MapsTo, Disjoint, Unlink.Remove, Plug, Before, After, R.LinkNode;
      hide R.Ordering, R.Sorted, R.AllBelow, R.AllAbove, ByOffset;
      var s, order0 := State(mem, root), Order();
      ghost var ctx;
      ByOffsetOrders(Order(), ext);
      var equal, parent, d;
      equal, parent, d, ctx := R.FindLink(s, block, ByOffset(ext), tree);
      if equal != NULL {
        NoneEqual(Order(), ext, block, equal);
        return 0;
      }
      R.LinkAll(s, ctx, block, ByOffset(ext));
      s := R.LinkNode(s, block, parent, d);
      s, tree := RbInsert.InsertColor(s, block, ctx, Node(Leaf, block, Red, Leaf));
      mem, root := s.mem, s.root;
      LinkedOrdered(order0, Order(), ext, block);
      forall off: nat, at {
        LinkedMaps(order0, Order(), ext, block, off, at);
      }
      ret := 1;
    }
  }

  lemma {:induction false} Grow(order: seq<Ptr>, ext: Extents, p: Ptr, b: Extent)
    requires Ordered(order, ext) && b.WellFormed() && Disjoint(order, ext, b) && p in order && p in ext
    requires NodeCmp(b.fileoff, ext[p]) == 0 && ext[p].devid == b.devid && Contiguous(ext[p], b)
    ensures var ext' := ext[p := Grown(ext[p], b)];
      && Ordered(order, ext')
      && forall off: nat, at :: MapsTo(order, ext', off, at) <==>
           MapsTo(order, ext, off, at) || (b.Covers(off) && b.Translate(off) == at)
  {
    hide Ordered, MapsTo, Contiguous;
    GoodAt(order, ext, p);
    ContiguousWithinRange(ext[p], b);
    CoalesceOrdered(order, ext, p, b);
    forall off: nat, at {
      CoalesceMaps(order, ext, p, b, off, at);
    }
  }
}
