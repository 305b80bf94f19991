/** __rb_erase_augmented: taking a node out of the tree, with its successor put in its place when it has
    two children, and telling whether and where a black node is now missing. */
module RbUnlink {
  import opened RbTree
  import opened RbMemory
  import opened RbErase

  /** The sequence without the first occurrence of `x`. */
  function Remove(s: seq<Ptr>, x: Ptr): seq<Ptr> {
    if s == [] then [] else if s[0] == x then s[1..] else [s[0]] + Remove(s[1..], x)
  }

  lemma {:induction false} RemoveMiddle(a: seq<Ptr>, x: Ptr, b: seq<Ptr>)
    requires x !in a
    ensures Remove(a + [x] + b, x) == a + b
  {
    if a == [] {
      assert a + [x] + b == [x] + b && a + b == b;
    } else {
      var w := a[1..] + [x] + b;
      RemoveMiddle(a[1..], x, b);
      assert a + [x] + b == [a[0]] + w;
      RemoveSkips(a[0], w, x);
      assert [a[0]] + (a[1..] + b) == a + b;
    }
  }

  lemma {:induction false} RemoveSkips(y: Ptr, s: seq<Ptr>, x: Ptr)
    requires y != x
    ensures Remove([y] + s, x) == [y] + Remove(s, x)
  {
    assert ([y] + s)[1..] == s;
  }

  lemma {:induction false} BeforeNodes(ctx: Ctx)
    ensures forall q :: q in Before(ctx) ==> q in CtxNodes(ctx)
  {
    match ctx
    case Top =>
    case Step(up, _, _, _, sib) => BeforeNodes(up); NodesInOrder(sib);
  }

  // ----- One child or none -----

  /** Replacing the node by its only child, which takes the node's colour, or by nothing. */
  lemma {:induction false} PromoteOrder(ctx: Ctx, d: Dir, t: Tree, n: Ptr, c: Color)
    requires Apart(ctx, Mk(d, t, n, c, Leaf))
    ensures InOrder(Plug(ctx, Paint(t, c))) == Remove(InOrder(Plug(ctx, Mk(d, t, n, c, Leaf))), n)
  {
    hide Apart, Plug, Remove, Before, After, CtxNodes, Nodes, Distinct;
    InOrderPlug(ctx, Mk(d, t, n, c, Leaf));
    InOrderPlug(ctx, Paint(t, c));
    PaintShape(t, c);
    InOrderMk(d, t, n, c, Leaf);
    PromoteApart(ctx, d, t, n, c);
    RemoveAround(Before(ctx), InOrder(t), n, After(ctx));
  }

  lemma {:induction false} PromoteApart(ctx: Ctx, d: Dir, t: Tree, n: Ptr, c: Color)
    requires Apart(ctx, Mk(d, t, n, c, Leaf))
    ensures n !in Before(ctx) && n !in InOrder(t)
  {
    BeforeNodes(ctx);
    NodesInOrder(t);
    MkShape(d, t, n, c, Leaf);
  }

  lemma {:induction false} RemoveAround(a: seq<Ptr>, m: seq<Ptr>, n: Ptr, b: seq<Ptr>)
    requires n !in a && n !in m
    ensures Remove(a + (m + [n] + []) + b, n) == a + m + b
    ensures Remove(a + ([] + [n] + m) + b, n) == a + m + b
  {
    hide Remove;
    RemoveMiddle(a + m, n, b);
    assert a + (m + [n] + []) + b == (a + m) + [n] + b;
    RemoveMiddle(a, n, m + b);
    assert a + ([] + [n] + m) + b == a + [n] + (m + b);
    assert a + (m + b) == a + m + b;
  }

  lemma {:induction false} PromoteRedBlack(ctx: Ctx, d: Dir, t: Tree, n: Ptr, c: Color)
    requires RedBlack(Plug(ctx, Mk(d, t, n, c, Leaf)))
    ensures t.Node? ==> RedBlack(Plug(ctx, Paint(t, c)))
    ensures t.Leaf? && c == Red ==> RedBlack(Plug(ctx, Leaf))
    ensures t.Leaf? && c == Black && ctx.Top? ==> RedBlack(Plug(ctx, Leaf))
    ensures t.Leaf? && c == Black && ctx.Step? ==> Short(ctx, Leaf)
  {
    RedBlackPlug(ctx, Mk(d, t, n, c, Leaf));
    RedBlackPlug(ctx, Paint(t, c));
    MkShape(d, t, n, c, Leaf);
    PaintShape(t, c);
  }

  lemma {:induction false} PromoteStored(st: State, st1: State, st2: State, ctx: Ctx, d: Dir, t: Tree, n: Ptr, c: Color)
    requires Holds(st, Plug(ctx, Mk(d, t, n, c, Leaf)))
    requires Parent(ctx) != NULL ==> Parent(ctx) in st.mem
    requires st1 == ChangeChild(st, n, Root(t), Parent(ctx))
    requires t.Node? ==> t.p in st1.mem && st2 == st1.(mem := SetParentColor(st1.mem, t.p, Parent(ctx), c))
    requires t.Leaf? ==> st2 == st1
    ensures Holds(st2, Plug(ctx, Paint(t, c)))
  {
    HoldsPlug(st, ctx, Mk(d, t, n, c, Leaf));
    MkShape(d, t, n, c, Leaf);
    MkStored(st.mem, d, t, n, c, Leaf, Parent(ctx));
    ChangeChildStored(st, ctx, n, Root(t));
    PaintShape(t, c);
    StoredFrame(st.mem, st1.mem, t, n);
    if t.Node? {
      RootAmong(t);
      CtxFrame(st1, st2, ctx, Root(t));
      Rehang(st1.mem, st2.mem, t, n, Parent(ctx), c);
    }
    HoldsPlug(st2, ctx, Paint(t, c));
  }

  // ----- Two children: the successor at the end of the right subtree's left spine -----

  /** The path `inner` continued above by the path `base`. */
  function Graft(inner: Ctx, base: Ctx): Ctx {
    match inner
    case Top => base
    case Step(up, d, p, c, sib) => Step(Graft(up, base), d, p, c, sib)
  }

  predicate LeftSpine(inner: Ctx) {
    inner.Step? ==> inner.d == Left && LeftSpine(inner.up)
  }

  /** The topmost node of a path, or what is below it when the path is empty. */
  function Highest(inner: Ctx, hole: Ptr): Ptr {
    match inner
    case Top => hole
    case Step(up, _, p, _, _) => Highest(up, p)
  }

  /** The lowest node of a path, or what is above it when the path is empty. */
  function Lowest(inner: Ctx, above: Ptr): Ptr {
    if inner.Top? then above else inner.p
  }

  lemma {:induction false} PlugGraft(inner: Ctx, base: Ctx, t: Tree)
    ensures Plug(Graft(inner, base), t) == Plug(base, Plug(inner, t))
    decreases inner
  {
    match inner
    case Top =>
    case Step(up, d, p, c, sib) => PlugGraft(up, base, Mk(d, t, p, c, sib));
  }

  lemma {:induction false} SpineOrder(inner: Ctx, t: Tree)
    requires LeftSpine(inner)
    ensures InOrder(Plug(inner, t)) == InOrder(t) + After(inner)
  {
    InOrderPlug(inner, t);
    NothingBefore(inner);
  }

  lemma {:induction false} NothingBefore(inner: Ctx)
    requires LeftSpine(inner)
    ensures Before(inner) == []
  {
    if inner.Step? { NothingBefore(inner.up); }
  }

  /** Which address a path passes through makes no difference to heights and colours. */
  lemma {:induction false} GraftBalanced(inner: Ctx, up: Ctx, d: Dir, n: Ptr, s: Ptr, c: Color, sib: Tree, h: nat)
    ensures CtxBalanced(Graft(inner, Step(up, d, n, c, sib)), h) == CtxBalanced(Graft(inner, Step(up, d, s, c, sib)), h)
    decreases inner
  {
    if inner.Step? {
      GraftBalanced(inner.up, up, d, n, s, c, sib, h + if inner.c == Black then 1 else 0);
    }
  }

  lemma {:induction false} GraftRedOk(inner: Ctx, up: Ctx, d: Dir, n: Ptr, s: Ptr, c: Color, sib: Tree)
    ensures CtxRedOk(Graft(inner, Step(up, d, n, c, sib))) == CtxRedOk(Graft(inner, Step(up, d, s, c, sib)))
    ensures UnderBlack(Graft(inner, Step(up, d, n, c, sib))) == UnderBlack(Graft(inner, Step(up, d, s, c, sib)))
    decreases inner
  {
    if inner.Step? { GraftRedOk(inner.up, up, d, n, s, c, sib); }
  }

  /** Colours after the successor has taken the node's place and colour. */
  lemma {:induction false} SpliceRedBlack(ctx: Ctx, l: Tree, n: Ptr, c: Color, inner: Ctx, s: Ptr, sc: Color, c2: Tree)
    requires RedBlack(Plug(Graft(inner, Step(ctx, Right, n, c, l)), Node(Leaf, s, sc, c2)))
    ensures var at := Graft(inner, Step(ctx, Right, s, c, l));
      && at.Step?
      && (c2.Node? ==> RedBlack(Plug(at, Paint(c2, Black))))
      && (c2.Leaf? && sc == Red ==> RedBlack(Plug(at, Leaf)))
      && (c2.Leaf? && sc == Black ==> Short(at, Leaf))
  {
    hide RedBlack, Plug;
    var from, at := Graft(inner, Step(ctx, Right, n, c, l)), Graft(inner, Step(ctx, Right, s, c, l));
    RedBlackPlug(from, Node(Leaf, s, sc, c2));
    RedBlackPlug(at, Paint(c2, Black));
    RedBlackPlug(at, Leaf);
    PaintShape(c2, Black);
    GraftBalanced(inner, ctx, Right, n, s, c, l, BlackHeight(Node(Leaf, s, sc, c2)));
    GraftRedOk(inner, ctx, Right, n, s, c, l);
  }

  /** The order after the splice is the order before it, less the node. */
  lemma {:induction false} SpliceOrder(ctx: Ctx, l: Tree, n: Ptr, c: Color, inner: Ctx, s: Ptr, sc: Color, c2: Tree,
    pc: Color)
    requires LeftSpine(inner) && n !in Before(ctx) && n !in InOrder(l)
    ensures InOrder(Plug(Graft(inner, Step(ctx, Right, s, c, l)), Paint(c2, pc)))
      == Remove(InOrder(Plug(Graft(inner, Step(ctx, Right, n, c, l)), Node(Leaf, s, sc, c2))), n)
  {
    hide Plug, Before, After, Graft, Remove, LeftSpine;
    var r, r' := Plug(inner, Node(Leaf, s, sc, c2)), Plug(inner, Paint(c2, pc));
    PlugGraft(inner, Step(ctx, Right, n, c, l), Node(Leaf, s, sc, c2));
    PlugGraft(inner, Step(ctx, Right, s, c, l), Paint(c2, pc));
    SpineOrder(inner, Node(Leaf, s, sc, c2));
    SpineOrder(inner, Paint(c2, pc));
    PaintShape(c2, pc);
    PlugRight(ctx, n, c, l, r);
    PlugRight(ctx, s, c, l, r');
    var x := InOrder(c2) + After(inner);
    assert InOrder(Node(Leaf, s, sc, c2)) + After(inner) == [s] + x;
    SpliceSeq(Before(ctx), InOrder(l), n, s, x, After(ctx));
  }

  lemma {:induction false} PlugRight(ctx: Ctx, p: Ptr, c: Color, l: Tree, r: Tree)
    ensures InOrder(Plug(Step(ctx, Right, p, c, l), r)) == Before(ctx) + (InOrder(l) + [p] + InOrder(r)) + After(ctx)
  {
    InOrderPlug(ctx, Node(l, p, c, r));
  }

  lemma {:induction false} SpliceSeq(a: seq<Ptr>, l: seq<Ptr>, n: Ptr, s: Ptr, x: seq<Ptr>, b: seq<Ptr>)
    requires n !in a && n !in l
    ensures Remove(a + (l + [n] + ([s] + x)) + b, n) == a + (l + [s] + x) + b
  {
    hide Remove;
    assert a + (l + [n] + ([s] + x)) + b == (a + l) + [n] + ([s] + x + b);
    RemoveMiddle(a + l, n, [s] + x + b);
    assert (a + l) + ([s] + x + b) == a + (l + [s] + x) + b;
  }

  // ----- The splice in memory -----

  /** The nodes along a path are stored, below `above` and with `hole` at its lower end. */
  predicate PathStored(mem: Memory, inner: Ctx, above: Ptr, hole: Ptr) {
    match inner
    case Top => true
    case Step(up, d, p, c, sib) =>
      && p in mem
      && mem[p] ==
        Rec(Lowest(up, above), c, if d == Left then hole else Root(sib), if d == Left then Root(sib) else hole)
      && Stored(mem, sib, p) && PathStored(mem, up, above, p)
  }

  lemma {:induction false} GraftStored(st: State, inner: Ctx, base: Ctx, hole: Ptr)
    ensures Parent(Graft(inner, base)) == Lowest(inner, Parent(base))
    ensures CtxStored(st, Graft(inner, base), hole) <==>
      PathStored(st.mem, inner, Parent(base), hole) && CtxStored(st, base, Highest(inner, hole))
    decreases inner
  {
    match inner
    case Top =>
    case Step(up, _, p, _, _) => GraftStored(st, up, base, p);
  }

  lemma {:induction false} GraftNodes(inner: Ctx, base: Ctx)
    ensures CtxNodes(Graft(inner, base)) == CtxNodes(inner) + CtxNodes(base)
    ensures CtxDistinct(Graft(inner, base)) <==>
      CtxDistinct(inner) && CtxDistinct(base) && CtxNodes(inner) !! CtxNodes(base)
  {
    match inner
    case Top =>
    case Step(up, _, _, _, _) => GraftNodes(up, base);
  }

  lemma {:induction false} KeepPath(st: State, st': State, inner: Ctx, above: Ptr, hole: Ptr, w: Ptr, x: Ptr, y: Ptr,
    z: Ptr)
    requires Only(st, st', w, x, y, z) && PathStored(st.mem, inner, above, hole) && Clear(CtxNodes(inner), w, x, y, z)
    ensures PathStored(st'.mem, inner, above, hole)
    decreases inner
  {
    if inner.Step? {
      KeepTree(st, st', inner.sib, inner.p, w, x, y, z);
      KeepPath(st, st', inner.up, above, inner.p, w, x, y, z);
    }
  }

  /** A path's topmost node does not depend on what hangs below. */
  lemma {:induction false} HighestAny(inner: Ctx, hole: Ptr, hole': Ptr)
    requires inner.Step?
    ensures Highest(inner, hole) == Highest(inner, hole') && Highest(inner, hole) in CtxNodes(inner)
    decreases inner
  {
    if inner.up.Step? { HighestAny(inner.up, inner.p, inner.p); }
  }

  /** Hanging something else below a left spine. */
  lemma {:induction false} ChangeLowest(st: State, inner: Ctx, above: Ptr, hole: Ptr, hole': Ptr)
    requires PathStored(st.mem, inner, above, hole) && CtxDistinct(inner) && inner.Step? && inner.d == Left
    ensures PathStored(SetChild(st.mem, inner.p, Left, hole'), inner, above, hole')
  {
    var p := inner.p;
    var st' := st.(mem := SetChild(st.mem, p, Left, hole'));
    KeepTree(st, st', inner.sib, p, p, p, p, p);
    KeepPath(st, st', inner.up, above, p, p, p, p, p);
  }

  /** Hanging a path below another node. */
  lemma {:induction false} ChangeAbove(st: State, inner: Ctx, above: Ptr, above': Ptr, hole: Ptr)
    requires PathStored(st.mem, inner, above, hole) && CtxDistinct(inner) && inner.Step?
    ensures Highest(inner, hole) in st.mem
    ensures PathStored(SetParent(st.mem, Highest(inner, hole), above'), inner, above', hole)
    decreases inner
  {
    var top := Highest(inner, hole);
    HighestAny(inner, hole, hole);
    if inner.up.Step? {
      HighestAny(inner.up, inner.p, inner.p);
      ChangeAbove(st, inner.up, above, above', inner.p);
    }
    var st' := st.(mem := SetParent(st.mem, top, above'));
    KeepTree(st, st', inner.sib, inner.p, top, top, top, top);
  }

  /** The pieces of the tree around the node `n` and its successor `s`. */
  predicate PiecesApart(ctx: Ctx, l: Tree, inner: Ctx, c2: Tree, n: Ptr, s: Ptr) {
    && CtxDistinct(ctx) && Distinct(l) && CtxDistinct(inner) && Distinct(c2)
    && CtxNodes(ctx) !! Nodes(l) && CtxNodes(ctx) !! CtxNodes(inner) && CtxNodes(ctx) !! Nodes(c2)
    && Nodes(l) !! CtxNodes(inner) && Nodes(l) !! Nodes(c2) && CtxNodes(inner) !! Nodes(c2)
    && n != NULL && n !in CtxNodes(ctx) && n !in Nodes(l) && n !in CtxNodes(inner) && n !in Nodes(c2)
    && s != NULL && s !in CtxNodes(ctx) && s !in Nodes(l) && s !in CtxNodes(inner) && s !in Nodes(c2)
    && n != s
  }

  /** The pieces in memory, each with the address it currently hangs from or holds. */
  predicate Pieces(st: State, ctx: Ctx, at: Ptr, l: Tree, lp: Ptr, inner: Ctx, above: Ptr, hole: Ptr, c2: Tree,
    cp: Ptr) {
    && CtxStored(st, ctx, at) && Stored(st.mem, l, lp)
    && PathStored(st.mem, inner, above, hole) && Stored(st.mem, c2, cp)
  }

  lemma {:induction false} PiecesHold(st: State, ctx: Ctx, l: Tree, n: Ptr, c: Color, inner: Ctx, s: Ptr, sc: Color,
    c2: Tree)
    requires Holds(st, Plug(Graft(inner, Step(ctx, Right, n, c, l)), Node(Leaf, s, sc, c2)))
    ensures PiecesApart(ctx, l, inner, c2, n, s)
    ensures Pieces(st, ctx, n, l, n, inner, n, s, c2, s)
    ensures n in st.mem && st.mem[n] == Rec(Parent(ctx), c, Root(l), Highest(inner, s))
    ensures s in st.mem && st.mem[s] == Rec(Lowest(inner, n), sc, NULL, Root(c2))
  {
    hide Plug, Holds, PathStored, Graft;
    var base := Step(ctx, Right, n, c, l);
    HoldsPlug(st, Graft(inner, base), Node(Leaf, s, sc, c2));
    GraftStored(st, inner, base, s);
    GraftNodes(inner, base);
  }

  lemma {:induction false} PiecesKeep(st: State, st': State, ctx: Ctx, at: Ptr, l: Tree, lp: Ptr, inner: Ctx,
    above: Ptr, hole: Ptr, c2: Tree, cp: Ptr, n: Ptr, s: Ptr)
    requires PiecesApart(ctx, l, inner, c2, n, s) && Pieces(st, ctx, at, l, lp, inner, above, hole, c2, cp)
    requires Only(st, st', s, s, s, s)
    ensures Pieces(st', ctx, at, l, lp, inner, above, hole, c2, cp)
  {
    hide CtxStored, Stored, PathStored, CtxDistinct, Distinct, Nodes, CtxNodes, Only;
    KeepCtx(st, st', ctx, at, s, s, s, s);
    KeepTree(st, st', l, lp, s, s, s, s);
    KeepPath(st, st', inner, above, hole, s, s, s, s);
    KeepTree(st, st', c2, cp, s, s, s, s);
  }

  /** The lowest spine node gets the successor's right subtree. */
  lemma {:induction false} SpineLow(st: State, ctx: Ctx, l: Tree, inner: Ctx, c2: Tree, n: Ptr, s: Ptr)
    requires PiecesApart(ctx, l, inner, c2, n, s) && Pieces(st, ctx, n, l, n, inner, n, s, c2, s)
    requires inner.Step? && LeftSpine(inner)
    ensures inner.p in st.mem
    ensures Pieces(st.(mem := SetChild(st.mem, inner.p, Left, Root(c2))), ctx, n, l, n, inner, n, Root(c2), c2, s)
  {
    hide CtxStored, Stored, CtxDistinct, Distinct, Nodes;
    var p := inner.p;
    var st' := st.(mem := SetChild(st.mem, p, Left, Root(c2)));
    ChangeLowest(st, inner, n, s, Root(c2));
    KeepCtx(st, st', ctx, n, p, p, p, p);
    KeepTree(st, st', l, n, p, p, p, p);
    KeepTree(st, st', c2, s, p, p, p, p);
  }

  /** The spine hangs below the successor. */
  lemma {:induction false} SpineHigh(st: State, ctx: Ctx, l: Tree, inner: Ctx, c2: Tree, n: Ptr, s: Ptr, top: Ptr)
    requires PiecesApart(ctx, l, inner, c2, n, s) && Pieces(st, ctx, n, l, n, inner, n, Root(c2), c2, s)
    requires inner.Step? && top == Highest(inner, s)
    ensures top in st.mem
    ensures Pieces(st.(mem := SetParent(st.mem, top, s)), ctx, n, l, n, inner, s, Root(c2), c2, s)
  {
    hide CtxStored, Stored, CtxDistinct, Distinct, Nodes, CtxNodes, PathStored;
    HighestAny(inner, s, Root(c2));
    ChangeAbove(st, inner, n, s, Root(c2));
    var st' := st.(mem := SetParent(st.mem, top, s));
    KeepCtx(st, st', ctx, n, top, top, top, top);
    KeepTree(st, st', l, n, top, top, top, top);
    KeepTree(st, st', c2, s, top, top, top, top);
  }

  lemma {:induction false} EmptySpine(st: State, ctx: Ctx, l: Tree, c2: Tree, n: Ptr, s: Ptr)
    requires Pieces(st, ctx, n, l, n, Top, n, s, c2, s)
    ensures Pieces(st, ctx, n, l, n, Top, s, Root(c2), c2, s)
  {
  }

  /** The records written on the way are all different from the node's and the successor's. */
  lemma {:induction false} PiecesDiffer(ctx: Ctx, l: Tree, inner: Ctx, c2: Tree, n: Ptr, s: Ptr)
    requires PiecesApart(ctx, l, inner, c2, n, s) && l.Node?
    ensures n != s && s != NULL && l.p != n && l.p != s && l.p != NULL
    ensures inner.Step? ==> inner.p != n && inner.p != s && Highest(inner, s) != n && Highest(inner, s) != s
    ensures inner.Step? ==> Highest(inner, s) == Highest(inner, Root(c2))
    ensures inner.Top? ==> Highest(inner, s) == s && Highest(inner, Root(c2)) == Root(c2)
    ensures ctx.Step? ==> ctx.p != NULL && ctx.p != s
    ensures c2.Node? ==> c2.p != NULL && c2.p != s
  {
    RootAmong(l);
    if inner.Step? { HighestAny(inner, s, Root(c2)); }
    if c2.Node? { RootAmong(c2); }
  }

  /** The left subtree hangs below the successor. */
  lemma {:induction false} LeftMoves(st: State, ctx: Ctx, l: Tree, inner: Ctx, c2: Tree, n: Ptr, s: Ptr, hole: Ptr,
    above: Ptr)
    requires PiecesApart(ctx, l, inner, c2, n, s) && Pieces(st, ctx, n, l, n, inner, above, hole, c2, s) && l.Node?
    ensures l.p in st.mem && l.p != s
    ensures Pieces(st.(mem := SetParent(st.mem, l.p, s)), ctx, n, l, s, inner, above, hole, c2, s)
  {
    assert l.p in st.mem;
    var q := l.p;
    var st' := st.(mem := SetParent(st.mem, q, s));
    assert Only(st, st', q, q, q, q);
    LeftMovesFrame(st, st', ctx, l, inner, c2, n, s, hole, above);
  }

  lemma {:induction false} LeftMovesFrame(st: State, st': State, ctx: Ctx, l: Tree, inner: Ctx, c2: Tree, n: Ptr,
    s: Ptr, hole: Ptr, above: Ptr)
    requires PiecesApart(ctx, l, inner, c2, n, s) && Pieces(st, ctx, n, l, n, inner, above, hole, c2, s) && l.Node?
    requires l.p in st.mem && st' == st.(mem := SetParent(st.mem, l.p, s)) && st.mem[l.p].color == l.color
    ensures Pieces(st', ctx, n, l, s, inner, above, hole, c2, s)
  {
    hide CtxStored, Stored, CtxDistinct, Distinct, Nodes, CtxNodes, PathStored;
    var q := l.p;
    RootAmong(l);
    KeepCtx(st, st', ctx, n, q, q, q, q);
    KeepTree(st, st', c2, s, q, q, q, q);
    KeepPath(st, st', inner, above, hole, q, q, q, q);
    MoveTree(st, st', l, n, s, l.color, s, s, s);
    PaintSame(l);
  }

  /** Whatever pointed to the node points to the successor. */
  lemma {:induction false} ParentMoves(st: State, ctx: Ctx, l: Tree, inner: Ctx, c2: Tree, n: Ptr, s: Ptr, hole: Ptr,
    above: Ptr)
    requires PiecesApart(ctx, l, inner, c2, n, s) && Pieces(st, ctx, n, l, s, inner, above, hole, c2, s)
    ensures Parent(ctx) != NULL ==> Parent(ctx) in st.mem && Parent(ctx) != s
    ensures Pieces(ChangeChild(st, n, s, Parent(ctx)), ctx, s, l, s, inner, above, hole, c2, s)
  {
    ChangeChildStored(st, ctx, n, s);
    if ctx.Step? {
      assert ctx.p in CtxNodes(ctx);
      ParentMovesFrame(st, ChangeChild(st, n, s, Parent(ctx)), ctx, l, inner, c2, n, s, hole, above);
    }
  }

  lemma {:induction false} ParentMovesFrame(st: State, st': State, ctx: Ctx, l: Tree, inner: Ctx, c2: Tree, n: Ptr,
    s: Ptr, hole: Ptr, above: Ptr)
    requires PiecesApart(ctx, l, inner, c2, n, s) && Pieces(st, ctx, n, l, s, inner, above, hole, c2, s)
    requires ctx.Step? && ctx.p in CtxNodes(ctx) && Only(st, st', ctx.p, ctx.p, ctx.p, ctx.p)
    ensures Stored(st'.mem, l, s) && PathStored(st'.mem, inner, above, hole) && Stored(st'.mem, c2, s)
  {
    hide CtxStored, Stored, CtxDistinct, Distinct, Nodes, CtxNodes, PathStored, Only;
    var p := ctx.p;
    KeepTree(st, st', l, s, p, p, p, p);
    KeepTree(st, st', c2, s, p, p, p, p);
    KeepPath(st, st', inner, above, hole, p, p, p, p);
  }

  /** The successor's right subtree hangs below the spine, painted black. */
  lemma {:induction false} RightMoves(st: State, ctx: Ctx, l: Tree, inner: Ctx, c2: Tree, n: Ptr, s: Ptr, p: Ptr,
    above: Ptr)
    requires PiecesApart(ctx, l, inner, c2, n, s) && Pieces(st, ctx, s, l, s, inner, above, Root(c2), c2, s) && c2.Node?
    ensures c2.p in st.mem && c2.p != s
    ensures Pieces(st.(mem := SetParentColor(st.mem, c2.p, p, Black)), ctx, s, l, s, inner, above, Root(c2),
                   Paint(c2, Black), p)
  {
    assert c2.p in st.mem;
    RightMovesFrame(st, st.(mem := SetParentColor(st.mem, c2.p, p, Black)), ctx, l, inner, c2, n, s, p, above);
    RootAmong(c2);
  }

  lemma {:induction false} RightMovesFrame(st: State, st': State, ctx: Ctx, l: Tree, inner: Ctx, c2: Tree, n: Ptr,
    s: Ptr, p: Ptr, above: Ptr)
    requires PiecesApart(ctx, l, inner, c2, n, s) && Pieces(st, ctx, s, l, s, inner, above, Root(c2), c2, s) && c2.Node?
    requires c2.p in st.mem && st' == st.(mem := SetParentColor(st.mem, c2.p, p, Black))
    ensures Pieces(st', ctx, s, l, s, inner, above, Root(c2), Paint(c2, Black), p)
  {
    hide CtxStored, Stored, CtxDistinct, Distinct, Nodes, CtxNodes, PathStored;
    var q := c2.p;
    RootAmong(c2);
    KeepCtx(st, st', ctx, s, q, q, q, q);
    KeepTree(st, st', l, s, q, q, q, q);
    KeepPath(st, st', inner, above, Root(c2), q, q, q, q);
    MoveTree(st, st', c2, s, p, Black, s, s, s);
  }

  /** The pieces put together again, with the successor in the node's place. */
  lemma {:induction false} PiecesJoin(st: State, ctx: Ctx, l: Tree, n: Ptr, c: Color, inner: Ctx, s: Ptr, c2: Tree)
    requires PiecesApart(ctx, l, inner, c2, n, s)
    requires Pieces(st, ctx, s, l, s, inner, s, Root(c2), c2, Lowest(inner, s))
    requires s in st.mem && st.mem[s] == Rec(Parent(ctx), c, Root(l), Highest(inner, Root(c2)))
    ensures Holds(st, Plug(Graft(inner, Step(ctx, Right, s, c, l)), c2))
  {
    hide Plug, Holds, PathStored, Graft, Nodes, Distinct;
    var base := Step(ctx, Right, s, c, l);
    GraftStored(st, inner, base, Root(c2));
    GraftNodes(inner, base);
    HoldsPlug(st, Graft(inner, base), c2);
  }

  /** The walk to the successor: down the left spine of the right subtree. */
  method FindSuccessor(st: State, node: Ptr, ghost r: Tree, ghost rp: Ptr)
    returns (successor: Ptr, parent: Ptr, ghost inner: Ctx, ghost sub: Tree)
    requires node in st.mem && r.Node? && st.mem[node].right == r.p && Stored(st.mem, r, rp) && Distinct(r)
    ensures Plug(inner, sub) == r && LeftSpine(inner) && sub.Node? && sub.left.Leaf? && sub.p == successor
    ensures inner.Top? ==> successor == r.p && parent == successor
    ensures inner.Step? ==> successor != r.p && parent == inner.p
  {
    successor := st.mem[node].right;
    parent := successor;
    inner, sub := Top, r;
    var tmp := st.mem[successor].left;
    ghost var sp := rp;
    while tmp != NULL
      invariant Plug(inner, sub) == r && LeftSpine(inner) && Stored(st.mem, sub, sp) && Distinct(sub)
      invariant sub.Node? && sub.p == successor && tmp == Root(sub.left)
      invariant inner.Top? ==> successor == r.p && parent == successor
      invariant inner.Step? ==> parent == inner.p && r.p !in Nodes(sub)
      decreases sub
    {
      assert r.p !in Nodes(sub.left);
      parent := successor;
      successor := tmp;
      tmp := st.mem[tmp].left;
      inner, sp, sub := Step(inner, Left, sub.p, sub.color, sub.right), sub.p, sub.left;
    }
    NullRoot(sub.left);
    RootAmong(sub);
  }

  lemma {:induction false} NullRoot(t: Tree)
    requires Distinct(t) && Root(t) == NULL
    ensures t.Leaf?
  {
  }

  /** The relinking when the node has two children. Returns the colour the successor had. */
  method SpliceIn(st0: State, node: Ptr, successor: Ptr, parent: Ptr,
                  ghost ctx: Ctx, ghost l: Tree, ghost c: Color, ghost inner: Ctx, ghost sc: Color, ghost c2: Tree)
    returns (st: State, child2: Ptr, color: Color)
    requires Holds(st0, Plug(Graft(inner, Step(ctx, Right, node, c, l)), Node(Leaf, successor, sc, c2)))
    requires l.Node? && LeftSpine(inner) && parent == Lowest(inner, successor)
    requires inner.Top? <==> node in st0.mem && st0.mem[node].right == successor
    ensures Holds(st, Plug(Graft(inner, Step(ctx, Right, successor, c, l)), Paint(c2, Black)))
    ensures child2 == Root(c2) && color == sc
  {
    hide Plug, Holds, Graft, CtxStored, Stored, PathStored, CtxDistinct, Distinct, Nodes, CtxNodes, PiecesApart, Pieces;
    hide Highest, ChangeChild;
    PiecesHold(st0, ctx, l, node, c, inner, successor, sc, c2);
    PiecesDiffer(ctx, l, inner, c2, node, successor);
    st := st0;
    var child := st.mem[node].right;
    child2 := st.mem[successor].right;
    color := st.mem[successor].color;
    ghost var s1 := st;
    if successor != child {
      SpineLow(st, ctx, l, inner, c2, node, successor);
      st := st.(mem := SetChild(st.mem, parent, Left, child2));
      s1 := st;
      st := st.(mem := SetChild(st.mem, successor, Right, child));
      PiecesKeep(s1, st, ctx, node, l, node, inner, node, child2, c2, successor, node, successor);
      SpineHigh(st, ctx, l, inner, c2, node, successor, child);
      st := st.(mem := SetParent(st.mem, child, successor));
    } else {
      EmptySpine(st, ctx, l, c2, node, successor);
    }
    var tmp := st.mem[node].left;
    s1 := st;
    st := st.(mem := SetChild(st.mem, successor, Left, tmp));
    PiecesKeep(s1, st, ctx, node, l, node, inner, successor, child2, c2, successor, node, successor);
    LeftMoves(st, ctx, l, inner, c2, node, successor, child2, successor);
    st := st.(mem := SetParent(st.mem, tmp, successor));
    st := FinishSplice(st, node, successor, parent, child2, ctx, l, c, inner, c2);
  }

  /** The last writes of the relinking: the node's parent, the successor's own parent and colour, its right subtree. */
  method FinishSplice(st0: State, node: Ptr, successor: Ptr, parent: Ptr, child2: Ptr,
                      ghost ctx: Ctx, ghost l: Tree, ghost c: Color, ghost inner: Ctx, ghost c2: Tree)
    returns (st: State)
    requires PiecesApart(ctx, l, inner, c2, node, successor) && l.Node?
    requires Pieces(st0, ctx, node, l, successor, inner, successor, child2, c2, successor)
    requires child2 == Root(c2) && parent == Lowest(inner, successor)
    requires node in st0.mem && st0.mem[node].parent == Parent(ctx) && st0.mem[node].color == c
    requires successor in st0.mem && st0.mem[successor].left == Root(l)
    requires st0.mem[successor].right == Highest(inner, child2)
    ensures Holds(st, Plug(Graft(inner, Step(ctx, Right, successor, c, l)), Paint(c2, Black)))
  {
    hide Plug, Holds, Graft, CtxStored, Stored, PathStored, CtxDistinct, Distinct, Nodes, CtxNodes, PiecesApart, Pieces;
    hide Highest;
    PiecesDiffer(ctx, l, inner, c2, node, successor);
    st := st0;
    var up, color := st.mem[node].parent, st.mem[node].color;
    ParentMoves(st, ctx, l, inner, c2, node, successor, child2, successor);
    st := ChangeChild(st, node, successor, up);
    ghost var s1 := st;
    st := st.(mem := SetParentColor(st.mem, successor, up, color));
    PiecesKeep(s1, st, ctx, successor, l, successor, inner, successor, child2, c2, successor, node, successor);
    if child2 != NULL {
      RightMoves(st, ctx, l, inner, c2, node, successor, parent, successor);
      st := st.(mem := SetParentColor(st.mem, child2, parent, Black));
    } else {
      BareRight(st, ctx, l, inner, c2, successor, parent);
    }
    PaintApart(ctx, l, inner, c2, node, successor);
    PiecesJoin(st, ctx, l, node, c, inner, successor, Paint(c2, Black));
  }

  lemma {:induction false} BareRight(st: State, ctx: Ctx, l: Tree, inner: Ctx, c2: Tree, s: Ptr, p: Ptr)
    requires Pieces(st, ctx, s, l, s, inner, s, Root(c2), c2, s) && c2.Leaf?
    ensures Pieces(st, ctx, s, l, s, inner, s, Root(c2), Paint(c2, Black), p)
  {
  }

  lemma {:induction false} PaintApart(ctx: Ctx, l: Tree, inner: Ctx, c2: Tree, n: Ptr, s: Ptr)
    requires PiecesApart(ctx, l, inner, c2, n, s)
    ensures PiecesApart(ctx, l, inner, Paint(c2, Black), n, s) && Root(Paint(c2, Black)) == Root(c2)
  {
    PaintShape(c2, Black);
  }

  /** __rb_erase_augmented. `rebalance` is the node below which a black node is missing, or NULL. */
  method Unlink(st0: State, node: Ptr, ghost ctx: Ctx, ghost t: Tree)
    returns (st: State, rebalance: Ptr, ghost at: Ctx, ghost tree: Tree)
    requires Holds(st0, Plug(ctx, t)) && RedBlack(Plug(ctx, t)) && t.Node? && t.p == node
    ensures Holds(st, tree) && InOrder(tree) == Remove(InOrder(Plug(ctx, t)), node)
    ensures rebalance == NULL ==> RedBlack(tree)
    ensures rebalance != NULL ==> tree == Plug(at, Leaf) && Short(at, Leaf) && at.p == rebalance
  {
    hide Holds, InOrder, RedBlack, Short, Remove, Plug, ChangeChild;
    AtNode(st0, ctx, t);
    st := st0;
    at := ctx;
    var child, tmp, parent, color := st.mem[node].right, st.mem[node].left, st.mem[node].parent, st.mem[node].color;
    if tmp == NULL || child == NULL {
      var d := if tmp == NULL then Right else Left;
      var only := if tmp == NULL then child else tmp;
      ghost var sub := if tmp == NULL then t.right else t.left;
      assert t == Mk(d, sub, node, color, Leaf);
      PromoteOrder(ctx, d, sub, node, color);
      PromoteRedBlack(ctx, d, sub, node, color);
      st := ChangeChild(st, node, only, parent);
      ChangeKeys(st0, node, only, parent);
      if only != NULL {
        st := st.(mem := SetParentColor(st.mem, only, parent, color));
        rebalance := NULL;
      } else {
        rebalance := if color == Black then parent else NULL;
      }
      PromoteStored(st0, ChangeChild(st0, node, only, parent), st, ctx, d, sub, node, color);
      tree := Plug(ctx, Paint(sub, color));
      assert sub.Leaf? ==> Paint(sub, color) == Leaf;
    } else {
      ghost var inner, sub;
      var successor;
      successor, parent, inner, sub := FindSuccessor(st, node, t.right, node);
      SuccessorFacts(ctx, t, inner, sub);
      var child2, color2;
      st, child2, color2 := SpliceIn(st, node, successor, parent, ctx, t.left, color, inner, sub.color, sub.right);
      SpliceRedBlack(ctx, t.left, node, color, inner, successor, sub.color, sub.right);
      SpliceOrder(ctx, t.left, node, color, inner, successor, sub.color, sub.right, Black);
      at := Graft(inner, Step(ctx, Right, successor, color, t.left));
      tree := Plug(at, Paint(sub.right, Black));
      if child2 != NULL {
        rebalance := NULL;
      } else {
        rebalance := if color2 == Black then parent else NULL;
      }
      SpliceEnds(st, tree, at, sub.right, inner, ctx, successor, color, t.left);
    }
  }

  lemma {:induction false} ChangeKeys(st: State, old_: Ptr, new_: Ptr, parent: Ptr)
    requires parent != NULL ==> parent in st.mem
    ensures ChangeChild(st, old_, new_, parent).mem.Keys == st.mem.Keys
  {
  }

  /** What the code reads at the node to erase. */
  lemma {:induction false} AtNode(st: State, ctx: Ctx, t: Tree)
    requires Holds(st, Plug(ctx, t)) && t.Node?
    ensures Apart(ctx, t)
    ensures t.p in st.mem && st.mem[t.p] == Rec(Parent(ctx), t.color, Root(t.left), Root(t.right))
    ensures t.left.Node? ==> t.left.p != NULL && t.left.p in st.mem
    ensures t.right.Node? ==> t.right.p != NULL && t.right.p in st.mem
    ensures Stored(st.mem, t.right, t.p) && Distinct(t.right)
    ensures ctx.Step? ==> ctx.p != NULL && ctx.p in st.mem
  {
    HoldsPlug(st, ctx, t);
    assert Distinct(t.left) && Distinct(t.right);
    assert Stored(st.mem, t.left, t.p) && Stored(st.mem, t.right, t.p);
  }

  lemma {:induction false} SuccessorFacts(ctx: Ctx, t: Tree, inner: Ctx, sub: Tree)
    requires Apart(ctx, t) && t.Node? && Plug(inner, sub) == t.right
    ensures Plug(Graft(inner, Step(ctx, Right, t.p, t.color, t.left)), sub) == Plug(ctx, t)
    ensures t.p !in Before(ctx) && t.p !in InOrder(t.left)
  {
    PlugGraft(inner, Step(ctx, Right, t.p, t.color, t.left), sub);
    BeforeNodes(ctx);
    NodesInOrder(t.left);
  }

  lemma {:induction false} SpliceEnds(st: State, tree: Tree, at: Ctx, c2: Tree, inner: Ctx, ctx: Ctx, s: Ptr, c: Color,
    l: Tree)
    requires at == Graft(inner, Step(ctx, Right, s, c, l)) && tree == Plug(at, Paint(c2, Black)) && Holds(st, tree)
    ensures at.Step? && at.p == Lowest(inner, s) && at.p != NULL
    ensures c2.Leaf? ==> tree == Plug(at, Leaf)
    ensures Root(c2) == NULL <==> c2.Leaf?
  {
    HoldsPlug(st, at, Paint(c2, Black));
    PaintShape(c2, Black);
  }
}
