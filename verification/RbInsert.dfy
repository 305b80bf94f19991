/** __rb_insert: recolouring and rotating after a red node has been linked in. */
module RbInsert {
  import opened RbTree
  import opened RbMemory
  import opened RbRotate

  /** The loop invariant of the fix-up: the node is red, and the only thing wrong is above it. */
  predicate Fixing(ctx: Ctx, t: Tree) {
    && t.Node? && t.color == Red && Balanced(t) && RedOk(t)
    && CtxBalanced(ctx, BlackHeight(t)) && CtxRedOk(ctx)
  }

  /** The invariants of a position two steps deep, read off one step at a time. */
  lemma {:induction false} OneUp(up: Ctx, d: Dir, g: Ptr, gc: Color, u: Tree, d2: Dir, p: Ptr, pc: Color, sib: Tree,
    h: nat)
    requires CtxBalanced(Step(Step(up, d, g, gc, u), d2, p, pc, sib), h)
    requires CtxRedOk(Step(Step(up, d, g, gc, u), d2, p, pc, sib))
    ensures var h' := h + (if pc == Black then 1 else 0);
      && CtxBalanced(Step(up, d, g, gc, u), h') && Balanced(u) && BlackHeight(u) == h'
      && CtxBalanced(up, h' + if gc == Black then 1 else 0)
    ensures CtxRedOk(Step(up, d, g, gc, u)) && RedOk(u) && CtxRedOk(up)
    ensures Balanced(sib) && BlackHeight(sib) == h && RedOk(sib)
    ensures pc == Red ==> ColorOf(sib) == Black && gc == Black
  {
    var ctx := Step(up, d, g, gc, u);
    assert CtxBalanced(ctx, h + if pc == Black then 1 else 0);
    assert CtxRedOk(ctx);
  }

  // ----- The cases on trees -----

  function Flipped(d: Dir, d2: Dir, t: Tree, p: Ptr, sib: Tree, g: Ptr, u: Tree): Tree {
    Mk(d, Mk(d2, t, p, Black, sib), g, Red, Paint(u, Black))
  }

  /** Case 1: the violation moves two levels up. */
  lemma {:induction false} FlipKeeps(up: Ctx, d: Dir, d2: Dir, t: Tree, p: Ptr, sib: Tree, g: Ptr, gc: Color, u: Tree)
    requires Fixing(Step(Step(up, d, g, gc, u), d2, p, Red, sib), t) && ColorOf(u) == Red
    ensures Fixing(up, Flipped(d, d2, t, p, sib, g, u))
  {
    OneUp(up, d, g, gc, u, d2, p, Red, sib, BlackHeight(t));
    MkShape(d2, t, p, Black, sib);
    PaintShape(u, Black);
    MkShape(d, Mk(d2, t, p, Black, sib), g, Red, Paint(u, Black));
  }

  lemma {:induction false} FlipOrder(up: Ctx, d: Dir, d2: Dir, t: Tree, p: Ptr, sib: Tree, g: Ptr, gc: Color, u: Tree)
    ensures InOrder(Plug(Step(Step(up, d, g, gc, u), d2, p, Red, sib), t))
      == InOrder(Plug(up, Flipped(d, d2, t, p, sib, g, u)))
  {
    PaintShape(u, Black);
    ColorKeepsOrder(d2, t, t, p, Red, Black, sib, sib);
    ColorKeepsOrder(d, Mk(d2, t, p, Red, sib), Mk(d2, t, p, Black, sib), g, gc, Red, u, Paint(u, Black));
    SameOrder(up, Mk(d, Mk(d2, t, p, Red, sib), g, gc, u), Flipped(d, d2, t, p, sib, g, u));
  }

  /** Case 3: the rotated subtree restores every invariant. */
  lemma {:induction false} OuterDone(up: Ctx, d: Dir, t: Tree, p: Ptr, sib: Tree, g: Ptr, gc: Color, u: Tree)
    requires Fixing(Step(Step(up, d, g, gc, u), d, p, Red, sib), t) && ColorOf(u) == Black
    ensures gc == Black && ColorOf(sib) == Black
    ensures RedBlack(Plug(up, Mk(d, t, p, Black, Mk(d, sib, g, Red, u))))
  {
    OneUp(up, d, g, gc, u, d, p, Red, sib, BlackHeight(t));
    MkShape(d, sib, g, Red, u);
    MkShape(d, t, p, Black, Mk(d, sib, g, Red, u));
    RedBlackPlug(up, Mk(d, t, p, Black, Mk(d, sib, g, Red, u)));
  }

  lemma {:induction false} OuterOrder(up: Ctx, d: Dir, t: Tree, p: Ptr, sib: Tree, g: Ptr, gc: Color, u: Tree)
    ensures InOrder(Plug(Step(Step(up, d, g, gc, u), d, p, Red, sib), t))
      == InOrder(Plug(up, Mk(d, t, p, Black, Mk(d, sib, g, Red, u))))
  {
    RotationKeepsOrder(d, t, p, Red, sib, g, gc, u, Black, Red);
    SameOrder(up, Mk(d, Mk(d, t, p, Red, sib), g, gc, u), Mk(d, t, p, Black, Mk(d, sib, g, Red, u)));
  }

  /** Cases 2 and 3 together. */
  lemma {:induction false} InnerDone(up: Ctx, d: Dir, a: Tree, p: Ptr, b: Tree, n: Ptr, c: Tree, g: Ptr, gc: Color,
    u: Tree)
    requires Fixing(Step(Step(up, d, g, gc, u), d.Other(), p, Red, a), Mk(d, b, n, Red, c)) && ColorOf(u) == Black
    ensures gc == Black && ColorOf(b) == Black == ColorOf(c)
    ensures RedBlack(Plug(up, Mk(d, Mk(d, a, p, Red, b), n, Black, Mk(d, c, g, Red, u))))
  {
    OneUp(up, d, g, gc, u, d.Other(), p, Red, a, BlackHeight(Mk(d, b, n, Red, c)));
    MkShape(d, b, n, Red, c);
    MkShape(d, a, p, Red, b);
    MkShape(d, c, g, Red, u);
    MkShape(d, Mk(d, a, p, Red, b), n, Black, Mk(d, c, g, Red, u));
    RedBlackPlug(up, Mk(d, Mk(d, a, p, Red, b), n, Black, Mk(d, c, g, Red, u)));
  }

  lemma {:induction false} InnerOrder(up: Ctx, d: Dir, a: Tree, p: Ptr, b: Tree, n: Ptr, c: Tree, g: Ptr, gc: Color,
    u: Tree)
    ensures InOrder(Plug(Step(Step(up, d, g, gc, u), d.Other(), p, Red, a), Mk(d, b, n, Red, c)))
      == InOrder(Plug(up, Mk(d, Mk(d, a, p, Red, b), n, Black, Mk(d, c, g, Red, u))))
  {
    var inner := Mk(d, a, p, Red, Mk(d, b, n, Red, c));
    var outer := Mk(d, Mk(d, a, p, Red, b), n, Red, c);
    assert inner == Mk(d.Other(), Mk(d, b, n, Red, c), p, Red, a);
    RotationKeepsOrder(d, a, p, Red, b, n, Red, c, Red, Red);
    ColorKeepsOrder(d, inner, outer, g, gc, gc, u, u);
    RotationKeepsOrder(d, Mk(d, a, p, Red, b), n, Red, c, g, gc, u, Black, Red);
    SameOrder(up, Mk(d, inner, g, gc, u), Mk(d, Mk(d, a, p, Red, b), n, Black, Mk(d, c, g, Red, u)));
  }

  /** Nothing left to fix: the node's parent is black, or the node is the root and is painted black. */
  lemma {:induction false} FixedUnderBlack(ctx: Ctx, t: Tree)
    requires Fixing(ctx, t) && UnderBlack(ctx)
    ensures RedBlack(Plug(ctx, t))
  {
    RedBlackPlug(ctx, t);
  }

  // ----- The cases in memory -----

  lemma {:induction false} ApartTwice(up: Ctx, d: Dir, g: Ptr, gc: Color, u: Tree, d2: Dir, p: Ptr, sib: Tree, t: Tree)
    requires Apart(Step(Step(up, d, g, gc, u), d2, p, Red, sib), t)
    ensures Separate(up, t, p, sib, g, u)
  {
    assert CtxDistinct(Step(up, d, g, gc, u));
  }

  /** The writes of case 1. */
  function FlipColors(s: State, u: Ptr, p: Ptr, g: Ptr): (s': State)
    requires {u, p, g} <= s.mem.Keys && u != p && u != g && p != g
    ensures Only(s, s', u, p, g, g)
    ensures s'.mem[u] == s.mem[u].(parent := g, color := Black)
    ensures s'.mem[p] == s.mem[p].(parent := g, color := Black)
    ensures s'.mem[g] == s.mem[g].(color := Red)
  {
    var mem1 := SetParentColor(s.mem, u, g, Black);
    var mem2 := SetParentColor(mem1, p, g, Black);
    s.(mem := SetParentColor(mem2, g, mem2[g].parent, Red))
  }

  lemma {:induction false} FlipStored(s: State, up: Ctx, d: Dir, d2: Dir, t: Tree, p: Ptr, sib: Tree, g: Ptr, gc: Color,
    u: Tree)
    requires Holds(s, Plug(Step(Step(up, d, g, gc, u), d2, p, Red, sib), t)) && u.Node?
    ensures {u.p, p, g} <= s.mem.Keys && u.p != p && u.p != g && p != g && s.mem[g].parent == Parent(up)
    ensures Holds(FlipColors(s, u.p, p, g), Plug(up, Flipped(d, d2, t, p, sib, g, u)))
  {
    hide Holds, Stored, CtxStored, Distinct, CtxDistinct, Nodes, CtxNodes, FlipColors, Plug;
    HoldsPlug(s, Step(Step(up, d, g, gc, u), d2, p, Red, sib), t);
    ApartTwice(up, d, g, gc, u, d2, p, sib, t);
    FlipAllowed(s, up, d, d2, t, p, sib, g, gc, u);
    MkShape(d2, t, p, Black, sib);
    PaintShape(u, Black);
    MkShape(d, Mk(d2, t, p, Black, sib), g, Red, Paint(u, Black));
    var s' := FlipColors(s, u.p, p, g);
    FlipLocal(s, s', up, d, d2, t, p, sib, g, gc, u);
    HoldsPlug(s', up, Flipped(d, d2, t, p, sib, g, u));
  }

  lemma {:induction false} FlipAllowed(s: State, up: Ctx, d: Dir, d2: Dir, t: Tree, p: Ptr, sib: Tree, g: Ptr,
    gc: Color, u: Tree)
    requires Separate(up, t, p, sib, g, u) && u.Node?
    requires CtxStored(s, Step(Step(up, d, g, gc, u), d2, p, Red, sib), Root(t))
    ensures {u.p, p, g} <= s.mem.Keys && u.p != p && u.p != g && p != g && s.mem[g].parent == Parent(up)
    ensures s.mem[p].Child(d2) == Root(t) && s.mem[p].Child(d2.Other()) == Root(sib)
    ensures s.mem[g].Child(d) == p && s.mem[g].Child(d.Other()) == Root(u)
    ensures Stored(s.mem, sib, p) && Stored(s.mem, u, g) && CtxStored(s, up, g)
  {
    assert CtxStored(s, Step(up, d, g, gc, u), p);
    assert u.p in Nodes(u);
  }

  lemma {:induction false} FlipLocal(s: State, s': State, up: Ctx, d: Dir, d2: Dir, t: Tree, p: Ptr, sib: Tree, g: Ptr,
    gc: Color, u: Tree)
    requires Separate(up, t, p, sib, g, u) && u.Node?
    requires CtxStored(s, Step(Step(up, d, g, gc, u), d2, p, Red, sib), Root(t)) && Stored(s.mem, t, p)
    requires {u.p, p, g} <= s.mem.Keys && u.p != p && u.p != g && p != g
    requires s' == FlipColors(s, u.p, p, g)
    ensures CtxStored(s', up, g) && Stored(s'.mem, Flipped(d, d2, t, p, sib, g, u), Parent(up))
  {
    hide Stored, CtxStored, CtxNodes, Distinct, CtxDistinct, FlipColors;
    FlipAllowed(s, up, d, d2, t, p, sib, g, gc, u);
    assert u.p in Nodes(u);
    KeepTree(s, s', t, p, u.p, p, g, g);
    KeepTree(s, s', sib, p, u.p, p, g, g);
    MoveTree(s, s', u, g, g, Black, p, g, g);
    KeepCtx(s, s', up, g, u.p, p, g, g);
    MkStored(s'.mem, d2, t, p, Black, sib, g);
    MkStored(s'.mem, d, Mk(d2, t, p, Black, sib), g, Red, Paint(u, Black), Parent(up));
  }

  /** The writes of case 2: `n` takes the place of its parent `p` below the grandparent, whose link to it
      and n's own parent field are left for case 3. */
  function TurnInner(s: State, d: Dir, p: Ptr, n: Ptr): (s': State)
    requires p in s.mem && n in s.mem && p != n
    requires var tmp := s.mem[n].Child(d); tmp == NULL || (tmp in s.mem && tmp != p && tmp != n)
    ensures var tmp := s.mem[n].Child(d);
      && Only(s, s', if tmp == NULL then p else tmp, p, n, n)
      && s'.mem[n] == s.mem[n].WithChild(d, p)
      && s'.mem[p] == s.mem[p].WithChild(d.Other(), tmp).(parent := n, color := Red)
      && (tmp != NULL ==> s'.mem[tmp] == s.mem[tmp].(parent := p, color := Black))
  {
    var tmp := s.mem[n].Child(d);
    var mem1 := SetChild(s.mem, p, d.Other(), tmp);
    var mem2 := SetChild(mem1, n, d, p);
    var mem3 := if tmp == NULL then mem2 else SetParentColor(mem2, tmp, p, Black);
    s.(mem := SetParentColor(mem3, p, n, Red))
  }

  /** The pieces around an inner grandchild, and what the memory says of them. */
  predicate InnerParts(s: State, up: Ctx, d: Dir, a: Tree, p: Ptr, b: Tree, n: Ptr, c: Tree, g: Ptr, u: Tree) {
    && Separate(up, Mk(d, b, n, Red, c), p, a, g, u) && Distinct(Mk(d, b, n, Red, c))
    && CtxStored(s, up, g)
    && p in s.mem && s.mem[p].Child(d) == Root(a) && s.mem[p].Child(d.Other()) == n
    && n in s.mem && s.mem[n].Child(d) == Root(b) && s.mem[n].Child(d.Other()) == Root(c)
    && g in s.mem && s.mem[g].Child(d.Other()) == Root(u) && s.mem[g].parent == Parent(up)
    && Stored(s.mem, a, p) && Stored(s.mem, b, n) && Stored(s.mem, c, n) && Stored(s.mem, u, g)
  }

  lemma {:induction false} InnerPartsHold(s: State, up: Ctx, d: Dir, a: Tree, p: Ptr, b: Tree, n: Ptr, c: Tree, g: Ptr,
    gc: Color, u: Tree)
    requires Holds(s, Plug(Step(Step(up, d, g, gc, u), d.Other(), p, Red, a), Mk(d, b, n, Red, c)))
    ensures InnerParts(s, up, d, a, p, b, n, c, g, u) && s.mem[g].color == gc
    ensures n != p && (b.Node? ==> b.p in s.mem && b.p != p && b.p != n)
  {
    var t := Mk(d, b, n, Red, c);
    HoldsPlug(s, Step(Step(up, d, g, gc, u), d.Other(), p, Red, a), t);
    ApartTwice(up, d, g, gc, u, d.Other(), p, a, t);
    assert CtxStored(s, Step(up, d, g, gc, u), p);
    MkStored(s.mem, d, b, n, Red, c, p);
    MkShape(d, b, n, Red, c);
    assert b.Node? ==> b.p in Nodes(b);
  }

  lemma {:induction false} InnerSeparate(up: Ctx, d: Dir, a: Tree, p: Ptr, b: Tree, n: Ptr, c: Tree, g: Ptr, u: Tree)
    requires Separate(up, Mk(d, b, n, Red, c), p, a, g, u)
    ensures Separate(up, Mk(d, a, p, Red, b), n, c, g, u)
    ensures Distinct(b) && (b.Node? ==> b.p != NULL)
  {
    hide CtxNodes, CtxDistinct, Nodes, Mk;
    MkShape(d, b, n, Red, c);
    MkShape(d, a, p, Red, b);
  }

  lemma {:induction false} InnerClear(up: Ctx, d: Dir, a: Tree, p: Ptr, b: Tree, n: Ptr, c: Tree, g: Ptr, u: Tree)
    requires Separate(up, Mk(d, b, n, Red, c), p, a, g, u)
    ensures n != p && g != p && g != n && g != RootOr(b, p)
    ensures var r := RootOr(b, p);
      && Clear(Nodes(a), r, p, n, n) && Clear(Nodes(c), r, p, n, n) && Clear(Nodes(u), r, p, n, n)
      && Clear(CtxNodes(up), r, p, n, n)
    ensures p !in Nodes(b) && n !in Nodes(b)
  {
    hide CtxNodes, CtxDistinct, Nodes, Distinct, Mk;
    MkShape(d, b, n, Red, c);
    if b.Node? { RootAmong(b); }
  }

  lemma {:induction false} TurnInnerStored(s: State, s': State, up: Ctx, d: Dir, a: Tree, p: Ptr, b: Tree, n: Ptr,
    c: Tree, g: Ptr, u: Tree)
    requires InnerParts(s, up, d, a, p, b, n, c, g, u) && ColorOf(b) == Black
    requires n != p && (b.Node? ==> b.p in s.mem && b.p != p && b.p != n)
    requires s' == TurnInner(s, d, p, n)
    ensures Rotatable(s', up, d, Mk(d, a, p, Red, b), n, c, g, u) && s'.mem[g].color == s.mem[g].color
  {
    hide TurnInner, CtxStored, Stored, CtxNodes, Nodes, Distinct, CtxDistinct, Separate, Clear;
    InnerSeparate(up, d, a, p, b, n, c, g, u);
    InnerClear(up, d, a, p, b, n, c, g, u);
    InnerFrames(s, s', up, a, p, b, n, c, g, u);
    MkStored(s'.mem, d, a, p, Red, b, n);
  }

  lemma {:induction false} InnerFrames(s: State, s': State, up: Ctx, a: Tree, p: Ptr, b: Tree, n: Ptr, c: Tree, g: Ptr,
    u: Tree)
    requires Stored(s.mem, a, p) && Stored(s.mem, b, n) && Stored(s.mem, c, n) && Stored(s.mem, u, g)
    requires CtxStored(s, up, g)
    requires Only(s, s', RootOr(b, p), p, n, n) && Distinct(b) && ColorOf(b) == Black
    requires b.Node? ==> b.p in s.mem && s'.mem[b.p] == s.mem[b.p].(parent := p, color := Black)
    requires var r := RootOr(b, p);
      && Clear(Nodes(a), r, p, n, n) && Clear(Nodes(c), r, p, n, n) && Clear(Nodes(u), r, p, n, n)
      && Clear(CtxNodes(up), r, p, n, n)
    requires p !in Nodes(b) && n !in Nodes(b)
    ensures Stored(s'.mem, a, p) && Stored(s'.mem, b, p) && Stored(s'.mem, c, n) && Stored(s'.mem, u, g)
    ensures CtxStored(s', up, g)
  {
    hide CtxStored, CtxNodes, Stored, Nodes, Distinct, Only, Clear, Paint, ColorOf;
    var r := RootOr(b, p);
    KeepTree(s, s', a, p, r, p, n, n);
    KeepTree(s, s', c, n, r, p, n, n);
    KeepTree(s, s', u, g, r, p, n, n);
    KeepCtx(s, s', up, g, r, p, n, n);
    MoveTree(s, s', b, n, p, Black, p, n, n);
    PaintSame(b);
  }

  /** Painting the root black ends the fix-up. */
  lemma {:induction false} BlackenRoot(s: State, t: Tree)
    requires Holds(s, t) && Fixing(Top, t)
    ensures Holds(s.(mem := SetParentColor(s.mem, t.p, NULL, Black)), Paint(t, Black))
    ensures RedBlack(Paint(t, Black)) && InOrder(Paint(t, Black)) == InOrder(t)
  {
    var mem' := SetParentColor(s.mem, t.p, NULL, Black);
    Rehang(s.mem, mem', t, NULL, NULL, Black);
    PaintShape(t, Black);
  }

  /** Case 3 on an outer grandchild. */
  lemma {:induction false} OuterStored(s: State, up: Ctx, d: Dir, t: Tree, p: Ptr, sib: Tree, g: Ptr, gc: Color,
    u: Tree)
    requires Holds(s, Plug(Step(Step(up, d, g, gc, u), d, p, Red, sib), t)) && ColorOf(sib) == Black && gc == Black
    ensures CanRotate(s, d, g, p)
    ensures Holds(RotateAt(s, d, g, p, false, Red), Plug(up, Mk(d, t, p, Black, Mk(d, sib, g, Red, u))))
  {
    hide Plug, Holds, Stored, Distinct, CtxDistinct, Nodes, CtxNodes, RotateAt, CanRotate;
    HoldsPlug(s, Step(Step(up, d, g, gc, u), d, p, Red, sib), t);
    ApartTwice(up, d, g, gc, u, d, p, sib, t);
    assert CtxStored(s, Step(up, d, g, gc, u), p);
    RotateStored(s, up, d, t, p, sib, g, u, false, Red);
    PaintSame(sib);
    RotatedApart(up, d, t, p, sib, g, u, Black, Red);
    HoldsPlug(RotateAt(s, d, g, p, false, Red), up, Mk(d, t, p, Black, Mk(d, sib, g, Red, u)));
  }

  lemma {:induction false} RotatedApart(up: Ctx, d: Dir, a: Tree, p: Ptr, b: Tree, g: Ptr, u: Tree, pc: Color,
    gc: Color)
    requires Separate(up, a, p, b, g, u)
    ensures Apart(up, Mk(d, a, p, pc, Mk(d, b, g, gc, u)))
  {
    hide Mk, Nodes, CtxNodes, CtxDistinct;
    MkShape(d, b, g, gc, u);
    MkShape(d, a, p, pc, Mk(d, b, g, gc, u));
  }

  /** Cases 2 and 3 on an inner grandchild. */
  lemma {:induction false} InnerStored(s: State, up: Ctx, d: Dir, a: Tree, p: Ptr, b: Tree, n: Ptr, c: Tree, g: Ptr,
    gc: Color, u: Tree)
    requires Holds(s, Plug(Step(Step(up, d, g, gc, u), d.Other(), p, Red, a), Mk(d, b, n, Red, c)))
    requires ColorOf(b) == Black == ColorOf(c) && gc == Black
    ensures p in s.mem && n in s.mem && p != n
    ensures var tmp := s.mem[n].Child(d); tmp == NULL || (tmp in s.mem && tmp != p && tmp != n)
    ensures var s1 := TurnInner(s, d, p, n);
      && CanRotate(s1, d, g, n)
      && Holds(RotateAt(s1, d, g, n, false, Red), Plug(up, Mk(d, Mk(d, a, p, Red, b), n, Black, Mk(d, c, g, Red, u))))
  {
    hide Plug, Holds, Stored, CtxStored, Distinct, CtxDistinct, Nodes, CtxNodes, RotateAt, CanRotate, TurnInner,
      Separate;
    InnerPartsHold(s, up, d, a, p, b, n, c, g, gc, u);
    var s1 := TurnInner(s, d, p, n);
    TurnInnerStored(s, s1, up, d, a, p, b, n, c, g, u);
    var a' := Mk(d, a, p, Red, b);
    RotateStored(s1, up, d, a', n, c, g, u, false, Red);
    PaintSame(c);
    RotatedApart(up, d, a', n, c, g, u, Black, Red);
    HoldsPlug(RotateAt(s1, d, g, n, false, Red), up, Mk(d, a', n, Black, Mk(d, c, g, Red, u)));
  }

  /** __rb_insert, from a position whose subtree is the newly linked red node. */
  method InsertColor(s0: State, node0: Ptr, ghost ctx0: Ctx, ghost t0: Tree) returns (s: State, ghost tree: Tree)
    requires Holds(s0, Plug(ctx0, t0)) && Fixing(ctx0, t0) && t0.p == node0
    ensures Holds(s, tree) && RedBlack(tree)
    ensures InOrder(tree) == InOrder(Plug(ctx0, t0))
  {
    hide Holds, Plug, InOrder, RedBlack, Fixing, RotateAt, TurnInner, FlipColors, CanRotate;
    s := s0;
    ghost var ctx, t := ctx0, t0;
    Around(s, ctx, t);
    var node, parent := node0, s.mem[node0].parent;
    while true
      invariant Holds(s, Plug(ctx, t)) && Fixing(ctx, t) && t.Node? && t.p == node && parent == Parent(ctx)
      invariant InOrder(Plug(ctx, t)) == InOrder(Plug(ctx0, t0))
      decreases ctx
    {
      Around(s, ctx, t);
      if parent == NULL {
        BlackenRoot(s, t);
        s := s.(mem := SetParentColor(s.mem, node, NULL, Black));
        tree := Paint(t, Black);
        return;
      } else if s.mem[parent].color == Black {
        FixedUnderBlack(ctx, t);
        tree := Plug(ctx, t);
        return;
      }
      var gparent := s.mem[parent].parent;
      AroundTwice(s, ctx, t);
      ghost var Step(Step(up, dg, g, gc, u), dp, p, pc, sib) := ctx;
      var d := if parent != s.mem[gparent].right then Left else Right;
      var tmp := s.mem[gparent].Child(d.Other());
      if tmp != NULL && s.mem[tmp].color == Red {
        FlipStored(s, up, d, dp, t, p, sib, g, gc, u);
        FlipKeeps(up, d, dp, t, p, sib, g, gc, u);
        FlipOrder(up, d, dp, t, p, sib, g, gc, u);
        s := FlipColors(s, tmp, parent, gparent);
        node := gparent;
        parent := s.mem[node].parent;
        ctx, t := up, Flipped(d, dp, t, p, sib, g, u);
      } else {
        tmp := s.mem[parent].Child(d.Other());
        if node == tmp {
          ghost var b, c := if d == Left then t.left else t.right, if d == Left then t.right else t.left;
          InnerDone(up, d, sib, p, b, node, c, g, gc, u);
          InnerOrder(up, d, sib, p, b, node, c, g, gc, u);
          InnerStored(s, up, d, sib, p, b, node, c, g, gc, u);
          s := TurnInner(s, d, parent, node);
          s := RotateAt(s, d, gparent, node, false, Red);
          tree := Plug(up, Mk(d, Mk(d, sib, p, Red, b), node, Black, Mk(d, c, g, Red, u)));
        } else {
          OuterDone(up, d, t, p, sib, g, gc, u);
          OuterOrder(up, d, t, p, sib, g, gc, u);
          OuterStored(s, up, d, t, p, sib, g, gc, u);
          s := RotateAt(s, d, gparent, parent, false, Red);
          tree := Plug(up, Mk(d, t, p, Black, Mk(d, sib, g, Red, u)));
        }
        return;
      }
    }
  }

  /** What the code reads at a position: the node's record and its parent's. */
  lemma {:induction false} Around(s: State, ctx: Ctx, t: Tree)
    requires Holds(s, Plug(ctx, t)) && Fixing(ctx, t)
    ensures t.Node? && t.color == Red && t.p in s.mem && s.mem[t.p].parent == Parent(ctx)
    ensures ctx.Top? ==> Parent(ctx) == NULL && Plug(ctx, t) == t
    ensures ctx.Step? ==>
      ctx.p != NULL && ctx.p in s.mem && s.mem[ctx.p].color == ctx.c && s.mem[ctx.p].parent == Parent(ctx.up)
  {
    HoldsPlug(s, ctx, t);
  }

  /** Below a red parent there is a grandparent, and comparing addresses tells which side the parent is on. */
  lemma {:induction false} AroundTwice(s: State, ctx: Ctx, t: Tree)
    requires Holds(s, Plug(ctx, t)) && Fixing(ctx, t) && ctx.Step? && ctx.c == Red
    ensures ctx.up.Step? && ctx.up.p in s.mem && ctx.p in s.mem
    ensures ctx.up.d == if ctx.p != s.mem[ctx.up.p].right then Left else Right
    ensures s.mem[ctx.up.p].Child(ctx.up.d.Other()) == Root(ctx.up.sib)
    ensures ctx.up.sib.Node? ==>
      ctx.up.sib.p != NULL && ctx.up.sib.p in s.mem && s.mem[ctx.up.sib.p].color == ctx.up.sib.color
    ensures t.p == s.mem[ctx.p].Child(ctx.up.d.Other()) <==> ctx.d == ctx.up.d.Other()
  {
    HoldsPlug(s, ctx, t);
    var Step(Step(up, dg, g, gc, u), dp, p, pc, sib) := ctx;
    assert CtxStored(s, Step(up, dg, g, gc, u), p);
    ApartTwice(up, dg, g, gc, u, dp, p, sib, t);
    RootAmong(t);
    if u.Node? { RootAmong(u); }
    if sib.Node? { RootAmong(sib); }
  }
}
