/** ____rb_erase_color: restoring the black height after a black node has been taken out. */
module RbErase {
  import opened RbTree
  import opened RbMemory
  import opened RbRotate

  /** The loop invariant of the fix-up: every path through the position has one black node too few. */
  predicate Short(ctx: Ctx, t: Tree) {
    && ctx.Step? && ColorOf(t) == Black && Balanced(t) && RedOk(t)
    && CtxBalanced(ctx, BlackHeight(t) + 1) && CtxRedOk(ctx)
  }

  // ----- The cases on trees -----

  lemma {:induction false} ShortShape(up: Ctx, n: Dir, p: Ptr, pc: Color, sib: Tree, t: Tree)
    requires Short(Step(up, n, p, pc, sib), t)
    ensures sib.Node? && Balanced(sib) && RedOk(sib) && BlackHeight(sib) == BlackHeight(t) + 1
    ensures CtxBalanced(up, BlackHeight(t) + 1 + if pc == Black then 1 else 0) && CtxRedOk(up)
    ensures pc == Red ==> ColorOf(sib) == Black && UnderBlack(up)
    ensures Balanced(t) && RedOk(t) && ColorOf(t) == Black
  {
  }

  /** Case 1: a red sibling is rotated above the parent; the new sibling is black. */
  lemma {:induction false} RedSibling(up: Ctx, n: Dir, p: Ptr, pc: Color, near: Tree, s: Ptr, far: Tree, t: Tree)
    requires Short(Step(up, n, p, pc, Mk(n, near, s, Red, far)), t)
    ensures pc == Black && near.Node? && near.color == Black
    ensures Short(Step(Step(up, n, s, Black, far), n, p, Red, near), t)
  {
    ShortShape(up, n, p, pc, Mk(n, near, s, Red, far), t);
    MkShape(n, near, s, Red, far);
  }

  /** Case 2 under a red parent. */
  lemma {:induction false} FlipEnds(up: Ctx, n: Dir, p: Ptr, near: Tree, s: Ptr, far: Tree, t: Tree)
    requires Short(Step(up, n, p, Red, Mk(n, near, s, Black, far)), t)
    requires ColorOf(near) == Black == ColorOf(far)
    ensures RedBlack(Plug(up, Mk(n, t, p, Black, Mk(n, near, s, Red, far))))
  {
    ShortShape(up, n, p, Red, Mk(n, near, s, Black, far), t);
    MkShape(n, near, s, Black, far);
    MkShape(n, near, s, Red, far);
    MkShape(n, t, p, Black, Mk(n, near, s, Red, far));
    RedBlackPlug(up, Mk(n, t, p, Black, Mk(n, near, s, Red, far)));
  }

  /** Case 2 under a black parent: the shortage moves up, or vanishes at the root. */
  lemma {:induction false} FlipMoves(up: Ctx, n: Dir, p: Ptr, near: Tree, s: Ptr, far: Tree, t: Tree)
    requires Short(Step(up, n, p, Black, Mk(n, near, s, Black, far)), t)
    requires ColorOf(near) == Black == ColorOf(far)
    ensures up.Step? ==> Short(up, Mk(n, t, p, Black, Mk(n, near, s, Red, far)))
    ensures up.Top? ==> RedBlack(Mk(n, t, p, Black, Mk(n, near, s, Red, far)))
  {
    ShortShape(up, n, p, Black, Mk(n, near, s, Black, far), t);
    MkShape(n, near, s, Black, far);
    MkShape(n, near, s, Red, far);
    MkShape(n, t, p, Black, Mk(n, near, s, Red, far));
  }

  /** Case 4: the far nephew is red. */
  lemma {:induction false} FarNephew(up: Ctx, n: Dir, p: Ptr, pc: Color, near: Tree, s: Ptr, far: Tree, t: Tree)
    requires Short(Step(up, n, p, pc, Mk(n, near, s, Black, far)), t) && ColorOf(far) == Red
    ensures RedBlack(Plug(up, Mk(n, Mk(n, t, p, Black, near), s, pc, Paint(far, Black))))
  {
    ShortShape(up, n, p, pc, Mk(n, near, s, Black, far), t);
    MkShape(n, near, s, Black, far);
    MkShape(n, t, p, Black, near);
    PaintShape(far, Black);
    MkShape(n, Mk(n, t, p, Black, near), s, pc, Paint(far, Black));
    RedBlackPlug(up, Mk(n, Mk(n, t, p, Black, near), s, pc, Paint(far, Black)));
  }

  /** Cases 3 and 4: only the near nephew is red. */
  lemma {:induction false} NearNephew(up: Ctx, n: Dir, p: Ptr, pc: Color, x: Tree, m: Ptr, y: Tree, s: Ptr, far: Tree,
    t: Tree)
    requires Short(Step(up, n, p, pc, Mk(n, Mk(n, x, m, Red, y), s, Black, far)), t) && ColorOf(far) == Black
    ensures ColorOf(x) == Black == ColorOf(y)
    ensures RedBlack(Plug(up, Mk(n, Mk(n, t, p, Black, x), m, pc, Mk(n, y, s, Black, far))))
  {
    ShortShape(up, n, p, pc, Mk(n, Mk(n, x, m, Red, y), s, Black, far), t);
    MkShape(n, x, m, Red, y);
    MkShape(n, Mk(n, x, m, Red, y), s, Black, far);
    MkShape(n, t, p, Black, x);
    MkShape(n, y, s, Black, far);
    MkShape(n, Mk(n, t, p, Black, x), m, pc, Mk(n, y, s, Black, far));
    RedBlackPlug(up, Mk(n, Mk(n, t, p, Black, x), m, pc, Mk(n, y, s, Black, far)));
  }

  // ----- Order -----

  lemma {:induction false} RedSiblingOrder(up: Ctx, n: Dir, p: Ptr, near: Tree, s: Ptr, far: Tree, t: Tree)
    ensures InOrder(Plug(Step(up, n, p, Black, Mk(n, near, s, Red, far)), t))
      == InOrder(Plug(Step(Step(up, n, s, Black, far), n, p, Red, near), t))
  {
    RotationKeepsOrder(n, t, p, Red, near, s, Black, far, Black, Red);
    SameOrder(up, Mk(n, Mk(n, t, p, Red, near), s, Black, far), Mk(n, t, p, Black, Mk(n, near, s, Red, far)));
  }

  lemma {:induction false} FlipOrder(up: Ctx, n: Dir, p: Ptr, pc: Color, near: Tree, s: Ptr, far: Tree, t: Tree)
    ensures InOrder(Plug(Step(up, n, p, pc, Mk(n, near, s, Black, far)), t))
      == InOrder(Plug(up, Mk(n, t, p, Black, Mk(n, near, s, Red, far))))
  {
    ColorKeepsOrder(n, near, near, s, Black, Red, far, far);
    ColorKeepsOrder(n, t, t, p, pc, Black, Mk(n, near, s, Black, far), Mk(n, near, s, Red, far));
    SameOrder(up, Mk(n, t, p, pc, Mk(n, near, s, Black, far)), Mk(n, t, p, Black, Mk(n, near, s, Red, far)));
  }

  lemma {:induction false} FarOrder(up: Ctx, n: Dir, p: Ptr, pc: Color, near: Tree, s: Ptr, far: Tree, t: Tree)
    ensures InOrder(Plug(Step(up, n, p, pc, Mk(n, near, s, Black, far)), t))
      == InOrder(Plug(up, Mk(n, Mk(n, t, p, Black, near), s, pc, Paint(far, Black))))
  {
    PaintShape(far, Black);
    RotationKeepsOrder(n, t, p, Black, near, s, pc, far, pc, Black);
    ColorKeepsOrder(n, Mk(n, t, p, Black, near), Mk(n, t, p, Black, near), s, pc, pc, far, Paint(far, Black));
    SameOrder(up, Mk(n, t, p, pc, Mk(n, near, s, Black, far)),
              Mk(n, Mk(n, t, p, Black, near), s, pc, Paint(far, Black)));
  }

  lemma {:induction false} NearOrder(up: Ctx, n: Dir, p: Ptr, pc: Color, x: Tree, m: Ptr, y: Tree, s: Ptr, far: Tree,
    t: Tree)
    ensures InOrder(Plug(Step(up, n, p, pc, Mk(n, Mk(n, x, m, Red, y), s, Black, far)), t))
      == InOrder(Plug(up, Mk(n, Mk(n, t, p, Black, x), m, pc, Mk(n, y, s, Black, far))))
  {
    var sib, sib' := Mk(n, Mk(n, x, m, Red, y), s, Black, far), Mk(n, x, m, Red, Mk(n, y, s, Black, far));
    RotationKeepsOrder(n, x, m, Red, y, s, Black, far, Red, Black);
    ColorKeepsOrder(n, t, t, p, pc, pc, sib, sib');
    RotationKeepsOrder(n, t, p, Black, x, m, pc, Mk(n, y, s, Black, far), pc, Red);
    SameOrder(up, Mk(n, t, p, pc, sib), Mk(n, Mk(n, t, p, Black, x), m, pc, Mk(n, y, s, Black, far)));
  }

  // ----- The cases in memory -----

  /** The sibling's subtree and the position, as the rotation lemma wants them. */
  lemma {:induction false} SiblingParts(st: State, up: Ctx, n: Dir, p: Ptr, pc: Color, near: Tree, s: Ptr, sc: Color,
    far: Tree, t: Tree)
    requires Holds(st, Plug(Step(up, n, p, pc, Mk(n, near, s, sc, far)), t))
    ensures Rotatable(st, up, n.Other(), far, s, near, p, t)
    ensures st.mem[s].color == sc && st.mem[s].parent == p && st.mem[p].color == pc
    ensures st.mem[p].Child(n) == Root(t) && st.mem[p].Child(n.Other()) == s
  {
    hide Plug, Holds, Nodes, CtxNodes, Distinct, Mk;
    HoldsPlug(st, Step(up, n, p, pc, Mk(n, near, s, sc, far)), t);
    MkStored(st.mem, n, near, s, sc, far, p);
    SiblingSeparate(up, n, p, pc, near, s, sc, far, t);
    MkRoot(n, near, s, sc, far);
  }

  lemma {:induction false} MkRoot(d: Dir, near: Tree, p: Ptr, c: Color, far: Tree)
    ensures Root(Mk(d, near, p, c, far)) == p && Mk(d.Other(), far, p, c, near) == Mk(d, near, p, c, far)
  {
  }

  lemma {:induction false} SiblingSeparate(up: Ctx, n: Dir, p: Ptr, pc: Color, near: Tree, s: Ptr, sc: Color, far: Tree,
    t: Tree)
    requires Apart(Step(up, n, p, pc, Mk(n, near, s, sc, far)), t)
    ensures Separate(up, far, s, near, p, t)
  {
    hide Mk, Nodes, Distinct;
    MkShape(n, near, s, sc, far);
  }

  lemma {:induction false} SiblingApart(up: Ctx, n: Dir, a: Tree, p: Ptr, pc: Color, b: Tree, s: Ptr, sc: Color,
    c: Tree)
    requires Separate(up, c, s, b, p, a)
    ensures Apart(up, Mk(n, Mk(n, a, p, pc, b), s, sc, c))
    ensures Apart(up, Mk(n, a, p, pc, Mk(n, b, s, sc, c)))
  {
    hide Mk, Nodes, CtxNodes, CtxDistinct;
    MkShape(n, a, p, pc, b);
    MkShape(n, Mk(n, a, p, pc, b), s, sc, c);
    MkShape(n, b, s, sc, c);
    MkShape(n, a, p, pc, Mk(n, b, s, sc, c));
  }

  lemma {:induction false} RedSiblingStored(st: State, up: Ctx, n: Dir, p: Ptr, near: Tree, s: Ptr, far: Tree, t: Tree)
    requires Holds(st, Plug(Step(up, n, p, Black, Mk(n, near, s, Red, far)), t)) && ColorOf(near) == Black
    ensures CanRotate(st, n.Other(), p, s)
    ensures Holds(RotateAt(st, n.Other(), p, s, false, Red), Plug(Step(Step(up, n, s, Black, far), n, p, Red, near), t))
  {
    hide Holds, Nodes, CtxNodes, Distinct, RotateAt, CanRotate, Stored, CtxStored, Separate;
    SiblingParts(st, up, n, p, Black, near, s, Red, far, t);
    RotateStored(st, up, n.Other(), far, s, near, p, t, false, Red);
    PaintSame(near);
    MkRoot(n, t, p, Red, near);
    MkRoot(n, Mk(n, t, p, Red, near), s, Black, far);
    SiblingApart(up, n, t, p, Red, near, s, Black, far);
    HoldsPlug(RotateAt(st, n.Other(), p, s, false, Red), up, Mk(n, Mk(n, t, p, Red, near), s, Black, far));
  }

  /** The writes of case 2: the sibling turns red, and the parent black. */
  function FlipSibling(st: State, p: Ptr, s: Ptr): (st': State)
    requires p in st.mem && s in st.mem && p != s
    ensures Only(st, st', s, p, p, p)
    ensures st'.mem[s] == st.mem[s].(parent := p, color := Red)
    ensures st'.mem[p] == st.mem[p].(color := Black)
  {
    var st1 := st.(mem := SetParentColor(st.mem, s, p, Red));
    assert st.mem[p].color == Black ==> st.mem[p] == st.mem[p].(color := Black);
    if st1.mem[p].color == Red then st1.(mem := SetParentColor(st1.mem, p, st1.mem[p].parent, Black)) else st1
  }

  lemma {:induction false} FlipStored(st: State, up: Ctx, n: Dir, p: Ptr, pc: Color, near: Tree, s: Ptr, far: Tree,
    t: Tree)
    requires Holds(st, Plug(Step(up, n, p, pc, Mk(n, near, s, Black, far)), t))
    ensures p in st.mem && s in st.mem && p != s
    ensures Holds(FlipSibling(st, p, s), Plug(up, Mk(n, t, p, Black, Mk(n, near, s, Red, far))))
  {
    hide Plug, Holds, Nodes, CtxNodes, Distinct, CtxDistinct, Stored, CtxStored, FlipSibling;
    SiblingParts(st, up, n, p, pc, near, s, Black, far, t);
    var st' := FlipSibling(st, p, s);
    KeepTree(st, st', near, s, s, p, p, p);
    KeepTree(st, st', far, s, s, p, p, p);
    KeepTree(st, st', t, p, s, p, p, p);
    KeepCtx(st, st', up, p, s, p, p, p);
    MkStored(st'.mem, n, near, s, Red, far, p);
    MkStored(st'.mem, n, t, p, Black, Mk(n, near, s, Red, far), Parent(up));
    SiblingApart(up, n, t, p, Black, near, s, Red, far);
    HoldsPlug(st', up, Mk(n, t, p, Black, Mk(n, near, s, Red, far)));
  }

  /** Case 4. The nephew's record is written before the rotation's; the writes are independent. */
  function RotateFar(st: State, n: Dir, p: Ptr, s: Ptr, nephew: Ptr): State
    requires nephew in st.mem
    requires CanRotate(st.(mem := SetParentColor(st.mem, nephew, s, Black)), n.Other(), p, s)
  {
    RotateAt(st.(mem := SetParentColor(st.mem, nephew, s, Black)), n.Other(), p, s, true, Black)
  }

  lemma {:induction false} FarStored(st: State, up: Ctx, n: Dir, p: Ptr, pc: Color, near: Tree, s: Ptr, far: Tree,
    t: Tree)
    requires Holds(st, Plug(Step(up, n, p, pc, Mk(n, near, s, Black, far)), t)) && far.Node?
    ensures far.p in st.mem && CanRotate(st.(mem := SetParentColor(st.mem, far.p, s, Black)), n.Other(), p, s)
    ensures Holds(RotateFar(st, n, p, s, far.p), Plug(up, Mk(n, Mk(n, t, p, Black, near), s, pc, Paint(far, Black))))
  {
    hide Plug, Holds, CtxNodes, CtxDistinct, CtxStored, RotateAt, CanRotate;
    SiblingParts(st, up, n, p, pc, near, s, Black, far, t);
    RootAmong(far);
    var st1 := st.(mem := SetParentColor(st.mem, far.p, s, Black));
    FarPainted(st, st1, up, n, near, s, far, p, t);
    PaintShape(far, Black);
    RotateStored(st1, up, n.Other(), Paint(far, Black), s, near, p, t, true, Black);
    FarFinish(RotateFar(st, n, p, s, far.p), up, n, t, p, near, s, pc, Paint(far, Black));
  }

  lemma {:induction false} FarFinish(st: State, up: Ctx, n: Dir, t: Tree, p: Ptr, near: Tree, s: Ptr, pc: Color,
    far: Tree)
    requires Separate(up, far, s, near, p, t)
    requires CtxStored(st, up, s)
    requires Stored(st.mem, Mk(n.Other(), far, s, pc, Mk(n.Other(), near, p, Black, t)), Parent(up))
    ensures Holds(st, Plug(up, Mk(n, Mk(n, t, p, Black, near), s, pc, far)))
  {
    hide Plug, Holds, CtxNodes, Nodes, Distinct, CtxDistinct, CtxStored, Stored, Separate;
    MkRoot(n, t, p, Black, near);
    MkRoot(n, Mk(n, t, p, Black, near), s, pc, far);
    SiblingApart(up, n, t, p, Black, near, s, pc, far);
    HoldsPlug(st, up, Mk(n, Mk(n, t, p, Black, near), s, pc, far));
  }

  lemma {:induction false} FarPainted(st: State, st1: State, up: Ctx, n: Dir, near: Tree, s: Ptr, far: Tree, p: Ptr,
    t: Tree)
    requires Rotatable(st, up, n.Other(), far, s, near, p, t) && far.Node? && far.p in st.mem
    requires st1 == st.(mem := SetParentColor(st.mem, far.p, s, Black))
    ensures Rotatable(st1, up, n.Other(), Paint(far, Black), s, near, p, t)
    ensures st1.mem[p].color == st.mem[p].color
  {
    hide CtxNodes, CtxDistinct, CtxStored, Nodes, Distinct, Stored;
    RootAmong(far);
    PaintShape(far, Black);
    var f := far.p;
    KeepTree(st, st1, near, s, f, f, f, f);
    KeepTree(st, st1, t, p, f, f, f, f);
    KeepCtx(st, st1, up, p, f, f, f, f);
    MoveTree(st, st1, far, s, s, Black, s, s, s);
  }

  /** The writes of case 3, and the first of case 4, which repairs the old sibling's parent and colour. */
  function TurnNear(st: State, n: Dir, p: Ptr, s: Ptr, m: Ptr): (st': State)
    requires p in st.mem && s in st.mem && m in st.mem && p != s && p != m && s != m
    requires var tmp := st.mem[m].Child(n.Other()); tmp == NULL || (tmp in st.mem && tmp != p && tmp != s && tmp != m)
    ensures var tmp := st.mem[m].Child(n.Other());
      && Only(st, st', if tmp == NULL then s else tmp, s, m, p)
      && st'.mem[s] == st.mem[s].WithChild(n, tmp).(parent := m, color := Black)
      && st'.mem[m] == st.mem[m].WithChild(n.Other(), s)
      && st'.mem[p] == st.mem[p].WithChild(n.Other(), m)
      && (tmp != NULL ==> st'.mem[tmp] == st.mem[tmp].(parent := s, color := Black))
  {
    var tmp := st.mem[m].Child(n.Other());
    var mem1 := SetChild(st.mem, s, n, tmp);
    var mem2 := SetChild(mem1, m, n.Other(), s);
    var mem3 := SetChild(mem2, p, n.Other(), m);
    var mem4 := if tmp == NULL then mem3 else SetParentColor(mem3, tmp, s, Black);
    st.(mem := SetParentColor(mem4, s, m, Black))
  }

  /** The position with the near nephew taken apart. */
  predicate NephewParts(st: State, up: Ctx, n: Dir, p: Ptr, x: Tree, m: Ptr, y: Tree, s: Ptr, far: Tree, t: Tree) {
    && Separate(up, far, s, Mk(n, x, m, Red, y), p, t)
    && CtxStored(st, up, p)
    && s in st.mem && st.mem[s].Child(n) == m && st.mem[s].Child(n.Other()) == Root(far)
    && m in st.mem && st.mem[m].Child(n) == Root(x) && st.mem[m].Child(n.Other()) == Root(y)
    && p in st.mem && st.mem[p].Child(n) == Root(t) && st.mem[p].parent == Parent(up)
    && Stored(st.mem, far, s) && Stored(st.mem, x, m) && Stored(st.mem, y, m) && Stored(st.mem, t, p)
  }

  lemma {:induction false} NephewPartsHold(st: State, up: Ctx, n: Dir, p: Ptr, pc: Color, x: Tree, m: Ptr, y: Tree,
    s: Ptr, far: Tree, t: Tree)
    requires Holds(st, Plug(Step(up, n, p, pc, Mk(n, Mk(n, x, m, Red, y), s, Black, far)), t))
    ensures NephewParts(st, up, n, p, x, m, y, s, far, t) && st.mem[p].color == pc
  {
    hide Plug, Holds, Nodes, CtxNodes, Distinct, Mk, CtxStored, CtxDistinct, Separate;
    SiblingParts(st, up, n, p, pc, Mk(n, x, m, Red, y), s, Black, far, t);
    MkStored(st.mem, n, x, m, Red, y, s);
    MkRoot(n, x, m, Red, y);
  }

  lemma {:induction false} NephewSeparate(up: Ctx, n: Dir, p: Ptr, x: Tree, m: Ptr, y: Tree, s: Ptr, far: Tree, t: Tree)
    requires Separate(up, far, s, Mk(n, x, m, Red, y), p, t)
    ensures Separate(up, Mk(n, y, s, Black, far), m, x, p, t)
    ensures Distinct(y) && (y.Node? ==> y.p != NULL)
  {
    hide CtxNodes, CtxDistinct, Nodes, Mk;
    MkShape(n, x, m, Red, y);
    MkShape(n, y, s, Black, far);
  }

  lemma {:induction false} NephewClear(up: Ctx, n: Dir, p: Ptr, x: Tree, m: Ptr, y: Tree, s: Ptr, far: Tree, t: Tree)
    requires Separate(up, far, s, Mk(n, x, m, Red, y), p, t)
    ensures p != s && p != m && s != m && (y.Node? ==> y.p != p && y.p != s && y.p != m)
    ensures var r := RootOr(y, s);
      && Clear(Nodes(far), r, s, m, p) && Clear(Nodes(x), r, s, m, p) && Clear(Nodes(t), r, s, m, p)
      && Clear(CtxNodes(up), r, s, m, p)
    ensures s !in Nodes(y) && m !in Nodes(y) && p !in Nodes(y)
  {
    hide CtxNodes, CtxDistinct, Nodes, Distinct, Mk;
    MkShape(n, x, m, Red, y);
    if y.Node? { RootAmong(y); }
  }

  lemma {:induction false} TurnNearStored(st: State, st': State, up: Ctx, n: Dir, p: Ptr, x: Tree, m: Ptr, y: Tree,
    s: Ptr, far: Tree, t: Tree)
    requires NephewParts(st, up, n, p, x, m, y, s, far, t) && ColorOf(y) == Black
    requires p != s && p != m && s != m && (y.Node? ==> y.p in st.mem && y.p != p && y.p != s && y.p != m)
    requires st' == TurnNear(st, n, p, s, m)
    ensures Rotatable(st', up, n.Other(), Mk(n, y, s, Black, far), m, x, p, t) && st'.mem[p].color == st.mem[p].color
  {
    hide TurnNear, CtxStored, Stored, CtxNodes, Nodes, Distinct, CtxDistinct, Separate, Clear, Paint;
    NephewSeparate(up, n, p, x, m, y, s, far, t);
    NephewClear(up, n, p, x, m, y, s, far, t);
    var r := RootOr(y, s);
    KeepTree(st, st', far, s, r, s, m, p);
    KeepTree(st, st', x, m, r, s, m, p);
    KeepTree(st, st', t, p, r, s, m, p);
    KeepCtx(st, st', up, p, r, s, m, p);
    MoveTree(st, st', y, m, s, Black, s, m, p);
    PaintSame(y);
    MkStored(st'.mem, n, y, s, Black, far, m);
    MkRoot(n, y, s, Black, far);
  }

  lemma {:induction false} NearStored(st: State, up: Ctx, n: Dir, p: Ptr, pc: Color, x: Tree, m: Ptr, y: Tree, s: Ptr,
    far: Tree, t: Tree)
    requires Holds(st, Plug(Step(up, n, p, pc, Mk(n, Mk(n, x, m, Red, y), s, Black, far)), t)) && ColorOf(y) == Black
    ensures p in st.mem && s in st.mem && m in st.mem && p != s && p != m && s != m
    ensures var tmp := st.mem[m].Child(n.Other()); tmp == NULL || (tmp in st.mem && tmp != p && tmp != s && tmp != m)
    ensures var st1 := TurnNear(st, n, p, s, m);
      && CanRotate(st1, n.Other(), p, m)
      && Holds(RotateAt(st1, n.Other(), p, m, true, Black),
               Plug(up, Mk(n, Mk(n, t, p, Black, x), m, pc, Mk(n, y, s, Black, far))))
  {
    hide Plug, Holds, Stored, CtxStored, Distinct, CtxDistinct, Nodes, CtxNodes, RotateAt, CanRotate, TurnNear,
      Separate, Clear;
    NephewPartsHold(st, up, n, p, pc, x, m, y, s, far, t);
    NephewClear(up, n, p, x, m, y, s, far, t);
    if y.Node? { StoredNodes(st.mem, y, m); RootAmong(y); }
    var st1 := TurnNear(st, n, p, s, m);
    TurnNearStored(st, st1, up, n, p, x, m, y, s, far, t);
    var a := Mk(n, y, s, Black, far);
    RotateStored(st1, up, n.Other(), a, m, x, p, t, true, Black);
    FarFinish(RotateAt(st1, n.Other(), p, m, true, Black), up, n, t, p, x, m, pc, a);
  }

  // ----- The loop -----

  function Near(d: Dir, t: Tree): Tree
    requires t.Node?
  {
    if d == Left then t.left else t.right
  }

  /** What the code reads at a short position: which side it is on, its sibling and its nephews. */
  lemma {:induction false} AroundShort(st: State, ctx: Ctx, t: Tree)
    requires Holds(st, Plug(ctx, t)) && Short(ctx, t)
    ensures ctx.Step? && ctx.p != NULL && ctx.p in st.mem && ctx.sib.Node?
    ensures ctx.d == if Root(t) != st.mem[ctx.p].right then Left else Right
    ensures st.mem[ctx.p].Child(ctx.d.Other()) == ctx.sib.p && ctx.sib.p in st.mem
    ensures st.mem[ctx.p].color == ctx.c && st.mem[ctx.sib.p].color == ctx.sib.color
    ensures st.mem[ctx.p].parent == Parent(ctx.up)
    ensures ctx.sib == Mk(ctx.d, Near(ctx.d, ctx.sib), ctx.sib.p, ctx.sib.color, Near(ctx.d.Other(), ctx.sib))
    ensures Reads(st, st.mem[ctx.sib.p].Child(ctx.d), Near(ctx.d, ctx.sib))
    ensures Reads(st, st.mem[ctx.sib.p].Child(ctx.d.Other()), Near(ctx.d.Other(), ctx.sib))
    ensures ctx.c == Red ==> ctx.sib.color == Black
    ensures ctx.up.Step? ==> ctx.up.p != NULL
  {
    HoldsPlug(st, ctx, t);
    assert CtxDistinct(ctx.up);
    RootAmong(ctx.sib);
    if t.Node? { RootAmong(t); }
    ReadsStored(st, ctx.sib.left, ctx.sib.p);
    ReadsStored(st, ctx.sib.right, ctx.sib.p);
  }

  lemma {:induction false} ReadsStored(st: State, t: Tree, parent: Ptr)
    requires Stored(st.mem, t, parent) && Distinct(t)
    ensures Reads(st, Root(t), t)
  {
  }

  /** `q` is the address of `t`, and a non-null address leads to a record of t's colour. */
  predicate Reads(st: State, q: Ptr, t: Tree) {
    && q == Root(t)
    && (t.Node? ==> q != NULL && q in st.mem && st.mem[q].color == t.color)
  }

  // Each case at a position with a sibling: where it leads, and that it gets there.

  function RotatedCtx(ctx: Ctx): Ctx
    requires ctx.Step? && ctx.sib.Node?
  {
    Step(Step(ctx.up, ctx.d, ctx.sib.p, Black, Near(ctx.d.Other(), ctx.sib)), ctx.d, ctx.p, Red, Near(ctx.d, ctx.sib))
  }

  function FlippedTree(ctx: Ctx, t: Tree): (r: Tree)
    requires ctx.Step? && ctx.sib.Node?
    ensures Root(r) == ctx.p
  {
    Mk(ctx.d, t, ctx.p, Black, Mk(ctx.d, Near(ctx.d, ctx.sib), ctx.sib.p, Red, Near(ctx.d.Other(), ctx.sib)))
  }

  function FarTree(ctx: Ctx, t: Tree): Tree
    requires ctx.Step? && ctx.sib.Node?
  {
    Plug(ctx.up, Mk(ctx.d, Mk(ctx.d, t, ctx.p, Black, Near(ctx.d, ctx.sib)), ctx.sib.p, ctx.c,
                    Paint(Near(ctx.d.Other(), ctx.sib), Black)))
  }

  function NearTree(ctx: Ctx, t: Tree): Tree
    requires ctx.Step? && ctx.sib.Node? && Near(ctx.d, ctx.sib).Node?
  {
    var m := Near(ctx.d, ctx.sib);
    Plug(ctx.up, Mk(ctx.d, Mk(ctx.d, t, ctx.p, Black, Near(ctx.d, m)), m.p, ctx.c,
                    Mk(ctx.d, Near(ctx.d.Other(), m), ctx.sib.p, Black, Near(ctx.d.Other(), ctx.sib))))
  }

  lemma {:induction false} Case1(st: State, ctx: Ctx, t: Tree)
    requires Holds(st, Plug(ctx, t)) && Short(ctx, t) && ctx.Step? && ctx.sib.Node? && ctx.sib.color == Red
    ensures CanRotate(st, ctx.d.Other(), ctx.p, ctx.sib.p)
    ensures Holds(RotateAt(st, ctx.d.Other(), ctx.p, ctx.sib.p, false, Red), Plug(RotatedCtx(ctx), t))
    ensures Short(RotatedCtx(ctx), t) && Near(ctx.d, ctx.sib).Node?
    ensures InOrder(Plug(RotatedCtx(ctx), t)) == InOrder(Plug(ctx, t))
  {
    hide Holds, InOrder, RedBlack, Short, RotateAt, CanRotate, Plug;
    AroundShort(st, ctx, t);
    var Step(up, n, p, pc, sib) := ctx;
    var near, far := Near(n, sib), Near(n.Other(), sib);
    RedSibling(up, n, p, pc, near, sib.p, far, t);
    RedSiblingOrder(up, n, p, near, sib.p, far, t);
    RedSiblingStored(st, up, n, p, near, sib.p, far, t);
  }

  lemma {:induction false} Case2(st: State, ctx: Ctx, t: Tree)
    requires Holds(st, Plug(ctx, t)) && Short(ctx, t) && ctx.Step? && ctx.sib.Node? && ctx.sib.color == Black
    requires ColorOf(Near(ctx.d, ctx.sib)) == Black == ColorOf(Near(ctx.d.Other(), ctx.sib))
    ensures ctx.p in st.mem && ctx.sib.p in st.mem && ctx.p != ctx.sib.p
    ensures Holds(FlipSibling(st, ctx.p, ctx.sib.p), Plug(ctx.up, FlippedTree(ctx, t)))
    ensures InOrder(Plug(ctx.up, FlippedTree(ctx, t))) == InOrder(Plug(ctx, t))
    ensures ctx.c == Red ==> RedBlack(Plug(ctx.up, FlippedTree(ctx, t)))
    ensures ctx.c == Black && ctx.up.Step? ==> Short(ctx.up, FlippedTree(ctx, t))
    ensures ctx.c == Black && ctx.up.Top? ==>
      RedBlack(FlippedTree(ctx, t)) && Plug(ctx.up, FlippedTree(ctx, t)) == FlippedTree(ctx, t)
  {
    hide Holds, InOrder, Short, FlipSibling, RedBlack;
    AroundShort(st, ctx, t);
    var Step(up, n, p, pc, sib) := ctx;
    var near, far := Near(n, sib), Near(n.Other(), sib);
    FlipStored(st, up, n, p, pc, near, sib.p, far, t);
    FlipOrder(up, n, p, pc, near, sib.p, far, t);
    if pc == Red {
      FlipEnds(up, n, p, near, sib.p, far, t);
    } else {
      FlipMoves(up, n, p, near, sib.p, far, t);
    }
  }

  lemma {:induction false} Case4(st: State, ctx: Ctx, t: Tree)
    requires Holds(st, Plug(ctx, t)) && Short(ctx, t) && ctx.Step? && ctx.sib.Node? && ctx.sib.color == Black
    requires ColorOf(Near(ctx.d.Other(), ctx.sib)) == Red
    ensures var q := Near(ctx.d.Other(), ctx.sib).p;
      && q in st.mem
      && CanRotate(st.(mem := SetParentColor(st.mem, q, ctx.sib.p, Black)), ctx.d.Other(), ctx.p, ctx.sib.p)
      && Holds(RotateFar(st, ctx.d, ctx.p, ctx.sib.p, q), FarTree(ctx, t))
    ensures RedBlack(FarTree(ctx, t)) && InOrder(FarTree(ctx, t)) == InOrder(Plug(ctx, t))
  {
    hide Holds, InOrder, RedBlack, Short, RotateFar, CanRotate, Plug;
    AroundShort(st, ctx, t);
    var Step(up, n, p, pc, sib) := ctx;
    var near, far := Near(n, sib), Near(n.Other(), sib);
    FarNephew(up, n, p, pc, near, sib.p, far, t);
    FarOrder(up, n, p, pc, near, sib.p, far, t);
    FarStored(st, up, n, p, pc, near, sib.p, far, t);
  }

  lemma {:induction false} Case3(st: State, ctx: Ctx, t: Tree)
    requires Holds(st, Plug(ctx, t)) && Short(ctx, t) && ctx.Step? && ctx.sib.Node? && ctx.sib.color == Black
    requires ColorOf(Near(ctx.d, ctx.sib)) == Red && ColorOf(Near(ctx.d.Other(), ctx.sib)) == Black
    ensures var p, s, m := ctx.p, ctx.sib.p, Near(ctx.d, ctx.sib).p;
      && p in st.mem && s in st.mem && m in st.mem && p != s && p != m && s != m
      && (var tmp := st.mem[m].Child(ctx.d.Other()); tmp == NULL || (tmp in st.mem && tmp != p && tmp != s && tmp != m))
      && CanRotate(TurnNear(st, ctx.d, p, s, m), ctx.d.Other(), p, m)
      && Holds(RotateAt(TurnNear(st, ctx.d, p, s, m), ctx.d.Other(), p, m, true, Black), NearTree(ctx, t))
    ensures RedBlack(NearTree(ctx, t)) && InOrder(NearTree(ctx, t)) == InOrder(Plug(ctx, t))
  {
    hide Holds, InOrder, RedBlack, Short, RotateAt, TurnNear, CanRotate, Plug;
    AroundShort(st, ctx, t);
    var Step(up, n, p, pc, sib) := ctx;
    var near, far := Near(n, sib), Near(n.Other(), sib);
    var x, y := Near(n, near), Near(n.Other(), near);
    assert near == Mk(n, x, near.p, Red, y);
    NearNephew(up, n, p, pc, x, near.p, y, sib.p, far, t);
    NearOrder(up, n, p, pc, x, near.p, y, sib.p, far, t);
    NearStored(st, up, n, p, pc, x, near.p, y, sib.p, far, t);
  }

  /** ____rb_erase_color: `parent` is one black node short on the side where its child is missing. */
  method EraseColor(st0: State, parent0: Ptr, ghost ctx0: Ctx) returns (st: State, ghost tree: Tree)
    requires Holds(st0, Plug(ctx0, Leaf)) && Short(ctx0, Leaf) && ctx0.p == parent0
    ensures Holds(st, tree) && RedBlack(tree)
    ensures InOrder(tree) == InOrder(Plug(ctx0, Leaf))
  {
    hide Holds, InOrder, RedBlack, Short, RotateAt, FlipSibling, CanRotate, Plug, FlippedTree, Near, Mk;
    st := st0;
    ghost var ctx, t := ctx0, Leaf;
    var node, parent := NULL, parent0;
    AroundShort(st, ctx, t);
    while true
      invariant Holds(st, Plug(ctx, t)) && Short(ctx, t) && ctx.Step? && ctx.p == parent && node == Root(t)
      invariant InOrder(Plug(ctx, t)) == InOrder(Plug(ctx0, Leaf))
      decreases ctx
    {
      AroundShort(st, ctx, t);
      var n := if node != st.mem[parent].right then Left else Right;
      var f := n.Other();
      var sibling := st.mem[parent].Child(f);
      if st.mem[sibling].color == Red {
        Case1(st, ctx, t);
        var tmp := st.mem[sibling].Child(n);
        st := RotateAt(st, f, parent, sibling, false, Red);
        ctx := RotatedCtx(ctx);
        sibling := tmp;
        AroundShort(st, ctx, t);
      }
      var tmp1, tmp2 := st.mem[sibling].Child(f), st.mem[sibling].Child(n);
      if (tmp1 == NULL || st.mem[tmp1].color == Black) && (tmp2 == NULL || st.mem[tmp2].color == Black) {
        Case2(st, ctx, t);
        var red := st.mem[parent].color == Red;
        st := FlipSibling(st, parent, sibling);
        if red {
          tree := Plug(ctx.up, FlippedTree(ctx, t));
          return;
        }
        node := parent;
        parent := st.mem[node].parent;
        t := FlippedTree(ctx, t);
        if parent == NULL {
          tree := t;
          return;
        }
        ctx := ctx.up;
      } else {
        st, tree := RotateNephews(st, n, parent, sibling, ctx, t);
        return;
      }
    }
  }

  /** Cases 3 and 4, which end the loop. */
  method RotateNephews(st0: State, n: Dir, parent: Ptr, sibling: Ptr, ghost ctx: Ctx, ghost t: Tree)
    returns (st: State, ghost tree: Tree)
    requires Holds(st0, Plug(ctx, t)) && Short(ctx, t) && ctx.Step? && ctx.sib.Node? && ctx.sib.color == Black
    requires ctx.d == n && ctx.p == parent && ctx.sib.p == sibling
    requires ColorOf(Near(n, ctx.sib)) == Red || ColorOf(Near(n.Other(), ctx.sib)) == Red
    ensures Holds(st, tree) && RedBlack(tree)
    ensures InOrder(tree) == InOrder(Plug(ctx, t))
  {
    hide Holds, InOrder, RedBlack, Short, RotateAt, TurnNear, RotateFar, CanRotate, Plug, FarTree, NearTree, Near, Mk;
    AroundShort(st0, ctx, t);
    var tmp1 := st0.mem[sibling].Child(n.Other());
    if tmp1 == NULL || st0.mem[tmp1].color == Black {
      var tmp2 := st0.mem[sibling].Child(n);
      Case3(st0, ctx, t);
      st := TurnNear(st0, n, parent, sibling, tmp2);
      st := RotateAt(st, n.Other(), parent, tmp2, true, Black);
      tree := NearTree(ctx, t);
    } else {
      Case4(st0, ctx, t);
      st := RotateFar(st0, n, parent, sibling, tmp1);
      tree := FarTree(ctx, t);
    }
  }
}
