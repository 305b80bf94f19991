/** The rotation shared by every fix-up case of rbtree.c, in memory and on trees. */
module RbRotate {
  import opened RbTree
  import opened RbMemory

  predicate CanRotate(s: State, d: Dir, g: Ptr, p: Ptr) {
    && g in s.mem && p in s.mem && g != p
    && (var tmp := s.mem[p].Child(d.Other()); tmp == NULL || (tmp in s.mem && tmp != g && tmp != p))
    && (s.mem[g].parent != NULL ==> s.mem[g].parent in s.mem)
  }

  /** Rotate at `g`: its child `p` on side `d` takes its place and colour, `g` becomes p's other child with
      colour `c`, and p's former other child moves to `g`, painted black unless `keep`. */
  function RotateAt(s: State, d: Dir, g: Ptr, p: Ptr, keep: bool, c: Color): State
    requires CanRotate(s, d, g, p)
  {
    RotateSetParents(s.(mem := Relink(s.mem, d, g, p, keep)), g, p, c)
  }

  /** The child links of a rotation, and the parent link of the subtree that changes sides. */
  function Relink(mem: Memory, d: Dir, g: Ptr, p: Ptr, keep: bool): (mem': Memory)
    requires g in mem && p in mem && g != p
    requires var tmp := mem[p].Child(d.Other()); tmp == NULL || (tmp in mem && tmp != g && tmp != p)
    ensures mem'.Keys == mem.Keys
    ensures mem'[g] == mem[g].WithChild(d, mem[p].Child(d.Other()))
    ensures mem'[p] == mem[p].WithChild(d.Other(), g)
  {
    var tmp := mem[p].Child(d.Other());
    var mem1 := SetChild(mem, g, d, tmp);
    var mem2 := SetChild(mem1, p, d.Other(), g);
    if tmp == NULL then mem2
    else if keep then SetParent(mem2, tmp, g)
    else SetParentColor(mem2, tmp, g, Black)
  }

  lemma {:induction false} RelinkFrame(mem: Memory, d: Dir, g: Ptr, p: Ptr, keep: bool)
    requires g in mem && p in mem && g != p
    requires var tmp := mem[p].Child(d.Other()); tmp == NULL || (tmp in mem && tmp != g && tmp != p)
    ensures var tmp, mem' := mem[p].Child(d.Other()), Relink(mem, d, g, p, keep);
      && (tmp != NULL ==> mem'[tmp] == mem[tmp].(parent := g, color := if keep then mem[tmp].color else Black))
      && forall q :: q in mem && q !in {g, p} && (tmp == NULL || q != tmp) ==> mem'[q] == mem[q]
  {
  }

  /** Two addresses and three trees that share no node with each other or with the surroundings. */
  predicate Separate(up: Ctx, a: Tree, p: Ptr, b: Tree, g: Ptr, u: Tree) {
    && p != NULL && g != NULL && p != g
    && Distinct(a) && Distinct(b) && Distinct(u) && CtxDistinct(up)
    && p !in Nodes(a) && p !in Nodes(b) && p !in Nodes(u) && p !in CtxNodes(up)
    && g !in Nodes(a) && g !in Nodes(b) && g !in Nodes(u) && g !in CtxNodes(up)
    && Nodes(a) !! Nodes(b) && Nodes(a) !! Nodes(u) && Nodes(b) !! Nodes(u)
    && CtxNodes(up) !! Nodes(a) && CtxNodes(up) !! Nodes(b) && CtxNodes(up) !! Nodes(u)
  }

  /** What the rotation needs of the memory. The link from `g` to `p` and the parent field of `p` may be stale. */
  predicate Rotatable(s: State, up: Ctx, d: Dir, a: Tree, p: Ptr, b: Tree, g: Ptr, u: Tree) {
    && Separate(up, a, p, b, g, u)
    && CtxStored(s, up, g)
    && p in s.mem && s.mem[p].Child(d) == Root(a) && s.mem[p].Child(d.Other()) == Root(b)
    && g in s.mem && s.mem[g].Child(d.Other()) == Root(u) && s.mem[g].parent == Parent(up)
    && Stored(s.mem, a, p) && Stored(s.mem, b, p) && Stored(s.mem, u, g)
  }

  lemma {:induction false} RotateStored(s: State, up: Ctx, d: Dir, a: Tree, p: Ptr, b: Tree, g: Ptr, u: Tree,
    keep: bool, c: Color)
    requires Rotatable(s, up, d, a, p, b, g, u)
    ensures CanRotate(s, d, g, p)
    ensures var s' := RotateAt(s, d, g, p, keep, c);
      var b' := if keep then b else Paint(b, Black);
      && CtxStored(s', up, p)
      && Stored(s'.mem, Mk(d, a, p, s.mem[g].color, Mk(d, b', g, c, u)), Parent(up))
      && s'.mem.Keys == s.mem.Keys
  {
    RotateAllowed(s, up, d, a, p, b, g, u);
    hide RotateAt, Stored, CtxStored, CanRotate, Separate;
    RotateRecords(s, d, g, p, keep, c);
    RotateTree(s, up, d, a, p, b, g, u, keep, c);
    RotateCtx(s, up, d, a, p, b, g, u, keep, c);
  }

  lemma {:induction false} RotateAllowed(s: State, up: Ctx, d: Dir, a: Tree, p: Ptr, b: Tree, g: Ptr, u: Tree)
    requires Rotatable(s, up, d, a, p, b, g, u)
    ensures CanRotate(s, d, g, p)
    ensures g != NULL && p != NULL && s.mem[g].parent !in {g, p}
    ensures s.mem[p].Child(d.Other()) != NULL ==> s.mem[p].Child(d.Other()) != s.mem[g].parent
  {
    assert b.Node? ==> b.p in Nodes(b);
    assert up.Step? ==> up.p in s.mem && up.p in CtxNodes(up);
  }

  /** The records the rotation leaves behind. */
  lemma {:induction false} RotateRecords(s: State, d: Dir, g: Ptr, p: Ptr, keep: bool, c: Color)
    requires CanRotate(s, d, g, p)
    requires g != NULL && p != NULL && s.mem[g].parent !in {g, p}
    requires s.mem[p].Child(d.Other()) != NULL ==> s.mem[p].Child(d.Other()) != s.mem[g].parent
    ensures var mem, mem' := s.mem, RotateAt(s, d, g, p, keep, c).mem;
      var tmp, par := mem[p].Child(d.Other()), mem[g].parent;
      && mem'.Keys == mem.Keys
      && mem'[g] == mem[g].WithChild(d, tmp).(parent := p, color := c)
      && mem'[p] == mem[p].WithChild(d.Other(), g).(parent := par, color := mem[g].color)
      && (tmp != NULL ==> mem'[tmp] == mem[tmp].(parent := g, color := if keep then mem[tmp].color else Black))
      && forall q :: q in mem && q !in {g, p, par} && (tmp == NULL || q != tmp) ==> mem'[q] == mem[q]
  {
    hide Relink;
    RelinkFrame(s.mem, d, g, p, keep);
  }

  lemma {:induction false} RotateTree(s: State, up: Ctx, d: Dir, a: Tree, p: Ptr, b: Tree, g: Ptr, u: Tree, keep: bool,
    c: Color)
    requires Rotatable(s, up, d, a, p, b, g, u)
    requires CanRotate(s, d, g, p)
    ensures var s' := RotateAt(s, d, g, p, keep, c);
      var b' := if keep then b else Paint(b, Black);
      Stored(s'.mem, Mk(d, a, p, s.mem[g].color, Mk(d, b', g, c, u)), Parent(up))
  {
    hide RotateAt, CtxStored, CanRotate;
    var s' := RotateAt(s, d, g, p, keep, c);
    assert up.Step? ==> up.p in CtxNodes(up);
    assert b.Node? ==> b.p in Nodes(b);
    NullApart(a); NullApart(b); NullApart(u);
    RotateAllowed(s, up, d, a, p, b, g, u);
    RotateRecords(s, d, g, p, keep, c);
    var b' := if keep then b else Paint(b, Black);
    assert b' == Paint(b, if keep then ColorOf(b) else Black) && Root(b') == Root(b);
    RotateParts(s.mem, s'.mem, Parent(up), a, p, b, g, u, if keep then ColorOf(b) else Black);
    MkStored(s'.mem, d, b', g, c, u, p);
    MkStored(s'.mem, d, a, p, s.mem[g].color, Mk(d, b', g, c, u), Parent(up));
  }

  lemma {:induction false} RotateParts(mem: Memory, mem': Memory, par: Ptr, a: Tree, p: Ptr, b: Tree, g: Ptr, u: Tree,
    bc: Color)
    requires Stored(mem, a, p) && Stored(mem, b, p) && Stored(mem, u, g) && Distinct(b)
    requires mem'.Keys == mem.Keys
    requires forall q :: q in mem && q !in {g, p, par, Root(b)} ==> mem'[q] == mem[q]
    requires b.Node? ==> mem'[b.p] == mem[b.p].(parent := g, color := bc)
    requires {g, p, par} !! Nodes(a) && {g, p, par} !! Nodes(b) && {g, p, par} !! Nodes(u)
    requires b.Node? ==> b.p !in Nodes(a) && b.p !in Nodes(u)
    requires NULL !in Nodes(a) && NULL !in Nodes(u) && NULL !in Nodes(b)
    ensures Stored(mem', a, p) && Stored(mem', Paint(b, bc), g) && Stored(mem', u, g)
  {
    StoredFrame(mem, mem', a, p);
    StoredFrame(mem, mem', u, g);
    Rehang(mem, mem', b, p, g, bc);
  }

  lemma {:induction false} RotateCtx(s: State, up: Ctx, d: Dir, a: Tree, p: Ptr, b: Tree, g: Ptr, u: Tree, keep: bool,
    c: Color)
    requires Rotatable(s, up, d, a, p, b, g, u)
    requires CanRotate(s, d, g, p)
    ensures CtxStored(RotateAt(s, d, g, p, keep, c), up, p)
  {
    hide Relink;
    RelinkFrame(s.mem, d, g, p, keep);
    var mem3 := Relink(s.mem, d, g, p, keep);
    var mem4 := SetParentColor(mem3, p, Parent(up), mem3[g].color);
    var mem5 := SetParentColor(mem4, g, p, c);
    assert b.Node? ==> b.p in Nodes(b);
    CtxFrame(s, s.(mem := mem5), up, g);
    ChangeChildStored(s.(mem := mem5), up, g, p);
  }
}
