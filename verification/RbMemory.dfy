/** Node records in memory, the setters of rbtree_augmented.h, and when a memory holds a tree. */
module RbMemory {
  import opened RbTree

  /** struct rb_node: __rb_parent_color holds a parent address and a colour. */
  datatype Rec = Rec(parent: Ptr, color: Color, left: Ptr, right: Ptr) {
    function Child(d: Dir): Ptr {
      if d == Left then left else right
    }
    function WithChild(d: Dir, q: Ptr): Rec {
      if d == Left then this.(left := q) else this.(right := q)
    }
  }

  type Memory = map<Ptr, Rec>

  // ----- Setters -----

  function SetChild(mem: Memory, p: Ptr, d: Dir, q: Ptr): Memory
    requires p in mem
  {
    mem[p := mem[p].WithChild(d, q)]
  }

  /** rb_set_parent */
  function SetParent(mem: Memory, p: Ptr, q: Ptr): Memory
    requires p in mem
  {
    mem[p := mem[p].(parent := q)]
  }

  /** rb_set_parent_color */
  function SetParentColor(mem: Memory, p: Ptr, q: Ptr, c: Color): Memory
    requires p in mem
  {
    mem[p := mem[p].(parent := q, color := c)]
  }

  /** The tree pointer and the memory it points into. */
  datatype State = State(mem: Memory, root: Ptr)

  /** __rb_change_child */
  function ChangeChild(s: State, old_: Ptr, new_: Ptr, parent: Ptr): State
    requires parent != NULL ==> parent in s.mem
  {
    if parent != NULL then
      if s.mem[parent].left == old_ then s.(mem := SetChild(s.mem, parent, Left, new_))
      else s.(mem := SetChild(s.mem, parent, Right, new_))
    else s.(root := new_)
  }

  /** __rb_rotate_set_parents */
  function RotateSetParents(s: State, old_: Ptr, new_: Ptr, c: Color): State
    requires old_ in s.mem && new_ in s.mem
    requires s.mem[old_].parent != NULL ==> s.mem[old_].parent in s.mem
  {
    var parent := s.mem[old_].parent;
    var mem1 := SetParentColor(s.mem, new_, parent, s.mem[old_].color);
    var mem2 := SetParentColor(mem1, old_, new_, c);
    ChangeChild(s.(mem := mem2), old_, new_, parent)
  }

  // ----- When a memory holds a tree -----

  predicate Stored(mem: Memory, t: Tree, parent: Ptr) {
    match t
    case Leaf => true
    case Node(l, p, c, r) =>
      && p in mem && mem[p] == Rec(parent, c, Root(l), Root(r))
      && Stored(mem, l, p) && Stored(mem, r, p)
  }

  lemma {:induction false} MkStored(mem: Memory, d: Dir, near: Tree, p: Ptr, c: Color, far: Tree, parent: Ptr)
    ensures Stored(mem, Mk(d, near, p, c, far), parent) <==>
      && p in mem && mem[p].parent == parent && mem[p].color == c
      && mem[p].Child(d) == Root(near) && mem[p].Child(d.Other()) == Root(far)
      && Stored(mem, near, p) && Stored(mem, far, p)
  {
  }

  /** The nodes around a position are stored, with `hole` as the root of what is there. */
  predicate CtxStored(s: State, ctx: Ctx, hole: Ptr) {
    match ctx
    case Top => s.root == hole
    case Step(up, d, p, c, sib) =>
      && p in s.mem
      && s.mem[p] == Rec(Parent(up), c, if d == Left then hole else Root(sib), if d == Left then Root(sib) else hole)
      && Stored(s.mem, sib, p) && CtxStored(s, up, p)
  }

  predicate Holds(s: State, t: Tree) {
    Distinct(t) && s.root == Root(t) && Stored(s.mem, t, NULL)
  }

  lemma {:induction false} StoredFrame(mem: Memory, mem': Memory, t: Tree, parent: Ptr)
    requires Stored(mem, t, parent)
    requires forall q :: q in Nodes(t) && q in mem ==> q in mem' && mem'[q] == mem[q]
    ensures Stored(mem', t, parent)
    decreases t
  {
    match t
    case Leaf =>
    case Node(l, p, _, r) =>
      StoredFrame(mem, mem', l, p);
      StoredFrame(mem, mem', r, p);
  }

  lemma {:induction false} CtxFrame(s: State, s': State, ctx: Ctx, hole: Ptr)
    requires CtxStored(s, ctx, hole) && s'.root == s.root
    requires forall q :: q in CtxNodes(ctx) && q in s.mem ==> q in s'.mem && s'.mem[q] == s.mem[q]
    ensures CtxStored(s', ctx, hole)
    decreases ctx
  {
    match ctx
    case Top =>
    case Step(up, _, p, _, sib) =>
      StoredFrame(s.mem, s'.mem, sib, p);
      CtxFrame(s, s', up, p);
  }

  // Most steps write four records at most; the frame lemmas name them (repeating one where there are fewer).

  predicate Only(s: State, s': State, w: Ptr, x: Ptr, y: Ptr, z: Ptr) {
    && s'.root == s.root && s'.mem.Keys == s.mem.Keys
    && forall q :: q in s.mem && q != w && q != x && q != y && q != z ==> s'.mem[q] == s.mem[q]
  }

  predicate Clear(nodes: set<Ptr>, w: Ptr, x: Ptr, y: Ptr, z: Ptr) {
    w !in nodes && x !in nodes && y !in nodes && z !in nodes
  }

  /** The root of a tree, or a stand-in when there is none. */
  function RootOr(t: Tree, p: Ptr): Ptr {
    if t.Node? then t.p else p
  }

  lemma {:induction false} KeepTree(s: State, s': State, t: Tree, parent: Ptr, w: Ptr, x: Ptr, y: Ptr, z: Ptr)
    requires Only(s, s', w, x, y, z) && Stored(s.mem, t, parent) && Clear(Nodes(t), w, x, y, z)
    ensures Stored(s'.mem, t, parent)
  {
    StoredFrame(s.mem, s'.mem, t, parent);
  }

  lemma {:induction false} KeepCtx(s: State, s': State, ctx: Ctx, hole: Ptr, w: Ptr, x: Ptr, y: Ptr, z: Ptr)
    requires Only(s, s', w, x, y, z) && CtxStored(s, ctx, hole) && Clear(CtxNodes(ctx), w, x, y, z)
    ensures CtxStored(s', ctx, hole)
  {
    CtxFrame(s, s', ctx, hole);
  }

  /** A subtree whose root record gets a new parent and colour. */
  lemma {:induction false} MoveTree(s: State, s': State, t: Tree, parent: Ptr, parent': Ptr, c: Color, x: Ptr, y: Ptr,
    z: Ptr)
    requires Stored(s.mem, t, parent) && Distinct(t) && x !in Nodes(t) && y !in Nodes(t) && z !in Nodes(t)
    requires Only(s, s', RootOr(t, x), x, y, z)
    requires t.Node? ==> t.p in s.mem && s'.mem[t.p] == s.mem[t.p].(parent := parent', color := c)
    ensures Stored(s'.mem, Paint(t, c), parent')
  {
    Rehang(s.mem, s'.mem, t, parent, parent', c);
  }

  lemma {:induction false} StoredNodes(mem: Memory, t: Tree, parent: Ptr)
    requires Stored(mem, t, parent)
    ensures Nodes(t) <= mem.Keys
    decreases t
  {
    match t
    case Leaf =>
    case Node(l, p, _, r) => StoredNodes(mem, l, p); StoredNodes(mem, r, p);
  }

  /** Only the root's record mentions the parent, and it alone changes when the subtree is re-hung. */
  lemma {:induction false} Rehang(mem: Memory, mem': Memory, t: Tree, parent: Ptr, parent': Ptr, c: Color)
    requires Stored(mem, t, parent) && Distinct(t)
    requires t.Node? ==> t.p in mem' && mem'[t.p] == mem[t.p].(parent := parent', color := c)
    requires forall q :: q in Nodes(t) && q in mem && q != Root(t) ==> q in mem' && mem'[q] == mem[q]
    ensures Stored(mem', Paint(t, c), parent')
  {
    if t.Node? {
      StoredFrame(mem, mem', t.left, t.p);
      StoredFrame(mem, mem', t.right, t.p);
    }
  }

  /** A stored tree is a stored subtree in a stored surrounding. */
  lemma {:induction false} StoredPlug(s: State, ctx: Ctx, t: Tree)
    ensures s.root == Root(Plug(ctx, t)) && Stored(s.mem, Plug(ctx, t), NULL)
      <==> CtxStored(s, ctx, Root(t)) && Stored(s.mem, t, Parent(ctx))
    decreases ctx
  {
    match ctx
    case Top =>
    case Step(up, d, p, c, sib) => StoredPlug(s, up, Mk(d, t, p, c, sib));
  }

  lemma {:induction false} HoldsPlug(s: State, ctx: Ctx, t: Tree)
    ensures Holds(s, Plug(ctx, t)) <==> Apart(ctx, t) && CtxStored(s, ctx, Root(t)) && Stored(s.mem, t, Parent(ctx))
  {
    NodesPlug(ctx, t);
    StoredPlug(s, ctx, t);
  }

  /** Replacing the child at a position, as __rb_change_child does it. */
  lemma {:induction false} ChangeChildStored(s: State, ctx: Ctx, old_: Ptr, new_: Ptr)
    requires CtxStored(s, ctx, old_) && CtxDistinct(ctx)
    requires old_ != NULL && old_ !in CtxNodes(ctx)
    ensures Parent(ctx) != NULL ==> Parent(ctx) in s.mem
    ensures CtxStored(ChangeChild(s, old_, new_, Parent(ctx)), ctx, new_)
  {
    if ctx.Step? {
      var s' := ChangeChild(s, old_, new_, Parent(ctx));
      assert Root(ctx.sib) != old_;
      StoredFrame(s.mem, s'.mem, ctx.sib, ctx.p);
      CtxFrame(s, s', ctx.up, ctx.p);
    }
  }
}
