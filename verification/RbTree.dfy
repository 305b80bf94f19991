/** Red-black trees as values: trees of node addresses, positions in them, and the five invariants. */
module RbTree {

  type Ptr = nat

  const NULL: Ptr := 0

  datatype Color = Red | Black

  datatype Dir = Left | Right {
    function Other(): Dir {
      match this case Left => Right case Right => Left
    }
  }

  datatype Tree = Leaf | Node(left: Tree, p: Ptr, color: Color, right: Tree)

  /** A node whose child on side `d` is `near` and whose other child is `far`. */
  function Mk(d: Dir, near: Tree, p: Ptr, c: Color, far: Tree): Tree {
    match d
    case Left => Node(near, p, c, far)
    case Right => Node(far, p, c, near)
  }

  /** A position in a tree: the path from it up to the root. In `Step(up, d, p, c, sib)` the position is
      child `d` of node `p` of colour `c`, whose other child is `sib`. */
  datatype Ctx = Top | Step(up: Ctx, d: Dir, p: Ptr, c: Color, sib: Tree)

  function Plug(ctx: Ctx, t: Tree): Tree
    decreases ctx
  {
    match ctx
    case Top => t
    case Step(up, d, p, c, sib) => Plug(up, Mk(d, t, p, c, sib))
  }

  function Root(t: Tree): Ptr {
    if t.Leaf? then NULL else t.p
  }

  function Parent(ctx: Ctx): Ptr {
    if ctx.Top? then NULL else ctx.p
  }

  function ColorOf(t: Tree): Color {
    if t.Leaf? then Black else t.color
  }

  function Paint(t: Tree, c: Color): Tree {
    if t.Leaf? then t else t.(color := c)
  }

  // ----- In-order sequence -----

  function InOrder(t: Tree): seq<Ptr> {
    match t
    case Leaf => []
    case Node(l, p, _, r) => InOrder(l) + [p] + InOrder(r)
  }

  /** The addresses in order before, and after, a position. */
  function Before(ctx: Ctx): seq<Ptr> {
    match ctx
    case Top => []
    case Step(up, d, p, _, sib) => if d == Left then Before(up) else Before(up) + InOrder(sib) + [p]
  }

  function After(ctx: Ctx): seq<Ptr> {
    match ctx
    case Top => []
    case Step(up, d, p, _, sib) => if d == Right then After(up) else [p] + InOrder(sib) + After(up)
  }

  lemma {:induction false} InOrderPlug(ctx: Ctx, t: Tree)
    ensures InOrder(Plug(ctx, t)) == Before(ctx) + InOrder(t) + After(ctx)
    decreases ctx
  {
    match ctx
    case Top =>
    case Step(up, d, p, c, sib) =>
      InOrderPlug(up, Mk(d, t, p, c, sib));
  }

  lemma {:induction false} SameOrder(ctx: Ctx, t: Tree, t': Tree)
    requires InOrder(t) == InOrder(t')
    ensures InOrder(Plug(ctx, t)) == InOrder(Plug(ctx, t'))
  {
    InOrderPlug(ctx, t);
    InOrderPlug(ctx, t');
  }

  /** A rotation does not change the order of the nodes, whatever the colours. */
  lemma {:induction false} RotationKeepsOrder(d: Dir, a: Tree, p: Ptr, c1: Color, b: Tree, g: Ptr, c2: Color, u: Tree,
    c1': Color, c2': Color)
    ensures InOrder(Mk(d, Mk(d, a, p, c1, b), g, c2, u)) == InOrder(Mk(d, a, p, c1', Mk(d, b, g, c2', u)))
  {
    InOrderMk(d, a, p, c1, b);
    InOrderMk(d, Mk(d, a, p, c1, b), g, c2, u);
    InOrderMk(d, b, g, c2', u);
    InOrderMk(d, a, p, c1', Mk(d, b, g, c2', u));
    hide InOrder;
    Regroup(InOrder(a), p, InOrder(b), g, InOrder(u));
    Regroup(InOrder(u), g, InOrder(b), p, InOrder(a));
  }

  lemma {:induction false} InOrderMk(d: Dir, near: Tree, p: Ptr, c: Color, far: Tree)
    ensures InOrder(Mk(d, near, p, c, far)) ==
      if d == Left then InOrder(near) + [p] + InOrder(far) else InOrder(far) + [p] + InOrder(near)
  {
  }

  lemma {:induction false} Regroup(x: seq<Ptr>, p: Ptr, y: seq<Ptr>, g: Ptr, z: seq<Ptr>)
    ensures (x + [p] + y) + [g] + z == x + [p] + (y + [g] + z)
  {
  }

  lemma {:induction false} ColorKeepsOrder(d: Dir, near: Tree, near': Tree, p: Ptr, c: Color, c': Color, far: Tree,
    far': Tree)
    requires InOrder(near) == InOrder(near') && InOrder(far) == InOrder(far')
    ensures InOrder(Mk(d, near, p, c, far)) == InOrder(Mk(d, near', p, c', far'))
  {
  }

  // ----- Node sets -----

  function Nodes(t: Tree): set<Ptr> {
    match t
    case Leaf => {}
    case Node(l, p, _, r) => Nodes(l) + {p} + Nodes(r)
  }

  function CtxNodes(ctx: Ctx): set<Ptr> {
    match ctx
    case Top => {}
    case Step(up, _, p, _, sib) => CtxNodes(up) + {p} + Nodes(sib)
  }

  /** No address occurs twice, and none is NULL. */
  predicate Distinct(t: Tree) {
    match t
    case Leaf => true
    case Node(l, p, _, r) =>
      p != NULL && p !in Nodes(l) && p !in Nodes(r) && Nodes(l) !! Nodes(r) && Distinct(l) && Distinct(r)
  }

  lemma {:induction false} NullApart(t: Tree)
    requires Distinct(t)
    ensures NULL !in Nodes(t)
  {
    match t
    case Leaf =>
    case Node(l, _, _, r) => NullApart(l); NullApart(r);
  }

  predicate CtxDistinct(ctx: Ctx) {
    match ctx
    case Top => true
    case Step(up, _, p, _, sib) =>
      && p != NULL && p !in Nodes(sib) && p !in CtxNodes(up) && Nodes(sib) !! CtxNodes(up)
      && Distinct(sib) && CtxDistinct(up)
  }

  predicate Apart(ctx: Ctx, t: Tree) {
    CtxDistinct(ctx) && Distinct(t) && CtxNodes(ctx) !! Nodes(t)
  }

  lemma {:induction false} NodesPlug(ctx: Ctx, t: Tree)
    ensures Nodes(Plug(ctx, t)) == CtxNodes(ctx) + Nodes(t)
    ensures Distinct(Plug(ctx, t)) <==> Apart(ctx, t)
    decreases ctx
  {
    match ctx
    case Top =>
    case Step(up, d, p, c, sib) =>
      NodesPlug(up, Mk(d, t, p, c, sib));
  }

  lemma {:induction false} NodesInOrder(t: Tree)
    ensures forall p :: p in Nodes(t) <==> p in InOrder(t)
  {
    match t
    case Leaf =>
    case Node(l, _, _, r) => NodesInOrder(l); NodesInOrder(r);
  }

  /** Every node of a tree has a position. */
  lemma {:induction false} Locate(ctx: Ctx, t: Tree, p: Ptr) returns (ctx': Ctx, t': Tree)
    requires p in Nodes(t)
    ensures t'.Node? && t'.p == p && Plug(ctx', t') == Plug(ctx, t)
    decreases t
  {
    if t.p == p {
      ctx', t' := ctx, t;
    } else if p in Nodes(t.left) {
      ctx', t' := Locate(Step(ctx, Left, t.p, t.color, t.right), t.left, p);
    } else {
      ctx', t' := Locate(Step(ctx, Right, t.p, t.color, t.left), t.right, p);
    }
  }

  // ----- The red-black invariants -----

  function BlackHeight(t: Tree): nat {
    match t
    case Leaf => 0
    case Node(l, _, c, _) => BlackHeight(l) + (if c == Black then 1 else 0)
  }

  /** Every path from the root to a leaf has the same number of black nodes. */
  predicate Balanced(t: Tree) {
    match t
    case Leaf => true
    case Node(l, _, _, r) => BlackHeight(l) == BlackHeight(r) && Balanced(l) && Balanced(r)
  }

  /** Both children of every red node are black. */
  predicate RedOk(t: Tree) {
    match t
    case Leaf => true
    case Node(l, _, c, r) => (c == Red ==> ColorOf(l) == Black == ColorOf(r)) && RedOk(l) && RedOk(r)
  }

  predicate RedBlack(t: Tree) {
    ColorOf(t) == Black && Balanced(t) && RedOk(t)
  }

  /** A subtree of black height `h` at this position makes the whole tree balanced. */
  predicate CtxBalanced(ctx: Ctx, h: nat) {
    match ctx
    case Top => true
    case Step(up, _, _, c, sib) =>
      Balanced(sib) && BlackHeight(sib) == h && CtxBalanced(up, h + if c == Black then 1 else 0)
  }

  /** Around this position no red node has a red child, and the root is black. */
  predicate CtxRedOk(ctx: Ctx) {
    match ctx
    case Top => true
    case Step(up, _, _, c, sib) =>
      && RedOk(sib) && CtxRedOk(up)
      && (c == Red ==> ColorOf(sib) == Black && up.Step? && up.c == Black)
  }

  /** The position may hold a red node. */
  predicate UnderBlack(ctx: Ctx) {
    ctx.Step? && ctx.c == Black
  }

  lemma {:induction false} RedBlackPlug(ctx: Ctx, t: Tree)
    ensures RedBlack(Plug(ctx, t)) <==>
      && Balanced(t) && RedOk(t) && CtxBalanced(ctx, BlackHeight(t)) && CtxRedOk(ctx)
      && (ColorOf(t) == Red ==> UnderBlack(ctx))
    decreases ctx
  {
    match ctx
    case Top =>
    case Step(up, d, p, c, sib) =>
      RedBlackPlug(up, Mk(d, t, p, c, sib));
  }

  /** What holds of a node built from its near and far child, whichever side is near. */
  lemma {:induction false} MkShape(d: Dir, near: Tree, p: Ptr, c: Color, far: Tree)
    ensures Balanced(Mk(d, near, p, c, far)) <==>
      Balanced(near) && Balanced(far) && BlackHeight(near) == BlackHeight(far)
    ensures Balanced(Mk(d, near, p, c, far)) ==>
      BlackHeight(Mk(d, near, p, c, far)) == BlackHeight(near) + if c == Black then 1 else 0
    ensures RedOk(Mk(d, near, p, c, far)) <==>
      RedOk(near) && RedOk(far) && (c == Red ==> ColorOf(near) == Black == ColorOf(far))
    ensures Nodes(Mk(d, near, p, c, far)) == Nodes(near) + {p} + Nodes(far)
    ensures Distinct(Mk(d, near, p, c, far)) <==>
      && p != NULL && p !in Nodes(near) && p !in Nodes(far) && Nodes(near) !! Nodes(far)
      && Distinct(near) && Distinct(far)
  {
  }

  lemma {:induction false} PaintSame(t: Tree)
    ensures Paint(t, ColorOf(t)) == t
  {
  }

  lemma {:induction false} RootAmong(t: Tree)
    requires t.Node?
    ensures t.p in Nodes(t)
  {
  }

  lemma {:induction false} PaintShape(t: Tree, c: Color)
    ensures Nodes(Paint(t, c)) == Nodes(t) && Distinct(Paint(t, c)) == Distinct(t)
    ensures Balanced(Paint(t, c)) == Balanced(t) && Root(Paint(t, c)) == Root(t)
    ensures RedOk(t) ==> RedOk(Paint(t, Black))
    ensures InOrder(Paint(t, c)) == InOrder(t)
  {
  }

  // ----- The logarithmic guarantee -----

  function MinPath(t: Tree): nat {
    match t
    case Leaf => 0
    case Node(l, _, _, r) => 1 + if MinPath(l) <= MinPath(r) then MinPath(l) else MinPath(r)
  }

  function MaxPath(t: Tree): nat {
    match t
    case Leaf => 0
    case Node(l, _, _, r) => 1 + if MaxPath(l) >= MaxPath(r) then MaxPath(l) else MaxPath(r)
  }

  lemma {:induction false} PathBounds(t: Tree)
    requires Balanced(t) && RedOk(t)
    ensures BlackHeight(t) <= MinPath(t)
    ensures MaxPath(t) <= 2 * BlackHeight(t) + (if ColorOf(t) == Red then 1 else 0)
  {
    match t
    case Leaf =>
    case Node(l, _, _, r) => PathBounds(l); PathBounds(r);
  }

  /** No root-to-leaf path is more than twice as long as another. */
  lemma {:induction false} PathsWithinTwice(t: Tree)
    requires RedBlack(t)
    ensures MaxPath(t) <= 2 * MinPath(t)
  {
    PathBounds(t);
  }
}
