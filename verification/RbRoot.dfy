/** The red-black tree as its users see it: rb_insert, rb_erase, rb_first and rb_next. */
module RbRoot {
  import opened RbTree
  import opened RbMemory
  import Insert = RbInsert
  import Erase = RbErase
  import Unlink = RbUnlink

  type Compare = (Ptr, Ptr) -> int

  /** The comparator orders nodes: its sign is antisymmetric and "less than" is transitive up to equivalence. */
  ghost predicate Ordering(cmp: Compare) {
    && (forall x, y :: cmp(x, y) < 0 <==> cmp(y, x) > 0)
    && (forall x, y, z :: cmp(x, y) <= 0 && cmp(y, z) <= 0 ==> cmp(x, z) <= 0)
    && (forall x, y, z :: cmp(x, y) < 0 && cmp(y, z) <= 0 ==> cmp(x, z) < 0)
    && (forall x, y, z :: cmp(x, y) <= 0 && cmp(y, z) < 0 ==> cmp(x, z) < 0)
  }

  ghost predicate Sorted(s: seq<Ptr>, cmp: Compare) {
    forall i, j :: 0 <= i < j < |s| ==> cmp(s[i], s[j]) < 0
  }

  ghost predicate AllBelow(s: seq<Ptr>, x: Ptr, cmp: Compare) {
    forall i :: 0 <= i < |s| ==> cmp(s[i], x) < 0
  }

  ghost predicate AllAbove(s: seq<Ptr>, x: Ptr, cmp: Compare) {
    forall i :: 0 <= i < |s| ==> cmp(x, s[i]) < 0
  }

  // ----- Linking a new node -----

  /** rb_link_node: the record of a fresh red leaf, and the link to it from side `d` of the parent. */
  function LinkNode(s: State, node: Ptr, parent: Ptr, d: Dir): State
    requires parent != NULL ==> parent in s.mem && parent != node
  {
    var mem1 := s.mem[node := Rec(parent, Red, NULL, NULL)];
    if parent == NULL then State(mem1, node) else State(SetChild(mem1, parent, d, node), s.root)
  }

  lemma {:induction false} LinkStored(s: State, ctx: Ctx, node: Ptr)
    requires Holds(s, Plug(ctx, Leaf)) && node != NULL && node !in CtxNodes(ctx)
    ensures ctx.Step? ==> ctx.p in s.mem && ctx.p != node && ctx.p != NULL
    ensures Holds(LinkNode(s, node, Parent(ctx), if ctx.Step? then ctx.d else Left),
                  Plug(ctx, Node(Leaf, node, Red, Leaf)))
  {
    HoldsPlug(s, ctx, Leaf);
    var d := if ctx.Step? then ctx.d else Left;
    var s' := LinkNode(s, node, Parent(ctx), d);
    if ctx.Step? {
      StoredFrame(s.mem, s'.mem, ctx.sib, ctx.p);
      CtxFrame(s, s', ctx.up, ctx.p);
    }
    HoldsPlug(s', ctx, Node(Leaf, node, Red, Leaf));
  }

  lemma {:induction false} LinkFixing(ctx: Ctx, node: Ptr)
    requires RedBlack(Plug(ctx, Leaf))
    ensures Insert.Fixing(ctx, Node(Leaf, node, Red, Leaf))
  {
    RedBlackPlug(ctx, Leaf);
  }

  lemma {:induction false} LinkOrder(ctx: Ctx, node: Ptr)
    ensures InOrder(Plug(ctx, Node(Leaf, node, Red, Leaf))) == Before(ctx) + [node] + After(ctx)
    ensures InOrder(Plug(ctx, Leaf)) == Before(ctx) + After(ctx)
  {
    InOrderPlug(ctx, Node(Leaf, node, Red, Leaf));
    InOrderPlug(ctx, Leaf);
  }

  lemma {:induction false} LessTransitive(cmp: Compare, x: Ptr, y: Ptr, z: Ptr)
    requires Ordering(cmp) && cmp(x, y) < 0 && cmp(y, z) < 0
    ensures cmp(x, z) < 0
  {
  }

  lemma {:induction false} Antisymmetric(cmp: Compare, x: Ptr, y: Ptr)
    requires Ordering(cmp)
    ensures cmp(x, y) < 0 <==> cmp(y, x) > 0
  {
  }

  /** A node below (above) a member of a sorted sequence is below (above) everything after (before) it. */
  lemma {:induction false} SplitBounds(a: seq<Ptr>, p: Ptr, b: seq<Ptr>, node: Ptr, cmp: Compare)
    requires Ordering(cmp) && Sorted(a + [p] + b, cmp)
    ensures cmp(node, p) < 0 ==> AllAbove([p] + b, node, cmp)
    ensures cmp(node, p) > 0 ==> AllBelow(a + [p], node, cmp)
  {
    hide Ordering;
    var s, k := a + [p] + b, |a|;
    assert s[k] == p;
    if cmp(node, p) < 0 {
      forall i | 0 <= i < |[p] + b| ensures cmp(node, ([p] + b)[i]) < 0 {
        assert ([p] + b)[i] == s[k + i];
        if i > 0 { LessTransitive(cmp, node, p, s[k + i]); }
      }
    } else if cmp(node, p) > 0 {
      Antisymmetric(cmp, p, node);
      forall i | 0 <= i < |a + [p]| ensures cmp((a + [p])[i], node) < 0 {
        assert (a + [p])[i] == s[i];
        if i < k { LessTransitive(cmp, s[i], p, node); }
      }
    }
  }

  /** Going one step down keeps the position between the smaller and the larger nodes. */
  lemma {:induction false} DescendBounds(ctx: Ctx, t: Tree, node: Ptr, cmp: Compare)
    requires t.Node? && Ordering(cmp) && Sorted(InOrder(Plug(ctx, t)), cmp)
    ensures cmp(node, t.p) < 0 ==> AllAbove(After(Step(ctx, Left, t.p, t.color, t.right)), node, cmp)
    ensures cmp(node, t.p) > 0 ==> AllBelow(Before(Step(ctx, Right, t.p, t.color, t.left)), node, cmp)
  {
    hide Ordering, Sorted, AllBelow, AllAbove, Plug;
    InOrderPlug(ctx, t);
    var a, l, r, b := Before(ctx), InOrder(t.left), InOrder(t.right), After(ctx);
    assert a + (l + [t.p] + r) + b == (a + l) + [t.p] + (r + b);
    SplitBounds(a + l, t.p, r + b, node, cmp);
    assert [t.p] + (r + b) == [t.p] + r + b;
  }

  lemma {:induction false} InsertedSorted(a: seq<Ptr>, node: Ptr, b: seq<Ptr>, cmp: Compare)
    requires Sorted(a + b, cmp) && AllBelow(a, node, cmp) && AllAbove(b, node, cmp)
    ensures Sorted(a + [node] + b, cmp)
  {
    var s, s' := a + b, a + [node] + b;
    forall i, j | 0 <= i < j < |s'| ensures cmp(s'[i], s'[j]) < 0 {
      var i0, j0 := if i > |a| then i - 1 else i, if j > |a| then j - 1 else j;
      if i != |a| && j != |a| { assert s[i0] == s'[i] && s[j0] == s'[j]; }
    }
  }

  lemma {:induction false} LinkAll(s: State, ctx: Ctx, node: Ptr, cmp: Compare)
    requires Holds(s, Plug(ctx, Leaf)) && RedBlack(Plug(ctx, Leaf)) && Ordering(cmp)
    requires Sorted(InOrder(Plug(ctx, Leaf)), cmp)
    requires node != NULL && node !in InOrder(Plug(ctx, Leaf))
    requires AllBelow(Before(ctx), node, cmp) && AllAbove(After(ctx), node, cmp)
    ensures ctx.Step? ==> ctx.p in s.mem && ctx.p != node && ctx.p != NULL
    ensures forall d: Dir :: (ctx.Step? ==> d == ctx.d) ==>
      Holds(LinkNode(s, node, Parent(ctx), d), Plug(ctx, Node(Leaf, node, Red, Leaf)))
    ensures Insert.Fixing(ctx, Node(Leaf, node, Red, Leaf))
    ensures var order := InOrder(Plug(ctx, Node(Leaf, node, Red, Leaf)));
      && Sorted(order, cmp) && node in order && Unlink.Remove(order, node) == InOrder(Plug(ctx, Leaf))
    ensures forall q :: q in InOrder(Plug(ctx, Leaf)) ==> cmp(node, q) != 0
  {
    hide Ordering, Sorted, AllBelow, AllAbove, Unlink.Remove, Plug, Before, After, RedBlack, Holds, InOrder;
    NodesPlug(ctx, Leaf);
    NodesInOrder(Plug(ctx, Leaf));
    LinkStored(s, ctx, node);
    LinkFixing(ctx, node);
    LinkOrder(ctx, node);
    InsertedSorted(Before(ctx), node, After(ctx), cmp);
    NoEqual(Before(ctx), node, After(ctx), cmp);
    Unlink.RemoveMiddle(Before(ctx), node, After(ctx));
  }

  lemma {:induction false} NoEqual(a: seq<Ptr>, node: Ptr, b: seq<Ptr>, cmp: Compare)
    requires Ordering(cmp) && AllBelow(a, node, cmp) && AllAbove(b, node, cmp)
    ensures forall q :: q in a + b ==> cmp(node, q) != 0
  {
  }

  const EEXIST: int := 17

  /** The search for the place of a new node: a link slot, or a stored node equal to it. */
  method FindLink(s: State, node: Ptr, cmp: Compare, ghost tree: Tree)
    returns (equal: Ptr, parent: Ptr, d: Dir, ghost ctx: Ctx)
    requires Holds(s, tree) && Ordering(cmp) && Sorted(InOrder(tree), cmp)
    ensures equal != NULL ==> equal in InOrder(tree) && cmp(node, equal) == 0
    ensures equal == NULL ==>
      && Plug(ctx, Leaf) == tree && parent == Parent(ctx) && (ctx.Step? ==> d == ctx.d)
      && AllBelow(Before(ctx), node, cmp) && AllAbove(After(ctx), node, cmp)
  {
    hide Ordering, Sorted;
    ghost var t := tree;
    ctx := Top;
    var next := s.root;
    parent, d := NULL, Left;
    while next != NULL
      invariant Plug(ctx, t) == tree && next == Root(t) && parent == Parent(ctx) && (ctx.Step? ==> d == ctx.d)
      invariant Stored(s.mem, t, parent) && Distinct(t)
      invariant AllBelow(Before(ctx), node, cmp) && AllAbove(After(ctx), node, cmp)
      decreases t
    {
      DescendBounds(ctx, t, node, cmp);
      var result := cmp(node, next);
      if result == 0 {
        NodesPlug(ctx, t);
        RootAmong(t);
        NodesInOrder(tree);
        equal := next;
        return;
      }
      parent := next;
      d := if result < 0 then Left else Right;
      next := s.mem[next].Child(d);
      ctx := Step(ctx, d, t.p, t.color, if d == Left then t.right else t.left);
      t := if d == Left then t.left else t.right;
    }
    Unlink.NullRoot(t);
    equal := NULL;
  }

  // ----- In-order traversal -----

  /** What follows `node` in the sequence, or NULL. */
  ghost predicate Follows(s: seq<Ptr>, node: Ptr, next: Ptr) {
    forall i :: 0 <= i < |s| && s[i] == node ==> next == if i + 1 < |s| then s[i + 1] else NULL
  }

  lemma {:induction false} FollowsMiddle(a: seq<Ptr>, node: Ptr, b: seq<Ptr>)
    requires node !in a && node !in b
    ensures Follows(a + [node] + b, node, if b == [] then NULL else b[0])
  {
    var s := a + [node] + b;
    assert forall i :: 0 <= i < |a| ==> s[i] == a[i];
    assert forall i :: |a| < i < |s| ==> s[i] == b[i - |a| - 1];
  }

  lemma {:induction false} AfterNodes(ctx: Ctx)
    ensures forall q :: q in After(ctx) ==> q in CtxNodes(ctx)
  {
    match ctx
    case Top =>
    case Step(up, _, _, _, sib) => AfterNodes(up); NodesInOrder(sib);
  }

  lemma {:induction false} FollowsNode(ctx: Ctx, t: Tree)
    requires Apart(ctx, t) && t.Node?
    ensures var b := InOrder(t.right) + After(ctx);
      Follows(InOrder(Plug(ctx, t)), t.p, if b == [] then NULL else b[0])
  {
    hide Follows, Plug, Before, After, Nodes, CtxNodes, Distinct;
    InOrderPlug(ctx, t);
    NotAround(ctx, t);
    var a, b := Before(ctx) + InOrder(t.left), InOrder(t.right) + After(ctx);
    assert InOrder(Plug(ctx, t)) == a + [t.p] + b;
    FollowsMiddle(a, t.p, b);
  }

  lemma {:induction false} NotAround(ctx: Ctx, t: Tree)
    requires Apart(ctx, t) && t.Node?
    ensures t.p !in Before(ctx) && t.p !in After(ctx) && t.p !in InOrder(t.left) && t.p !in InOrder(t.right)
  {
    hide Before, After, InOrder;
    Unlink.BeforeNodes(ctx);
    AfterNodes(ctx);
    NodesInOrder(t.left);
    NodesInOrder(t.right);
  }

  /** Down the left links to the first node of a non-empty subtree. */
  method Leftmost(mem: Memory, top: Ptr, ghost t0: Tree, ghost parent0: Ptr) returns (n: Ptr)
    requires t0.Node? && t0.p == top && Stored(mem, t0, parent0) && Distinct(t0)
    ensures InOrder(t0) != [] && n == InOrder(t0)[0] && n != NULL
  {
    ghost var t, parent := t0, parent0;
    n := top;
    while mem[n].left != NULL
      invariant t.Node? && t.p == n && Stored(mem, t, parent) && Distinct(t)
      invariant InOrder(t) != [] && InOrder(t0)[0] == InOrder(t)[0]
      decreases t
    {
      n := mem[n].left;
      t, parent := t.left, t.p;
    }
    Unlink.NullRoot(t.left);
  }

  /** The climb of rb_next: up while the node is a right child. */
  method ClimbRight(s: State, node0: Ptr, ghost ctx0: Ctx) returns (parent: Ptr)
    requires CtxStored(s, ctx0, node0) && CtxDistinct(ctx0) && node0 != NULL && node0 !in CtxNodes(ctx0)
    requires node0 in s.mem && s.mem[node0].parent == Parent(ctx0)
    ensures parent == if After(ctx0) == [] then NULL else After(ctx0)[0]
  {
    ghost var ctx := ctx0;
    var node := node0;
    parent := s.mem[node].parent;
    while parent != NULL && node == s.mem[parent].right
      invariant CtxStored(s, ctx, node) && CtxDistinct(ctx) && node != NULL && node !in CtxNodes(ctx)
      invariant parent == Parent(ctx) && After(ctx) == After(ctx0)
      decreases ctx
    {
      node := parent;
      parent := s.mem[node].parent;
      ctx := ctx.up;
    }
  }

  /** rb_erase */
  method EraseFrom(s: State, node: Ptr, ghost tree: Tree) returns (s': State, ghost tree': Tree)
    requires Holds(s, tree) && RedBlack(tree) && node in InOrder(tree)
    ensures Holds(s', tree') && RedBlack(tree') && InOrder(tree') == Unlink.Remove(InOrder(tree), node)
  {
    hide RedBlack, Holds, Unlink.Remove;
    NodesInOrder(tree);
    ghost var ctx, t := Locate(Top, tree, node);
    ghost var at;
    var rebalance;
    s', rebalance, at, tree' := Unlink.Unlink(s, node, ctx, t);
    if rebalance != NULL {
      s', tree' := Erase.EraseColor(s', rebalance, at);
    }
  }

  class RbRoot {
    var mem: Memory
    var root: Ptr
    ghost var tree: Tree

    ghost predicate Valid()
      reads this
    {
      Holds(State(mem, root), tree) && RedBlack(tree)
    }

    /** The nodes in order. */
    ghost function Order(): seq<Ptr>
      reads this
    {
      InOrder(tree)
    }

    /** RB_ROOT */
    constructor ()
      ensures Valid() && Order() == []
    {
      mem, root, tree := map[], NULL, Leaf;
    }

    /** rb_insert: link the node where the comparator says, then rebalance; refuse a node equal to a stored one. */
    method InsertNode(node: Ptr, cmp: Compare) returns (ret: int)
      requires Valid() && Ordering(cmp) && Sorted(Order(), cmp)
      requires node != NULL && node !in Order()
      modifies this
      ensures Valid() && Sorted(Order(), cmp)
      ensures ret == 0 <==> forall q :: q in old(Order()) ==> cmp(node, q) != 0
      ensures ret == 0 ==> Unlink.Remove(Order(), node) == old(Order()) && node in Order()
      ensures ret != 0 ==> ret == -EEXIST && unchanged(this)
    {
      hide Ordering, Sorted, AllBelow, AllAbove, RedBlack, Unlink.Remove, LinkNode, Holds, InOrder, Plug, Before, After;
      var s := State(mem, root);
      ghost var ctx;
      var equal, parent, d;
      equal, parent, d, ctx := FindLink(s, node, cmp, tree);
      if equal != NULL { return -EEXIST; }
      LinkAll(s, ctx, node, cmp);
      s := LinkNode(s, node, parent, d);
      s, tree := Insert.InsertColor(s, node, ctx, Node(Leaf, node, Red, Leaf));
      mem, root := s.mem, s.root;
      ret := 0;
    }

    method EraseNode(node: Ptr)
      requires Valid() && node in Order()
      modifies this
      ensures Valid() && Order() == Unlink.Remove(old(Order()), node)
    {
      hide RedBlack, Holds, Unlink.Remove;
      var s;
      s, tree := EraseFrom(State(mem, root), node, tree);
      mem, root := s.mem, s.root;
    }

    /** rb_first */
    method First() returns (n: Ptr)
      requires Valid()
      ensures n == if Order() == [] then NULL else Order()[0]
    {
      n := root;
      if n == NULL {
        Unlink.NullRoot(tree);
      } else {
        n := Leftmost(mem, n, tree, NULL);
      }
    }

    /** rb_next */
    method Next(node: Ptr) returns (n: Ptr)
      requires Valid() && node in Order()
      ensures Follows(Order(), node, n)
    {
      hide Follows, InOrder, Plug;
      NodesInOrder(tree);
      ghost var ctx, t := Locate(Top, tree, node);
      assert Plug(Top, tree) == tree by { PlugTop(tree); }
      HoldsPlug(State(mem, root), ctx, t);
      FollowsNode(ctx, t);
      if mem[node].right != NULL {
        n := Leftmost(mem, mem[node].right, t.right, node);
      } else {
        RightEmpty(t);
        RootAmong(t);
        n := ClimbRight(State(mem, root), node, ctx);
      }
    }
  }

  lemma {:induction false} PlugTop(t: Tree)
    ensures Plug(Top, t) == t
  {
  }

  lemma {:induction false} RightEmpty(t: Tree)
    requires Distinct(t) && t.Node? && Root(t.right) == NULL
    ensures t.right.Leaf? && InOrder(t.right) == []
  {
  }
}
