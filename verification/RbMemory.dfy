/** C memory as the tree code sees it: a map from the addresses of live
    `struct rbnode`s to their contents. Reading or writing an address outside
    the map is not expressible, so every dereference carries a proof that it is
    of a live node. */
module RbMemory {
  import opened Basics
  import opened RbShape

  datatype RbNode = RbNode(left: Addr, right: Addr, parent: Addr, key: Int64, data: Addr, color: Color) {
    function Child(d: Dir): Addr {
      if d.Left? then left else right
    }

    function WithChild(d: Dir, a: Addr): RbNode {
      if d.Left? then this.(left := a) else this.(right := a)
    }
  }

  type Memory = map<Addr, RbNode>

  /** The pointer that stands for a subtree: its root, or the sentinel. */
  function Ptr(t: Tree<Addr>, s: Addr): Addr {
    if t.Branch? then t.node else s
  }

  /** The parent link of the root of `t`, if it has a root. */
  predicate ParentIs(m: Memory, t: Tree<Addr>, a: Addr) {
    t.Branch? ==> t.node in m && m[t.node].parent == a
  }

  /** Memory holds the links and colours of `t`. The parent link of the root of
      `t` is left open. */
  predicate Holds(m: Memory, s: Addr, t: Tree<Addr>) {
    match t
    case Leaf => true
    case Branch(l, n, c, r) =>
      && n in m && n != s
      && m[n].left == Ptr(l, s) && m[n].right == Ptr(r, s) && m[n].color == c
      && ParentIs(m, l, n) && ParentIs(m, r, n)
      && Holds(m, s, l) && Holds(m, s, r)
  }

  /** Memory holds the surroundings of a position whose pointer is `f`. */
  predicate HoldsPath(m: Memory, s: Addr, p: Path<Addr>, f: Addr) {
    match p
    case Top => true
    case Down(d, n, c, sib, up) =>
      && n in m && n != s
      && m[n].Child(d) == f && m[n].Child(d.Other()) == Ptr(sib, s) && m[n].color == c
      && ParentIs(m, sib, n) && Holds(m, s, sib)
      && (up.Down? ==> m[n].parent == up.node)
      && HoldsPath(m, s, up, n)
  }

  /** The sentinel is black, has no children, key 0 and no data. Its parent link
      is scratch space. */
  predicate SentinelOk(m: Memory, s: Addr) {
    && s in m && s != NULL
    && m[s].left == NULL && m[s].right == NULL && m[s].color == Black
    && m[s].key == 0 && m[s].data == NULL
  }

  /** The memory behind root pointer `root` is the tree `t`. */
  predicate Linked(m: Memory, s: Addr, root: Addr, t: Tree<Addr>) {
    && NULL !in m
    && SentinelOk(m, s)
    && root == Ptr(t, s)
    && Separate(t)
    && Holds(m, s, t)
  }

  /** Only links and colours of nodes in `changed` differ. */
  predicate Relinks(m: Memory, m': Memory, changed: set<Addr>) {
    && m'.Keys == m.Keys
    && forall a :: a in m ==>
         && m'[a].key == m[a].key && m'[a].data == m[a].data
         && (a !in changed ==> m'[a] == m[a])
  }

  /** From `t` in `m` to `t'` in `m'`: the same nodes in the same order, with
      only their links and colours rewritten. */
  predicate Reshapes(m: Memory, t: Tree<Addr>, m': Memory, t': Tree<Addr>) {
    SameOrder(t, t') && Relinks(m, m', Nodes(t))
  }

  lemma ReshapesRefl(m: Memory, t: Tree<Addr>)
    ensures Reshapes(m, t, m, t)
  {
  }

  lemma ReshapesTrans(m: Memory, t: Tree<Addr>, m1: Memory, t1: Tree<Addr>, m2: Memory, t2: Tree<Addr>)
    requires Reshapes(m, t, m1, t1) && Reshapes(m1, t1, m2, t2)
    ensures Reshapes(m, t, m2, t2)
  {
  }

  lemma {:induction false} HoldsNodes(m: Memory, s: Addr, t: Tree<Addr>)
    requires Holds(m, s, t)
    ensures Nodes(t) <= m.Keys && s !in Nodes(t)
  {
    if t.Branch? {
      HoldsNodes(m, s, t.left);
      HoldsNodes(m, s, t.right);
    }
  }

  lemma {:induction false} HoldsPathNodes(m: Memory, s: Addr, p: Path<Addr>, f: Addr)
    requires HoldsPath(m, s, p, f)
    ensures PathNodes(p) <= m.Keys && s !in PathNodes(p)
  {
    if p.Down? {
      HoldsNodes(m, s, p.sibling);
      HoldsPathNodes(m, s, p.up, p.node);
    }
  }

  /** Holding a plugged tree is holding the subtree, its surroundings and the
      parent link between them. */
  lemma {:induction false} HoldsPlug(m: Memory, s: Addr, p: Path<Addr>, t: Tree<Addr>)
    ensures Holds(m, s, Plug(p, t)) <==>
            && Holds(m, s, t) && HoldsPath(m, s, p, Ptr(t, s))
            && (p.Down? ==> ParentIs(m, t, p.node))
    decreases p
  {
    match p
    case Top =>
    case Down(d, n, c, sib, up) => HoldsPlug(m, s, up, Join(d, t, n, c, sib));
  }

  /** The memories agree on `ns`, but for the parent link of `except`. */
  predicate Agree(m: Memory, m': Memory, ns: set<Addr>, except: Addr) {
    forall n :: n in ns && n in m ==>
      n in m' && m'[n] == if n == except then m[n].(parent := m'[n].parent) else m[n]
  }

  /** A subtree is held in any memory that agrees on its nodes, but for the
      parent link of its root. */
  lemma {:induction false} HoldsFrame(m: Memory, m': Memory, s: Addr, t: Tree<Addr>)
    requires Holds(m, s, t) && Separate(t)
    requires Agree(m, m', Nodes(t), Ptr(t, s))
    ensures Holds(m', s, t)
  {
    if t.Branch? {
      HoldsNodes(m, s, t);
      assert Agree(m, m', Nodes(t.left), Ptr(t.left, s));
      assert Agree(m, m', Nodes(t.right), Ptr(t.right, s));
      HoldsFrame(m, m', s, t.left);
      HoldsFrame(m, m', s, t.right);
    }
  }

  /** Surroundings are held in any memory that agrees on their nodes, but for
      the child link to the position and the parent link of the outermost node. */
  lemma {:induction false} HoldsPathFrame(m: Memory, m': Memory, s: Addr, p: Path<Addr>, f: Addr, f': Addr, outer: Addr)
    requires HoldsPath(m, s, p, f) && SeparatePath(p)
    requires p.Down? ==> p.node in m' && m'[p.node].Child(p.dir) == f'
    requires forall n :: n in PathNodes(p) && n in m ==>
               && n in m'
               && (var x := if p.Down? && n == p.node then m[n].WithChild(p.dir, f') else m[n];
                   m'[n] == (if n == outer then x.(parent := m'[n].parent) else x))
    requires outer in PathNodes(p) ==> outer == Outermost(p)
    ensures HoldsPath(m', s, p, f')
    decreases p
  {
    if p.Down? {
      OutermostOnPath(p.up);
      HoldsNodes(m, s, p.sibling);
      assert Agree(m, m', Nodes(p.sibling), Ptr(p.sibling, s));
      HoldsFrame(m, m', s, p.sibling);
      HoldsPathFrame(m, m', s, p.up, p.node, p.node, outer);
    }
  }

  function Outermost(p: Path<Addr>): Addr {
    match p
    case Top => NULL
    case Down(_, n, _, _, up) => if up.Top? then n else Outermost(up)
  }

  lemma {:induction false} OutermostOnPath(p: Path<Addr>)
    ensures p.Down? ==> Outermost(p) in PathNodes(p)
  {
    if p.Down? {
      OutermostOnPath(p.up);
    }
  }

  // ------------------------------------------------------------- replacement

  /** Below a non-empty path, replacing the subtree keeps the root. */
  lemma {:induction false} PlugRootSame(q: Path<Addr>, t: Tree<Addr>, t': Tree<Addr>, s: Addr)
    ensures q.Down? ==> Ptr(Plug(q, t), s) == Ptr(Plug(q, t'), s)
    decreases q
  {
    if q.Down? {
      PlugRootSame(q.up, Join(q.dir, t, q.node, q.color, q.sibling), Join(q.dir, t', q.node, q.color, q.sibling), s);
    }
  }

  /** Putting another subtree at a position: what has to be written is the
      subtree itself, the child link to it and its parent link. */
  lemma ReplaceLinked(m: Memory, m': Memory, s: Addr, root: Addr, q: Path<Addr>, t: Tree<Addr>, t': Tree<Addr>)
    requires Linked(m, s, root, Plug(q, t))
    requires NULL !in m' && SentinelOk(m', s)
    requires Holds(m', s, t') && Separate(t') && Nodes(t') !! PathNodes(q)
    requires q.Down? ==> ParentIs(m', t', q.node)
    requires forall n :: n in PathNodes(q) && n in m ==>
               n in m' && m'[n] == if q.Down? && n == q.node then m[n].WithChild(q.dir, Ptr(t', s)) else m[n]
    ensures Linked(m', s, if q.Top? then Ptr(t', s) else root, Plug(q, t'))
  {
    hide Nodes, Separate, Holds, HoldsPath, PathNodes, SeparatePath;
    NodeOf(t, q);
    HoldsPlug(m, s, q, t);
    PlugSeparate(q, t);
    PlugSeparate(q, t');
    HoldsPathNodes(m, s, q, Ptr(t, s));
    assert NULL !in PathNodes(q);
    HoldsPathFrame(m, m', s, q, Ptr(t, s), Ptr(t', s), NULL);
    HoldsPlug(m', s, q, t');
    PlugRootSame(q, t, t', s);
  }

  lemma LinkedSeparate(m: Memory, s: Addr, root: Addr, t: Tree<Addr>)
    requires Linked(m, s, root, t)
    ensures Separate(t) && Nodes(t) <= m.Keys && s !in Nodes(t)
  {
    HoldsNodes(m, s, t);
  }

  /** A linked tree survives any change of memory away from it. */
  lemma LinkedElsewhere(m: Memory, m': Memory, s: Addr, root: Addr, t: Tree<Addr>)
    requires Linked(m, s, root, t) && NULL !in m'
    requires forall a :: a in m && (a in Nodes(t) || a == s) ==> a in m' && m'[a] == m[a]
    ensures Linked(m', s, root, t)
  {
    HoldsFrame(m, m', s, t);
  }

  /** The parent links of the sentinel and of the root may hold anything: the
      one is scratch space, the other is left stale by some deletes. */
  lemma ScratchLinks(m: Memory, s: Addr, root: Addr, t: Tree<Addr>, a: Addr, b: Addr)
    requires Linked(m, s, root, t) && root in m && s in m
    ensures var m1 := m[s := m[s].(parent := a)];
            Linked(m1[root := m1[root].(parent := b)], s, root, t)
  {
    var m1 := m[s := m[s].(parent := a)];
    HoldsNodes(m, s, t);
    HoldsFrame(m, m1[root := m1[root].(parent := b)], s, t);
  }

  /** What memory says at a position: the links between the subtree, its
      parent and its sibling, and that only the empty path is at the root. */
  lemma LinksAt(m: Memory, s: Addr, root: Addr, p: Path<Addr>, t: Tree<Addr>)
    requires Linked(m, s, root, Plug(p, t))
    ensures NULL !in m && SentinelOk(m, s)
    ensures t.Branch? ==>
              && t.node in m && t.node != s && m[t.node].color == t.color
              && m[t.node].left == Ptr(t.left, s) && m[t.node].right == Ptr(t.right, s)
              && (p.Down? ==> m[t.node].parent == p.node)
    ensures p.Top? <==> root == Ptr(t, s)
    ensures p.Down? ==>
              && p.node in m && p.node != s && m[p.node].color == p.color
              && m[p.node].Child(p.dir) == Ptr(t, s) && m[p.node].Child(p.dir.Other()) == Ptr(p.sibling, s)
              && (t.Branch? ==> t.node != p.node && t.node != Ptr(p.sibling, s))
              && (p.sibling.Branch? ==>
                    && p.sibling.node in m && p.sibling.node != s && p.sibling.node != Ptr(t, s)
                    && m[p.sibling.node].color == p.sibling.color && m[p.sibling.node].parent == p.node)
              && (p.up.Down? ==> m[p.node].parent == p.up.node)
  {
    HoldsPlug(m, s, p, t);
    PlugSeparate(p, t);
    if p.Down? {
      HoldsPathNodes(m, s, p, Ptr(t, s));
      PlugRoot(p, t);
      NodeOf(p.sibling, p);
    }
    NodeOf(t, p);
  }

  /** Reshaping leaves the sentinel alone, its parent link included. */
  lemma SentinelKept(m: Memory, s: Addr, root: Addr, t: Tree<Addr>, m': Memory, t': Tree<Addr>)
    requires Linked(m, s, root, t) && Reshapes(m, t, m', t')
    ensures s in m && s in m' && m'[s] == m[s]
  {
    HoldsNodes(m, s, t);
  }

  // ---------------------------------------------------------------- rotation

  function Unrotated(d: Dir, a: Tree<Addr>, x: Addr, cx: Color, b: Tree<Addr>, y: Addr, cy: Color,
                     c: Tree<Addr>): Tree<Addr> {
    Join(d, a, x, cx, Join(d, b, y, cy, c))
  }

  function Rotated(d: Dir, a: Tree<Addr>, x: Addr, cx: Color, b: Tree<Addr>, y: Addr, cy: Color,
                   c: Tree<Addr>): Tree<Addr> {
    Join(d, Join(d, a, x, cx, b), y, cy, c)
  }

  /** The whole effect of a rotation on memory: `x` sinks to side `d` of `y`. */
  predicate RotatesMemory(d: Dir, m: Memory, m': Memory, s: Addr, q: Path<Addr>, x: Addr, b: Tree<Addr>, y: Addr)
    requires x in m && y in m && (b.Branch? ==> b.node in m) && (q.Down? ==> q.node in m)
  {
    && m'.Keys == m.Keys
    && m'[x] == m[x].WithChild(d.Other(), Ptr(b, s)).(parent := y)
    && m'[y] == m[y].WithChild(d, x).(parent := m[x].parent)
    && (b.Branch? ==> m'[b.node] == m[b.node].(parent := x))
    && (q.Down? ==> m'[q.node] == m[q.node].WithChild(q.dir, y))
    && forall n :: n in m && n != x && n != y && (b.Branch? ==> n != b.node) && (q.Down? ==> n != q.node)
         ==> m'[n] == m[n]
  }

  /** Memory after the writes of a rotation, in the order they are made. */
  function RotatedMemory(d: Dir, m: Memory, s: Addr, q: Path<Addr>, x: Addr, b: Tree<Addr>, y: Addr): Memory
    requires x in m && y in m && (b.Branch? ==> b.node in m) && (q.Down? ==> q.node in m)
  {
    var m1 := m[x := m[x].WithChild(d.Other(), Ptr(b, s))];
    var m2 := if b.Branch? then m1[b.node := m1[b.node].(parent := x)] else m1;
    var m3 := m2[y := m2[y].(parent := m2[x].parent)];
    var m4 := if q.Down? then m3[q.node := m3[q.node].WithChild(q.dir, y)] else m3;
    var m5 := m4[y := m4[y].WithChild(d, x)];
    m5[x := m5[x].(parent := y)]
  }

  lemma RotatedMemoryCells(d: Dir, m: Memory, s: Addr, q: Path<Addr>, x: Addr, b: Tree<Addr>, y: Addr)
    requires x in m && y in m && (b.Branch? ==> b.node in m) && (q.Down? ==> q.node in m)
    requires x != y && (b.Branch? ==> b.node != x && b.node != y)
    requires q.Down? ==> q.node != x && q.node != y && (b.Branch? ==> q.node != b.node)
    ensures RotatesMemory(d, m, RotatedMemory(d, m, s, q, x, b, y), s, q, x, b, y)
  {
  }

  lemma RotateParts(d: Dir, m: Memory, s: Addr, root: Addr, q: Path<Addr>,
                    a: Tree<Addr>, x: Addr, cx: Color, b: Tree<Addr>, y: Addr, cy: Color, c: Tree<Addr>)
    requires Linked(m, s, root, Plug(q, Unrotated(d, a, x, cx, b, y, cy, c)))
    ensures x in m && y in m && x != y && x != s && y != s
    ensures b.Branch? ==> b.node in m && b.node != s && b.node != x && b.node != y && m[b.node].parent == y
    ensures q.Down? ==> q.node in m && q.node != s && q.node != x && q.node != y && m[x].parent == q.node
    ensures q.Down? ==> m[q.node].Child(q.dir) == x && m[q.node].Child(q.dir.Other()) != x && root != x
    ensures q.Down? && b.Branch? ==> q.node != b.node
    ensures q.Top? ==> root == x
    ensures m[x].Child(d.Other()) == y && m[y].Child(d) == Ptr(b, s)
  {
    var t := Unrotated(d, a, x, cx, b, y, cy, c);
    HoldsPlug(m, s, q, t);
    PlugSeparate(q, t);
    assert Holds(m, s, Join(d, b, y, cy, c));
    assert b.Branch? ==> b.node in Nodes(b);
    HoldsNodes(m, s, t);
    if q.Down? {
      PlugRoot(q, t);
    }
  }

  lemma RotateAway(d: Dir, m: Memory, m': Memory, s: Addr, q: Path<Addr>, x: Addr, b: Tree<Addr>, y: Addr,
                   ns: set<Addr>, r: Addr)
    requires x in m && y in m && (b.Branch? ==> b.node in m) && (q.Down? ==> q.node in m)
    requires RotatesMemory(d, m, m', s, q, x, b, y)
    requires x !in ns && y !in ns && (q.Down? ==> q.node !in ns)
    requires b.Branch? && b.node in ns ==> r == b.node
    ensures Agree(m, m', ns, r)
  {
  }

  /** The pieces of a rotation do not overlap. */
  lemma RotateSeparate(d: Dir, a: Tree<Addr>, x: Addr, cx: Color, b: Tree<Addr>, y: Addr, cy: Color, c: Tree<Addr>)
    requires Separate(Unrotated(d, a, x, cx, b, y, cy, c))
    ensures Separate(a) && Separate(b) && Separate(c)
    ensures x != y && x !in Nodes(a) + Nodes(b) + Nodes(c) && y !in Nodes(a) + Nodes(b) + Nodes(c)
    ensures Nodes(a) !! Nodes(b) && Nodes(a) !! Nodes(c) && Nodes(b) !! Nodes(c)
    ensures Nodes(Unrotated(d, a, x, cx, b, y, cy, c)) == Nodes(a) + Nodes(b) + Nodes(c) + {x, y}
  {
    SeparateJoin(d, a, x, cx, Join(d, b, y, cy, c));
    SeparateJoin(d, b, y, cy, c);
  }

  lemma RotatedSeparate(d: Dir, a: Tree<Addr>, x: Addr, cx: Color, b: Tree<Addr>, y: Addr, cy: Color, c: Tree<Addr>)
    requires Separate(Unrotated(d, a, x, cx, b, y, cy, c))
    ensures Nodes(Rotated(d, a, x, cx, b, y, cy, c)) == Nodes(Unrotated(d, a, x, cx, b, y, cy, c))
    ensures Separate(Rotated(d, a, x, cx, b, y, cy, c))
  {
    hide Nodes, Separate;
    RotateSeparate(d, a, x, cx, b, y, cy, c);
    SeparateJoin(d, a, x, cx, b);
    SeparateJoin(d, Join(d, a, x, cx, b), y, cy, c);
  }

  /** One branch is held when its own cell and its two subtrees are. */
  lemma HoldsJoin(m: Memory, s: Addr, d: Dir, a: Tree<Addr>, n: Addr, c: Color, b: Tree<Addr>)
    ensures Holds(m, s, Join(d, a, n, c, b)) <==>
            && n in m && n != s
            && m[n].Child(d) == Ptr(a, s) && m[n].Child(d.Other()) == Ptr(b, s) && m[n].color == c
            && ParentIs(m, a, n) && ParentIs(m, b, n)
            && Holds(m, s, a) && Holds(m, s, b)
  {
  }

  lemma RotateSubtree(d: Dir, m: Memory, m': Memory, s: Addr, q: Path<Addr>,
                      a: Tree<Addr>, x: Addr, cx: Color, b: Tree<Addr>, y: Addr, cy: Color, c: Tree<Addr>)
    requires Holds(m, s, Unrotated(d, a, x, cx, b, y, cy, c))
    requires Separate(Unrotated(d, a, x, cx, b, y, cy, c))
    requires q.Down? ==> q.node !in Nodes(Unrotated(d, a, x, cx, b, y, cy, c))
    requires x in m && y in m && (b.Branch? ==> b.node in m) && (q.Down? ==> q.node in m)
    requires RotatesMemory(d, m, m', s, q, x, b, y)
    ensures Holds(m', s, Rotated(d, a, x, cx, b, y, cy, c))
  {
    hide Nodes, Separate, Holds;
    RotateSeparate(d, a, x, cx, b, y, cy, c);
    HoldsJoin(m, s, d, a, x, cx, Join(d, b, y, cy, c));
    HoldsJoin(m, s, d, b, y, cy, c);
    NodeOf(a, q);
    NodeOf(b, q);
    NodeOf(c, q);
    RotateAway(d, m, m', s, q, x, b, y, Nodes(a), Ptr(a, s));
    RotateAway(d, m, m', s, q, x, b, y, Nodes(b), Ptr(b, s));
    RotateAway(d, m, m', s, q, x, b, y, Nodes(c), Ptr(c, s));
    HoldsFrame(m, m', s, a);
    HoldsFrame(m, m', s, b);
    HoldsFrame(m, m', s, c);
    HoldsJoin(m', s, d, a, x, cx, b);
    HoldsJoin(m', s, d, Join(d, a, x, cx, b), y, cy, c);
  }

  lemma RotateLinked(d: Dir, m: Memory, m': Memory, s: Addr, root: Addr, q: Path<Addr>,
                     a: Tree<Addr>, x: Addr, cx: Color, b: Tree<Addr>, y: Addr, cy: Color, c: Tree<Addr>)
    requires Linked(m, s, root, Plug(q, Unrotated(d, a, x, cx, b, y, cy, c)))
    requires x in m && y in m && (b.Branch? ==> b.node in m) && (q.Down? ==> q.node in m)
    requires RotatesMemory(d, m, m', s, q, x, b, y)
    ensures Linked(m', s, if q.Top? then y else root, Plug(q, Rotated(d, a, x, cx, b, y, cy, c)))
  {
    hide Nodes, Separate, Holds, HoldsPath, Plug, PathNodes, SeparatePath;
    var t, t' := Unrotated(d, a, x, cx, b, y, cy, c), Rotated(d, a, x, cx, b, y, cy, c);
    RotateParts(d, m, s, root, q, a, x, cx, b, y, cy, c);
    HoldsPlug(m, s, q, t);
    PlugSeparate(q, t);
    NodeOf(b, q);
    RotateSeparate(d, a, x, cx, b, y, cy, c);
    RotateSubtree(d, m, m', s, q, a, x, cx, b, y, cy, c);
    RotatedSeparate(d, a, x, cx, b, y, cy, c);
    HoldsPathNodes(m, s, q, x);
    assert b.Branch? ==> b.node in Nodes(t);
    ReplaceLinked(m, m', s, root, q, t, t');
  }

  // ---------------------------------------------------------------- recolour

  lemma RecolourLinked(m: Memory, s: Addr, root: Addr, q: Path<Addr>, t: Tree<Addr>, c: Color)
    requires t.Branch?
    requires Linked(m, s, root, Plug(q, t))
    ensures t.node in m && t.node != s && m[t.node].color == t.color
    ensures Linked(m[t.node := m[t.node].(color := c)], s, root, Plug(q, t.(color := c)))
  {
    HoldsPlug(m, s, q, t);
    PlugSeparate(q, t);
    HoldsNodes(m, s, t);
    HoldsPathNodes(m, s, q, t.node);
    RecolourSubtree(m, s, t, c);
    assert t.node !in PathNodes(q);
    hide Holds, HoldsPath, PathNodes, SeparatePath;
    ReplaceLinked(m, m[t.node := m[t.node].(color := c)], s, root, q, t, t.(color := c));
  }

  lemma RecolourSubtree(m: Memory, s: Addr, t: Tree<Addr>, c: Color)
    requires t.Branch? && Holds(m, s, t) && Separate(t)
    ensures Holds(m[t.node := m[t.node].(color := c)], s, t.(color := c))
  {
    var m' := m[t.node := m[t.node].(color := c)];
    HoldsFrame(m, m', s, t.left);
    HoldsFrame(m, m', s, t.right);
  }

  // ----------------------------------------------------------------- removal

  /** A node cleared by `rbtree_node_init`; its colour is left as it was. */
  function Cleared(n: RbNode): RbNode {
    RbNode(NULL, NULL, NULL, 0, NULL, n.color)
  }

  /** Memory after a node with at most one child `ch` is taken out at `q`. */
  function BypassedMemory(m: Memory, s: Addr, q: Path<Addr>, node: Addr, ch: Tree<Addr>): Memory
    requires node in m && s in m && Ptr(ch, s) in m && q.Down? && q.node in m
  {
    var m1 := m[q.node := m[q.node].WithChild(q.dir, Ptr(ch, s))];
    var m2 := m1[Ptr(ch, s) := m1[Ptr(ch, s)].(parent := q.node)];
    m2[node := Cleared(m2[node])]
  }

  lemma BypassLinked(m: Memory, s: Addr, root: Addr, q: Path<Addr>, u: Tree<Addr>, ch: Tree<Addr>)
    requires Linked(m, s, root, Plug(q, u)) && OnlyChild(u, ch) && q.Down?
    ensures u.node in m && s in m && Ptr(ch, s) in m && q.node in m
    ensures var m' := BypassedMemory(m, s, q, u.node, ch);
            Linked(m', s, root, Plug(q, ch)) && m'[Ptr(ch, s)].parent == q.node
  {
    hide Nodes, PathNodes, Holds, HoldsPath, Plug, Separate, SeparatePath;
    LinksAt(m, s, root, q, u);
    HoldsPlug(m, s, q, u);
    PlugSeparate(q, u);
    HoldsNodes(m, s, u);
    HoldsPathNodes(m, s, q, u.node);
    OnlyChildParts(m, s, u, ch);
    NodeOf(ch, q);
    NodeOf(u, q);
    var m' := BypassedMemory(m, s, q, u.node, ch);
    assert Agree(m, m', Nodes(ch), Ptr(ch, s));
    HoldsFrame(m, m', s, ch);
    ReplaceLinked(m, m', s, root, q, u, ch);
  }

  lemma OnlyChildParts(m: Memory, s: Addr, u: Tree<Addr>, ch: Tree<Addr>)
    requires OnlyChild(u, ch) && Holds(m, s, u) && Separate(u)
    ensures Holds(m, s, ch) && Separate(ch)
    ensures Nodes(u) == Nodes(ch) + {u.node} && u.node !in Nodes(ch)
  {
  }

  lemma {:induction false} PlugOutermost(p: Path<Addr>, t: Tree<Addr>)
    requires p.Down?
    ensures Plug(p, t).Branch? && Plug(p, t).node == Outermost(p)
    decreases p
  {
    if p.up.Down? {
      PlugOutermost(p.up, Join(p.dir, t, p.node, p.color, p.sibling));
    }
  }

  /** The five addresses a splice writes to, beside the parent at `q`, the
      node itself and its successor `sub`, are those of live nodes and differ.
      `f` stands for the successor's child and `top` for the root of what is
      left of the right subtree. */
  predicate SpliceApart(m: Memory, q: Path<Addr>, ln: Addr, node: Addr, p: Path<Addr>, sub: Addr, f: Addr, top: Addr) {
    && node in m && sub in m && ln in m && f in m && top in m && (q.Down? ==> q.node in m) && (p.Down? ==> p.node in m)
    && node != sub && ln != node && ln != sub
    && f != node && f != sub && f != ln
    && top != node && top != sub && top != ln && (p.Down? <==> top != f)
    && (p.Down? ==> p.node != node && p.node != sub && p.node != ln && p.node != f)
    && (q.Down? ==> q.node != node && q.node != sub && q.node != ln && q.node != f && q.node != top)
    && (q.Down? && p.Down? ==> q.node != p.node)
  }

  /** Memory after `sub`, the leftmost node at `p` in the right subtree of
      `node`, has taken the place of `node` at `q`. */
  function SplicedMemory(m: Memory, s: Addr, q: Path<Addr>, node: Addr, p: Path<Addr>, sub: Addr, f: Addr,
                         top: Addr): Memory
    requires node in m
    requires SpliceApart(m, q, m[node].left, node, p, sub, f, top)
  {
    var m1 := if p.Down? then m[p.node := m[p.node].(left := f)] else m[node := m[node].(right := f)];
    var m2 := m1[f := m1[f].(parent := if p.Down? then p.node else sub)];
    var n := m2[node];
    var m3 := m2[sub := m2[sub].(left := n.left, right := n.right, parent := n.parent, color := n.color)];
    var m4 := if q.Down? then m3[q.node := m3[q.node].WithChild(q.dir, sub)] else m3;
    var m5 := m4[n.left := m4[n.left].(parent := sub)];
    var m6 := if top != s then m5[top := m5[top].(parent := sub)] else m5;
    m6[node := Cleared(m6[node])]
  }

  function SpliceWrites(q: Path<Addr>, ln: Addr, node: Addr, p: Path<Addr>, sub: Addr, f: Addr, top: Addr): set<Addr> {
    {node, sub, ln, f, top} + (if q.Down? then {q.node} else {}) + (if p.Down? then {p.node} else {})
  }

  predicate SplicesMemory(m: Memory, m': Memory, q: Path<Addr>, ln: Addr, node: Addr, p: Path<Addr>, sub: Addr,
                          f: Addr, top: Addr)
    requires SpliceApart(m, q, ln, node, p, sub, f, top)
  {
    && m'.Keys == m.Keys
    && m'[node] == Cleared(m[node])
    && m'[sub] == m[sub].(left := ln, right := top, parent := m[node].parent, color := m[node].color)
    && m'[ln] == m[ln].(parent := sub)
    && (q.Down? ==> m'[q.node] == m[q.node].WithChild(q.dir, sub))
    && m'[f] == m[f].(parent := if p.Down? then p.node else sub)
    && (p.Down? ==> m'[p.node] == m[p.node].(left := f, parent := if p.node == top then sub else m[p.node].parent))
    && (p.Down? && p.node != top ==> m'[top] == m[top].(parent := sub))
    && forall a :: a in m && a !in SpliceWrites(q, ln, node, p, sub, f, top) ==> m'[a] == m[a]
  }

  lemma SplicedMemoryCells(m: Memory, s: Addr, q: Path<Addr>, node: Addr, p: Path<Addr>, sub: Addr, f: Addr, top: Addr)
    requires node in m && SpliceApart(m, q, m[node].left, node, p, sub, f, top)
    requires p.Down? ==> top != s && m[node].right == top
    ensures SplicesMemory(m, SplicedMemory(m, s, q, node, p, sub, f, top), q, m[node].left, node, p, sub, f, top)
  {
  }

  /** A node with two children whose right subtree has leftmost node `sub`. */
  function WithSuccessor(l: Tree<Addr>, node: Addr, c: Color, p: Path<Addr>, sub: Addr, cs: Color,
                         sr: Tree<Addr>): Tree<Addr> {
    Branch(l, node, c, Plug(p, Branch(Leaf, sub, cs, sr)))
  }

  /** The pieces of such a tree do not overlap. */
  lemma SuccessorSeparate(l: Tree<Addr>, node: Addr, c: Color, p: Path<Addr>, sub: Addr, cs: Color, sr: Tree<Addr>)
    requires Separate(WithSuccessor(l, node, c, p, sub, cs, sr))
    ensures Separate(l) && Separate(sr) && SeparatePath(p) && Separate(Plug(p, sr))
    ensures Nodes(l) !! Nodes(sr) && Nodes(l) !! PathNodes(p) && Nodes(sr) !! PathNodes(p)
    ensures node != sub && {node, sub} !! Nodes(l) + Nodes(sr) + PathNodes(p)
    ensures Nodes(Plug(p, sr)) == Nodes(sr) + PathNodes(p)
    ensures Nodes(WithSuccessor(l, node, c, p, sub, cs, sr)) == Nodes(l) + Nodes(sr) + PathNodes(p) + {node, sub}
    ensures Separate(Branch(l, sub, c, Plug(p, sr)))
  {
    var v := Branch(Leaf, sub, cs, sr);
    PlugNodes(p, v);
    PlugNodes(p, sr);
    PlugSeparate(p, v);
    PlugSeparate(p, sr);
    SeparateJoin(Left, l, node, c, Plug(p, v));
    SeparateJoin(Left, Leaf, sub, cs, sr);
    SeparateJoin(Left, l, sub, c, Plug(p, sr));
  }

  lemma SpliceParts(m: Memory, s: Addr, root: Addr, q: Path<Addr>,
                    l: Tree<Addr>, node: Addr, c: Color, p: Path<Addr>, sub: Addr, cs: Color, sr: Tree<Addr>)
    requires Linked(m, s, root, Plug(q, WithSuccessor(l, node, c, p, sub, cs, sr)))
    requires l.Branch? && Leftmost(p)
    ensures var f, top := Ptr(sr, s), Ptr(Plug(p, sr), s);
            && SpliceApart(m, q, l.node, node, p, sub, f, top)
            && m[node].left == l.node && m[sub].right == f && node != s && sub != s && l.node != s
            && (p.Down? ==>
                  && top != s && m[node].right == top
                  && m[sub].parent == p.node && m[p.node].left == sub && m[p.node].right != sub)
            && (p.Top? ==> m[node].right == sub && m[sub].parent == node)
  {
    hide Nodes, PathNodes, Holds, HoldsPath, Separate, SeparatePath;
    var v := Branch(Leaf, sub, cs, sr);
    var t := WithSuccessor(l, node, c, p, sub, cs, sr);
    HoldsPlug(m, s, q, t);
    PlugSeparate(q, t);
    HoldsPathNodes(m, s, q, node);
    HoldsNodes(m, s, t);
    SuccessorSeparate(l, node, c, p, sub, cs, sr);
    HoldsJoin(m, s, Left, l, node, c, Plug(p, v));
    HoldsPlug(m, s, p, v);
    HoldsJoin(m, s, Left, Leaf, sub, cs, sr);
    NodeOf(l, q);
    NodeOf(sr, p);
    if p.Down? {
      PlugOutermost(p, v);
      PlugOutermost(p, sr);
      OutermostOnPath(p);
      PathCell(m, s, p, sub);
    }
  }

  lemma PathCell(m: Memory, s: Addr, p: Path<Addr>, f: Addr)
    requires HoldsPath(m, s, p, f) && p.Down?
    ensures p.node in m && m[p.node].Child(p.dir) == f && m[p.node].Child(p.dir.Other()) == Ptr(p.sibling, s)
    ensures p.sibling.Branch? ==> p.sibling.node in PathNodes(p)
  {
    NodeOf(p.sibling, p);
  }

  lemma SpliceSubtree(m: Memory, m': Memory, s: Addr, q: Path<Addr>,
                      l: Tree<Addr>, node: Addr, c: Color, p: Path<Addr>, sub: Addr, cs: Color, sr: Tree<Addr>)
    requires var t := WithSuccessor(l, node, c, p, sub, cs, sr);
             Holds(m, s, t) && Separate(t) && (q.Down? ==> q.node !in Nodes(t))
    requires l.Branch? && Leftmost(p)
    requires var f, top := Ptr(sr, s), Ptr(Plug(p, sr), s);
             SpliceApart(m, q, l.node, node, p, sub, f, top) && SplicesMemory(m, m', q, l.node, node, p, sub, f, top)
    ensures Holds(m', s, Branch(l, sub, c, Plug(p, sr)))
  {
    hide Nodes, PathNodes, Holds, HoldsPath, Separate, SeparatePath, Plug;
    var v := Branch(Leaf, sub, cs, sr);
    var f, top := Ptr(sr, s), Ptr(Plug(p, sr), s);
    SuccessorSeparate(l, node, c, p, sub, cs, sr);
    HoldsNodes(m, s, WithSuccessor(l, node, c, p, sub, cs, sr));
    HoldsJoin(m, s, Left, l, node, c, Plug(p, v));
    HoldsPlug(m, s, p, v);
    HoldsJoin(m, s, Left, Leaf, sub, cs, sr);
    NodeOf(l, p);
    NodeOf(sr, p);
    OutermostOnPath(p);
    if p.Down? {
      PlugOutermost(p, sr);
      PathCell(m, s, p, sub);
    }
    assert Agree(m, m', Nodes(l), Ptr(l, s));
    HoldsFrame(m, m', s, l);
    assert Agree(m, m', Nodes(sr), Ptr(sr, s));
    HoldsFrame(m, m', s, sr);
    HoldsPathFrame(m, m', s, p, sub, f, top);
    HoldsPlug(m', s, p, sr);
    HoldsJoin(m', s, Left, l, sub, c, Plug(p, sr));
  }

  lemma SpliceLinked(m: Memory, s: Addr, root: Addr, q: Path<Addr>,
                     l: Tree<Addr>, node: Addr, c: Color, p: Path<Addr>, sub: Addr, cs: Color, sr: Tree<Addr>)
    requires Linked(m, s, root, Plug(q, WithSuccessor(l, node, c, p, sub, cs, sr)))
    requires l.Branch? && Leftmost(p)
    requires node in m && SpliceApart(m, q, m[node].left, node, p, sub, Ptr(sr, s), Ptr(Plug(p, sr), s))
    ensures var m' := SplicedMemory(m, s, q, node, p, sub, Ptr(sr, s), Ptr(Plug(p, sr), s));
            && Linked(m', s, if q.Top? then sub else root, Plug(q, Branch(l, sub, c, Plug(p, sr))))
            && m'[Ptr(sr, s)].parent == if p.Down? then p.node else sub
  {
    hide Nodes, PathNodes, Holds, HoldsPath, Separate, SeparatePath, Plug, SplicedMemory;
    var f, top := Ptr(sr, s), Ptr(Plug(p, sr), s);
    var t, t' := WithSuccessor(l, node, c, p, sub, cs, sr), Branch(l, sub, c, Plug(p, sr));
    var m' := SplicedMemory(m, s, q, node, p, sub, f, top);
    SpliceParts(m, s, root, q, l, node, c, p, sub, cs, sr);
    SplicedMemoryCells(m, s, q, node, p, sub, f, top);
    LinksAt(m, s, root, q, t);
    HoldsPlug(m, s, q, t);
    PlugSeparate(q, t);
    HoldsNodes(m, s, t);
    HoldsPathNodes(m, s, q, node);
    SuccessorSeparate(l, node, c, p, sub, cs, sr);
    NodeOf(t, q);
    SpliceSubtree(m, m', s, q, l, node, c, p, sub, cs, sr);
    SeparateJoin(Left, l, sub, c, Plug(p, sr));
    SpliceWritesWithin(q, l, node, p, sub, cs, c, sr, s);
    ReplaceLinked(m, m', s, root, q, t, t');
  }

  /** A splice writes to nodes of the subtree, the sentinel and the parent. */
  lemma SpliceWritesWithin(q: Path<Addr>, l: Tree<Addr>, node: Addr, p: Path<Addr>, sub: Addr, cs: Color, c: Color,
                           sr: Tree<Addr>, s: Addr)
    requires l.Branch? && Separate(WithSuccessor(l, node, c, p, sub, cs, sr))
    ensures SpliceWrites(q, l.node, node, p, sub, Ptr(sr, s), Ptr(Plug(p, sr), s))
            <= Nodes(WithSuccessor(l, node, c, p, sub, cs, sr)) + {s} + (if q.Down? then {q.node} else {})
  {
    hide Nodes, PathNodes, Separate, SeparatePath, Plug;
    SuccessorSeparate(l, node, c, p, sub, cs, sr);
    NodeOf(l, p);
    NodeOf(sr, p);
    NodeOf(Plug(p, sr), p);
  }

  /** Memory after `rbtree_black` on the pointer of a subtree, sentinel or not. */
  lemma BlackenLinked(m: Memory, s: Addr, root: Addr, p: Path<Addr>, t: Tree<Addr>)
    requires Linked(m, s, root, Plug(p, t))
    ensures Ptr(t, s) in m
    ensures var m' := m[Ptr(t, s) := m[Ptr(t, s)].(color := Black)];
            Linked(m', s, root, Plug(p, Blacken(t))) && Reshapes(m, Plug(p, t), m', Plug(p, Blacken(t)))
  {
    hide Holds, HoldsPath, PathNodes, SeparatePath, Plug, InOrder, Separate;
    LinksAt(m, s, root, p, t);
    if t.Branch? {
      RecolourLinked(m, s, root, p, t, Black);
      RecolourSameOrder(p, t, Black);
      PlugNodes(p, t);
    } else {
      assert m[s := m[s].(color := Black)] == m;
    }
  }

  /** Memory after the root, having at most one child `ch`, is taken out. */
  lemma RootOutLinked(m: Memory, s: Addr, root: Addr, u: Tree<Addr>, ch: Tree<Addr>)
    requires Linked(m, s, root, u) && OnlyChild(u, ch)
    ensures Ptr(ch, s) in m && u.node in m && u.node != Ptr(ch, s)
    ensures var m1 := m[Ptr(ch, s) := m[Ptr(ch, s)].(color := Black)];
            var m' := m1[u.node := Cleared(m1[u.node])];
            Linked(m', s, Ptr(ch, s), Blacken(ch))
  {
    hide Holds, Nodes, Separate;
    OnlyChildParts(m, s, u, ch);
    HoldsNodes(m, s, u);
    NodeOf(ch, Top);
    var m0 := m[u.node := Cleared(m[u.node])];
    HoldsFrame(m, m0, s, ch);
    BlackenLinked(m0, s, Ptr(ch, s), Top, ch);
    var m1 := m[Ptr(ch, s) := m[Ptr(ch, s)].(color := Black)];
    assert m1[u.node := Cleared(m1[u.node])] == m0[Ptr(ch, s) := m0[Ptr(ch, s)].(color := Black)];
  }
}
