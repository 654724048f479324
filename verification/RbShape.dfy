/** The shape of a red-black tree as a value: trees whose elements are node
    addresses, and zipper paths that name a position in a tree. Everything the
    balance argument of src/cs_rbtree.c needs is proved here, without memory. */
module RbShape {

  datatype Color = Red | Black

  datatype Dir = Left | Right {
    function Other(): Dir {
      if Left? then Right else Left
    }
  }

  datatype Tree<N> =
    | Leaf
    | Branch(left: Tree<N>, node: N, color: Color, right: Tree<N>)

  /** A path from a position up to the root. `Down(d, n, c, sib, up)` says that
      the position is the `d` child of `n`, whose other child is `sib`. */
  datatype Path<N> =
    | Top
    | Down(dir: Dir, node: N, color: Color, sibling: Tree<N>, up: Path<N>)

  predicate IsRed<N>(t: Tree<N>) {
    t.Branch? && t.color.Red?
  }

  /** The branch with `near` on side `d` of `n` and `far` on the other side. */
  function Join<N>(d: Dir, near: Tree<N>, n: N, c: Color, far: Tree<N>): Tree<N> {
    if d.Left? then Branch(near, n, c, far) else Branch(far, n, c, near)
  }

  function Side<N>(t: Tree<N>, d: Dir): Tree<N>
    requires t.Branch?
  {
    if d.Left? then t.left else t.right
  }

  /** The rotation of `t` towards side `d`. */
  function Rotate<N>(d: Dir, t: Tree<N>): Tree<N>
    requires t.Branch? && Side(t, d.Other()).Branch?
  {
    var u := Side(t, d.Other());
    Join(d, Join(d, Side(t, d), t.node, t.color, Side(u, d)), u.node, u.color, Side(u, d.Other()))
  }

  function Plug<N>(p: Path<N>, t: Tree<N>): Tree<N>
    decreases p
  {
    match p
    case Top => t
    case Down(d, n, c, sib, up) => Plug(up, Join(d, t, n, c, sib))
  }

  function InOrder<N>(t: Tree<N>): seq<N> {
    match t
    case Leaf => []
    case Branch(l, n, _, r) => InOrder(l) + [n] + InOrder(r)
  }

  function Nodes<N>(t: Tree<N>): set<N> {
    match t
    case Leaf => {}
    case Branch(l, n, _, r) => Nodes(l) + {n} + Nodes(r)
  }

  /** No node occurs twice. */
  predicate Separate<N(==)>(t: Tree<N>) {
    match t
    case Leaf => true
    case Branch(l, n, _, r) =>
      && n !in Nodes(l) && n !in Nodes(r) && Nodes(l) !! Nodes(r)
      && Separate(l) && Separate(r)
  }

  function PathNodes<N>(p: Path<N>): set<N> {
    match p
    case Top => {}
    case Down(_, n, _, sib, up) => {n} + Nodes(sib) + PathNodes(up)
  }

  predicate SeparatePath<N(==)>(p: Path<N>) {
    match p
    case Top => true
    case Down(_, n, _, sib, up) =>
      && n !in Nodes(sib) && n !in PathNodes(up) && Nodes(sib) !! PathNodes(up)
      && Separate(sib) && SeparatePath(up)
  }

  lemma SeparateJoin<N>(d: Dir, a: Tree<N>, n: N, c: Color, b: Tree<N>)
    ensures Nodes(Join(d, a, n, c, b)) == Nodes(a) + {n} + Nodes(b)
    ensures Separate(Join(d, a, n, c, b)) <==>
            && n !in Nodes(a) && n !in Nodes(b) && Nodes(a) !! Nodes(b)
            && Separate(a) && Separate(b)
  {
  }

  /** The nodes that precede and follow the position in order. */
  function Before<N>(p: Path<N>): seq<N> {
    match p
    case Top => []
    case Down(d, n, _, sib, up) =>
      if d.Left? then Before(up) else Before(up) + InOrder(sib) + [n]
  }

  function After<N>(p: Path<N>): seq<N> {
    match p
    case Top => []
    case Down(d, n, _, sib, up) =>
      if d.Left? then [n] + InOrder(sib) + After(up) else After(up)
  }

  function Depth<N>(p: Path<N>): nat {
    match p
    case Top => 0
    case Down(_, _, _, _, up) => 1 + Depth(up)
  }

  /** `p` continued upwards by `base`, where `p` was a path inside a subtree. */
  function Extend<N>(p: Path<N>, base: Path<N>): Path<N> {
    match p
    case Top => base
    case Down(d, n, c, sib, up) => Down(d, n, c, sib, Extend(up, base))
  }

  // ---------------------------------------------------------------- positions

  lemma {:induction false} PlugNodes<N>(p: Path<N>, t: Tree<N>)
    ensures Nodes(Plug(p, t)) == Nodes(t) + PathNodes(p)
    decreases p
  {
    match p
    case Top =>
    case Down(d, n, c, sib, up) => PlugNodes(up, Join(d, t, n, c, sib));
  }

  lemma {:induction false} PlugInOrder<N>(p: Path<N>, t: Tree<N>)
    ensures InOrder(Plug(p, t)) == Before(p) + InOrder(t) + After(p)
    decreases p
  {
    match p
    case Top =>
    case Down(d, n, c, sib, up) => PlugInOrder(up, Join(d, t, n, c, sib));
  }

  lemma {:induction false} PlugSeparate<N>(p: Path<N>, t: Tree<N>)
    ensures Separate(Plug(p, t)) <==>
            Separate(t) && SeparatePath(p) && Nodes(t) !! PathNodes(p)
    decreases p
  {
    match p
    case Top =>
    case Down(d, n, c, sib, up) => PlugSeparate(up, Join(d, t, n, c, sib));
  }

  lemma {:induction false} PlugExtend<N>(p: Path<N>, base: Path<N>, t: Tree<N>)
    ensures Plug(Extend(p, base), t) == Plug(base, Plug(p, t))
    decreases p
  {
    match p
    case Top =>
    case Down(d, n, c, sib, up) => PlugExtend(up, base, Join(d, t, n, c, sib));
  }

  /** The root of a plugged tree lies on the path, unless the path is empty. */
  lemma {:induction false} PlugRoot<N>(p: Path<N>, t: Tree<N>)
    requires p.Down?
    ensures Plug(p, t).Branch? && Plug(p, t).node in PathNodes(p)
    decreases p
  {
    var u := Join(p.dir, t, p.node, p.color, p.sibling);
    if p.up.Down? {
      PlugRoot(p.up, u);
    }
  }

  lemma NodeOf<N>(t: Tree<N>, p: Path<N>)
    ensures t.Branch? ==> t.node in Nodes(t)
    ensures p.Down? ==> p.node in PathNodes(p)
  {
  }

  lemma PlugBranch<N>(p: Path<N>, t: Tree<N>)
    requires t.Branch?
    ensures Plug(p, t).Branch?
  {
    if p.Down? {
      PlugRoot(p, t);
    }
  }

  /** Every node of a tree has a position. */
  ghost function Locate<N>(t: Tree<N>, n: N, up: Path<N>): (r: (Path<N>, Tree<N>))
    requires n in Nodes(t)
    ensures Plug(r.0, r.1) == Plug(up, t)
    ensures r.1.Branch? && r.1.node == n
    decreases t
  {
    if n == t.node then (up, t)
    else if n in Nodes(t.left) then Locate(t.left, n, Down(Left, t.node, t.color, t.right, up))
    else Locate(t.right, n, Down(Right, t.node, t.color, t.left, up))
  }

  lemma {:induction false} InOrderNodes<N>(t: Tree<N>)
    ensures forall n :: n in InOrder(t) <==> n in Nodes(t)
  {
    if t.Branch? {
      InOrderNodes(t.left);
      InOrderNodes(t.right);
    }
  }

  /** The trees have the same nodes in the same order. */
  predicate SameOrder<N(==)>(t: Tree<N>, t': Tree<N>) {
    InOrder(t) == InOrder(t') && Nodes(t) == Nodes(t')
  }

  lemma RotateInOrder<N>(d: Dir, t: Tree<N>)
    requires t.Branch? && Side(t, d.Other()).Branch?
    ensures SameOrder(t, Rotate(d, t))
  {
    if d.Left? {
      var l, u := t.left, t.right;
      var v := Branch(l, t.node, t.color, u.left);
      assert InOrder(v) == InOrder(l) + [t.node] + InOrder(u.left);
    } else {
      var u, r := t.left, t.right;
      var v := Branch(u.right, t.node, t.color, r);
      assert InOrder(v) == InOrder(u.right) + [t.node] + InOrder(r);
    }
  }

  lemma RotateSameOrder<N>(d: Dir, p: Path<N>, t: Tree<N>)
    requires t.Branch? && Side(t, d.Other()).Branch?
    ensures SameOrder(Plug(p, t), Plug(p, Rotate(d, t)))
  {
    hide InOrder, Nodes, Plug, Rotate, Before, After, PathNodes;
    PlugInOrder(p, t);
    PlugInOrder(p, Rotate(d, t));
    PlugNodes(p, t);
    PlugNodes(p, Rotate(d, t));
    RotateInOrder(d, t);
  }

  lemma RecolourSameOrder<N>(p: Path<N>, t: Tree<N>, c: Color)
    requires t.Branch?
    ensures SameOrder(Plug(p, t), Plug(p, t.(color := c)))
  {
    PlugInOrder(p, t);
    PlugInOrder(p, t.(color := c));
    PlugNodes(p, t);
    PlugNodes(p, t.(color := c));
  }

  // ------------------------------------------------------------------ balance

  /** `t` has black height `h` on every path and no red node with a red child. */
  predicate Balanced<N>(t: Tree<N>, h: nat) {
    match t
    case Leaf => h == 0
    case Branch(l, _, Black, r) => h > 0 && Balanced(l, h - 1) && Balanced(r, h - 1)
    case Branch(l, _, Red, r) => !IsRed(l) && !IsRed(r) && Balanced(l, h) && Balanced(r, h)
  }

  /** What balance means one level down, whichever side is which. */
  lemma BalancedJoin<N>(d: Dir, a: Tree<N>, n: N, c: Color, b: Tree<N>, h: nat)
    ensures Balanced(Join(d, a, n, c, b), h) <==>
            if c.Black? then h > 0 && Balanced(a, h - 1) && Balanced(b, h - 1)
            else !IsRed(a) && !IsRed(b) && Balanced(a, h) && Balanced(b, h)
  {
  }

  /** The red-black property of a whole tree. */
  ghost predicate RedBlack<N>(t: Tree<N>) {
    !IsRed(t) && exists h: nat :: Balanced(t, h)
  }

  /** A position whose surroundings are balanced when it holds a subtree of
      black height `h` (a black one, if the parent is red). */
  predicate Hangs<N>(p: Path<N>, h: nat) {
    match p
    case Top => true
    case Down(_, _, Black, sib, up) => Balanced(sib, h) && Hangs(up, h + 1)
    case Down(_, _, Red, sib, up) =>
      && Balanced(sib, h) && !IsRed(sib)
      && up.Down? && up.color.Black?
      && Hangs(up, h)
  }

  function TopHeight<N>(p: Path<N>, h: nat): nat {
    match p
    case Top => h
    case Down(_, _, c, _, up) => TopHeight(up, if c.Black? then h + 1 else h)
  }

  /** A red subtree is acceptable only below a black parent. */
  predicate Fits<N>(p: Path<N>, t: Tree<N>) {
    IsRed(t) ==> p.Down? && p.color.Black?
  }

  lemma {:induction false} PlugBalanced<N>(p: Path<N>, t: Tree<N>, h: nat)
    requires Hangs(p, h) && Balanced(t, h) && Fits(p, t)
    ensures Balanced(Plug(p, t), TopHeight(p, h)) && !IsRed(Plug(p, t))
    decreases p
  {
    match p
    case Top =>
    case Down(d, n, c, sib, up) =>
      PlugBalanced(up, Join(d, t, n, c, sib), if c.Black? then h + 1 else h);
  }

  lemma {:induction false} BalancedUnplug<N>(p: Path<N>, t: Tree<N>, top: nat) returns (h: nat)
    requires Balanced(Plug(p, t), top) && !IsRed(Plug(p, t))
    ensures Hangs(p, h) && Balanced(t, h) && Fits(p, t)
    decreases p
  {
    match p
    case Top => h := top;
    case Down(d, n, c, sib, up) =>
      var g := BalancedUnplug(up, Join(d, t, n, c, sib), top);
      h := if c.Black? then g - 1 else g;
  }

  function Blacken<N>(t: Tree<N>): Tree<N> {
    if t.Branch? then t.(color := Black) else t
  }

  /** Renaming the node of one frame does not affect balance. */
  lemma {:induction false} HangsRename<N>(p: Path<N>, base: Path<N>, n: N, h: nat)
    requires base.Down?
    ensures Hangs(Extend(p, base), h) ==> Hangs(Extend(p, base.(node := n)), h)
    decreases p
  {
    match p
    case Top =>
    case Down(_, _, c, _, up) => HangsRename(up, base, n, if c.Black? then h + 1 else h);
  }

  // ----------------------------------------------------------------- removal

  /** `u` has at most one child, `ch`. */
  predicate OnlyChild<N(==)>(u: Tree<N>, ch: Tree<N>) {
    u.Branch? && ((u.left.Leaf? && ch == u.right) || (u.right.Leaf? && ch == u.left))
  }

  /** Every step of the path goes to a left child. */
  predicate Leftmost<N>(p: Path<N>) {
    p.Down? ==> p.dir.Left? && Leftmost(p.up)
  }

  /** Removing a node with at most one child: harmless if it was red, one black
      node short if it was black. `n` names the node of frame `base` anew. */
  lemma RemoveBalance<N>(p: Path<N>, base: Path<N>, n: N, u: Tree<N>, ch: Tree<N>) returns (h: nat)
    requires OnlyChild(u, ch)
    requires base.Top? ==> p.Top?
    requires RedBlack(Plug(Extend(p, base), u))
    ensures var q := if base.Down? then Extend(p, base.(node := n)) else Top;
            if u.color.Red? then RedBlack(Plug(q, ch)) else Short(q, ch, h)
  {
    var q := if base.Down? then Extend(p, base.(node := n)) else Top;
    var top: nat :| Balanced(Plug(Extend(p, base), u), top);
    var g := BalancedUnplug(Extend(p, base), u, top);
    if base.Down? {
      HangsRename(p, base, n, g);
    }
    if u.color.Red? {
      h := 0;
      PlugBalanced(q, ch, g);
    } else {
      h := g - 1;
    }
  }

  /** The root with at most one child: the child becomes the black root. */
  lemma RemoveRootBalance<N>(u: Tree<N>, ch: Tree<N>)
    requires OnlyChild(u, ch) && RedBlack(u)
    ensures RedBlack(Blacken(ch))
  {
    var h: nat :| Balanced(u, h);
    assert Balanced(ch, h - 1);
    assert Balanced(Blacken(ch), if IsRed(ch) then h else h - 1);
  }

  // --------------------------------------------------------------- size bound

  function Size<N>(t: Tree<N>): nat {
    match t
    case Leaf => 0
    case Branch(l, _, _, r) => Size(l) + 1 + Size(r)
  }

  function Height<N>(t: Tree<N>): nat {
    match t
    case Leaf => 0
    case Branch(l, _, _, r) => 1 + if Height(l) < Height(r) then Height(r) else Height(l)
  }

  function Pow2(k: nat): nat {
    if k == 0 then 1 else 2 * Pow2(k - 1)
  }

  lemma {:induction false} SizeAtLeast<N>(t: Tree<N>, h: nat)
    requires Balanced(t, h)
    ensures Size(t) + 1 >= Pow2(h)
  {
    if t.Branch? {
      var g := if t.color.Black? then h - 1 else h;
      SizeAtLeast(t.left, g);
      SizeAtLeast(t.right, g);
    }
  }

  lemma {:induction false} HeightAtMost<N>(t: Tree<N>, h: nat)
    requires Balanced(t, h)
    ensures Height(t) <= 2 * h + (if IsRed(t) then 1 else 0)
  {
    if t.Branch? {
      var g := if t.color.Black? then h - 1 else h;
      HeightAtMost(t.left, g);
      HeightAtMost(t.right, g);
    }
  }

  lemma {:induction false} Pow2Monotone(a: nat, b: nat)
    requires a <= b
    ensures Pow2(a) <= Pow2(b)
  {
    if a < b {
      Pow2Monotone(a, b - 1);
    }
  }

  lemma {:induction false} Pow2Double(h: nat)
    ensures Pow2(2 * h) == Pow2(h) * Pow2(h)
  {
    if h > 0 {
      Pow2Double(h - 1);
      assert Pow2(2 * h) == 2 * Pow2(2 * h - 1) == 4 * Pow2(2 * (h - 1));
    }
  }

  lemma SquareMonotone(k: nat, n: nat)
    requires k <= n
    ensures k * k <= n * n
  {
  }

  /** A red-black tree of `n` nodes is at most 2*log2(n+1) nodes deep. */
  lemma HeightLogarithmic<N>(t: Tree<N>)
    requires RedBlack(t)
    ensures Pow2(Height(t)) <= (Size(t) + 1) * (Size(t) + 1)
  {
    var h: nat :| Balanced(t, h);
    HeightAtMost(t, h);
    SizeAtLeast(t, h);
    Pow2Monotone(Height(t), 2 * h);
    Pow2Double(h);
    SquareMonotone(Pow2(h), Size(t) + 1);
  }

  /** A position cannot be deeper than the tree is high. */
  lemma {:induction false} PlugHeight<N>(p: Path<N>, t: Tree<N>)
    ensures Depth(p) + Height(t) <= Height(Plug(p, t))
    decreases p
  {
    match p
    case Top =>
    case Down(d, n, c, sib, up) => PlugHeight(up, Join(d, t, n, c, sib));
  }

  lemma {:induction false} SizeInOrder<N>(t: Tree<N>)
    ensures Size(t) == |InOrder(t)|
  {
    if t.Branch? {
      SizeInOrder(t.left);
      SizeInOrder(t.right);
    }
  }

  /** A tree without repeated nodes lists each of them once. */
  lemma {:induction false} InOrderCount<N>(t: Tree<N>)
    requires Separate(t)
    ensures |InOrder(t)| == |Nodes(t)|
  {
    if t.Branch? {
      InOrderCount(t.left);
      InOrderCount(t.right);
      assert Nodes(t) == Nodes(t.left) + Nodes(t.right) + {t.node};
      assert |Nodes(t.left) + Nodes(t.right)| == |Nodes(t.left)| + |Nodes(t.right)|;
    }
  }

  // ------------------------------------------------------------- insert fixup

  /** Red uncle: recolouring moves the red node two levels up and keeps every
      black height. `d1`, `d2` are the sides of node and parent. */
  lemma InsertRecolour<N>(d1: Dir, d2: Dir, t: Tree<N>, par: N, sib: Tree<N>,
                          gp: N, uncle: Tree<N>, up: Path<N>, h: nat)
    requires Balanced(t, h) && IsRed(t)
    requires Hangs(Down(d1, par, Red, sib, Down(d2, gp, Black, uncle, up)), h)
    requires IsRed(uncle)
    ensures var t' := Join(d2, Join(d1, t, par, Black, sib), gp, Red, Blacken(uncle));
            IsRed(t') && Balanced(t', h + 1) && Hangs(up, h + 1)
  {
    assert Balanced(Join(d1, t, par, Black, sib), h + 1);
  }

  /** Below a red parent there is a black grandparent. */
  lemma GrandparentExists<N>(p: Path<N>, h: nat)
    requires Hangs(p, h) && p.Down? && p.color.Red?
    ensures p.up.Down? && p.up.color.Black?
  {
  }

  /** Black uncle, node on the outside: one rotation ends the fixup. */
  lemma InsertOuter<N>(d: Dir, t: Tree<N>, par: N, sib: Tree<N>, gp: N, uncle: Tree<N>, up: Path<N>, h: nat)
    requires Hangs(Down(d, par, Red, sib, Down(d, gp, Black, uncle, up)), h)
    requires !IsRed(uncle)
    ensures Hangs(Down(d, par, Black, Join(d, sib, gp, Red, uncle), up), h)
  {
    assert Balanced(uncle, h);
  }

  /** Black uncle, node on the inside: the first rotation swaps node and
      parent and leaves the outside case. */
  lemma InsertInner<N>(d: Dir, a: Tree<N>, n: N, b: Tree<N>, par: N, sib: Tree<N>,
                       gp: N, uncle: Tree<N>, up: Path<N>, h: nat)
    requires Balanced(Join(d, a, n, Red, b), h)
    requires Hangs(Down(d.Other(), par, Red, sib, Down(d, gp, Black, uncle, up)), h)
    ensures Balanced(Join(d, sib, par, Red, a), h)
    ensures Hangs(Down(d, n, Red, b, Down(d, gp, Black, uncle, up)), h)
  {
  }

  /** Where the insert fixup stops, blackening the root gives a red-black tree. */
  lemma InsertStop<N>(p: Path<N>, t: Tree<N>, h: nat)
    requires Hangs(p, h) && Balanced(t, h) && IsRed(t)
    requires p.Down? ==> p.color.Black?
    ensures RedBlack(Blacken(Plug(p, t)))
  {
    if p.Top? {
      assert Balanced(Blacken(t), h + 1);
    } else {
      PlugBalanced(p, t, h);
    }
  }

  // ------------------------------------------------------------- delete fixup

  /** The position is one black node short: it hangs at `h + 1`, and becomes
      right when a red subtree is blackened or the position is the root. */
  predicate Short<N>(p: Path<N>, t: Tree<N>, h: nat) {
    && Hangs(p, h + 1)
    && (if IsRed(t) then Balanced(Blacken(t), h + 1) else Balanced(t, h))
  }

  /** The sibling of a short position is never a leaf. */
  lemma SiblingExists<N>(p: Path<N>, t: Tree<N>, h: nat)
    requires p.Down? && Short(p, t, h)
    ensures p.sibling.Branch?
    ensures IsRed(p.sibling) ==> p.color.Black? && p.sibling.left.Branch? && p.sibling.right.Branch?
  {
    var w := p.sibling;
    assert Balanced(w, h + 1);
    if IsRed(w) {
      assert Balanced(w.left, h + 1) && Balanced(w.right, h + 1);
    }
  }

  /** Red sibling: one rotation gives the position a black sibling and a red
      parent. */
  lemma DeleteRedSibling<N>(d: Dir, t: Tree<N>, par: N, c: Color, near: Tree<N>, w: N, far: Tree<N>, up: Path<N>,
                            h: nat)
    requires Short(Down(d, par, c, Join(d, near, w, Red, far), up), t, h)
    ensures c.Black? && near.Branch? && near.color.Black?
    ensures Short(Down(d, par, Red, near, Down(d, w, Black, far, up)), t, h)
  {
    BalancedJoin(d, near, w, Red, far, h + 1);
    assert Balanced(near, h + 1);
  }

  /** Black sibling with black children: recolouring moves the shortage up. */
  lemma DeleteRecolour<N>(d: Dir, t: Tree<N>, par: N, c: Color, near: Tree<N>, w: N, far: Tree<N>, up: Path<N>, h: nat)
    requires Short(Down(d, par, c, Join(d, near, w, Black, far), up), t, h)
    requires !IsRed(t) && !IsRed(near) && !IsRed(far)
    ensures var t' := Join(d, t, par, c, Join(d, near, w, Red, far));
            Short(up, t', if c.Black? then h + 1 else h)
  {
    assert Balanced(Join(d, near, w, Red, far), h);
  }

  /** Black sibling whose near child alone is red: one rotation makes the far
      child red. */
  lemma DeleteInner<N>(d: Dir, t: Tree<N>, par: N, c: Color, a: Tree<N>, x: N, b: Tree<N>,
                       w: N, far: Tree<N>, up: Path<N>, h: nat)
    requires Short(Down(d, par, c, Join(d, Join(d, a, x, Red, b), w, Black, far), up), t, h)
    requires !IsRed(far)
    ensures Short(Down(d, par, c, Join(d, a, x, Black, Join(d, b, w, Red, far)), up), t, h)
  {
    BalancedJoin(d, Join(d, a, x, Red, b), w, Black, far, h + 1);
    BalancedJoin(d, a, x, Red, b, h);
    BalancedJoin(d, b, w, Red, far, h);
    BalancedJoin(d, a, x, Black, Join(d, b, w, Red, far), h + 1);
  }

  /** Black sibling with a red far child: one rotation ends the shortage. */
  lemma DeleteOuter<N>(d: Dir, t: Tree<N>, par: N, c: Color, near: Tree<N>, w: N, far: Tree<N>, up: Path<N>, h: nat)
    requires Short(Down(d, par, c, Join(d, near, w, Black, far), up), t, h)
    requires !IsRed(t) && IsRed(far)
    ensures var t' := Join(d, Join(d, t, par, Black, near), w, c, Blacken(far));
            RedBlack(Plug(up, t'))
  {
    var t' := Join(d, Join(d, t, par, Black, near), w, c, Blacken(far));
    BalancedJoin(d, near, w, Black, far, h + 1);
    BalancedJoin(d, t, par, Black, near, h + 1);
    assert Balanced(Blacken(far), h + 1);
    var g := if c.Black? then h + 2 else h + 1;
    PlugBalanced(up, t', g);
  }

  /** Where the fixup loop stops, blackening the position restores balance. */
  lemma DeleteStop<N>(p: Path<N>, t: Tree<N>, h: nat)
    requires Short(p, t, h)
    requires p.Top? || IsRed(t)
    ensures RedBlack(Plug(p, Blacken(t)))
  {
    PlugBalanced(p, Blacken(t), if IsRed(t) then h + 1 else h);
  }
}
