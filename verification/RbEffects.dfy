/** What the operations of src/cs_rbtree.c do to memory and to the tree it holds:
    order, linkage and balance of each write sequence, as facts about values. */
module RbEffects {
  import opened Basics
  import opened RbShape
  import opened RbMemory

  predicate KeysSorted(m: Memory, ns: seq<Addr>) {
    && (forall i :: 0 <= i < |ns| ==> ns[i] in m)
    && forall i, j :: 0 <= i < j < |ns| ==> m[ns[i]].key <= m[ns[j]].key
  }

  lemma SortedSplit(m: Memory, b: seq<Addr>, l: seq<Addr>, n: Addr, r: seq<Addr>, a: seq<Addr>)
    requires KeysSorted(m, b + (l + [n] + r) + a)
    ensures n in m
    ensures forall x :: x in l ==> x in m && m[x].key <= m[n].key
    ensures forall x :: x in r ==> x in m && m[n].key <= m[x].key
  {
    var ns := b + (l + [n] + r) + a;
    assert ns[|b| + |l|] == n;
    forall x | x in l
      ensures x in m && m[x].key <= m[n].key
    {
      var k :| 0 <= k < |l| && l[k] == x;
      assert ns[|b| + k] == x;
    }
    forall x | x in r
      ensures x in m && m[n].key <= m[x].key
    {
      var k :| 0 <= k < |r| && r[k] == x;
      assert ns[|b| + |l| + 1 + k] == x;
    }
  }

  /** Around a node in a sorted tree, keys below are to its left and keys above
      to its right. */
  lemma SortedAround(m: Memory, q: Path<Addr>, t: Tree<Addr>)
    requires t.Branch? && KeysSorted(m, InOrder(Plug(q, t)))
    ensures t.node in m
    ensures forall n :: n in InOrder(t.left) ==> n in m && m[n].key <= m[t.node].key
    ensures forall n :: n in InOrder(t.right) ==> n in m && m[t.node].key <= m[n].key
  {
    hide KeysSorted;
    PlugInOrder(q, t);
    assert InOrder(Plug(q, t)) == Before(q) + (InOrder(t.left) + [t.node] + InOrder(t.right)) + After(q);
    SortedSplit(m, Before(q), InOrder(t.left), t.node, InOrder(t.right), After(q));
  }

  /** A valid tree survives any change of memory away from it. */
  lemma ValidElsewhere(m: Memory, m': Memory, s: Addr, root: Addr, t: Tree<Addr>)
    requires Linked(m, s, root, t) && KeysSorted(m, InOrder(t)) && NULL !in m'
    requires forall a :: a in m && (a in Nodes(t) || a == s) ==> a in m' && m'[a] == m[a]
    ensures Linked(m', s, root, t) && KeysSorted(m', InOrder(t))
  {
    LinkedElsewhere(m, m', s, root, t);
    InOrderNodes(t);
  }

  // ----------------------------------------------------------------- rotation

  /** A rotation touches nodes of the tree only. */
  lemma RotateWithin(d: Dir, q: Path<Addr>, t: Tree<Addr>)
    requires t.Branch? && Side(t, d.Other()).Branch?
    ensures var ns := Nodes(Plug(q, t));
            var u := Side(t, d.Other());
            && t.node in ns && u.node in ns
            && (Side(u, d).Branch? ==> Side(u, d).node in ns)
            && (q.Down? ==> q.node in ns)
  {
    PlugNodes(q, t);
    var u := Side(t, d.Other());
    NodeOf(Side(u, d), q);
    assert Nodes(Side(u, d)) <= Nodes(u) <= Nodes(t);
  }

  lemma RotateCells(d: Dir, m: Memory, s: Addr, root: Addr, q: Path<Addr>, t: Tree<Addr>)
    requires t.Branch? && Side(t, d.Other()).Branch?
    requires Linked(m, s, root, Plug(q, t))
    ensures var x, y, b := t.node, Side(t, d.Other()).node, Side(Side(t, d.Other()), d);
            && x in m && y in m && x != y && x != s && y != s
            && (b.Branch? ==> b.node in m && b.node != s && b.node != x && b.node != y)
            && (q.Down? ==>
                  && q.node in m && q.node != x && q.node != y && m[x].parent == q.node
                  && m[q.node].Child(q.dir) == x && m[q.node].Child(q.dir.Other()) != x && root != x
                  && (b.Branch? ==> q.node != b.node))
            && (q.Top? ==> root == x)
            && m[x].Child(d.Other()) == y && m[y].Child(d) == Ptr(b, s)
  {
    hide Holds, HoldsPath, PathNodes, SeparatePath, Plug, Nodes, InOrder, Separate, Linked;
    var u := Side(t, d.Other());
    RotateParts(d, m, s, root, q, Side(t, d), t.node, t.color, Side(u, d), u.node, u.color, Side(u, d.Other()));
  }

  lemma RotateEffect(d: Dir, m: Memory, s: Addr, root: Addr, q: Path<Addr>, t: Tree<Addr>)
    requires t.Branch? && Side(t, d.Other()).Branch?
    requires Linked(m, s, root, Plug(q, t))
    requires var u: Tree<Addr> := Side(t, d.Other());
             && t.node in m && u.node in m && (q.Down? ==> q.node in m)
             && (Side(u, d).Branch? ==> Side(u, d).node in m)
    ensures var u: Tree<Addr> := Side(t, d.Other());
            var m' := RotatedMemory(d, m, s, q, t.node, Side(u, d), u.node);
            && Linked(m', s, if q.Top? then u.node else root, Plug(q, Rotate(d, t)))
            && Reshapes(m, Plug(q, t), m', Plug(q, Rotate(d, t)))
  {
    hide Holds, HoldsPath, PathNodes, SeparatePath, Plug, Nodes, InOrder, Separate, Linked, RotatedMemory;
    var u := Side(t, d.Other());
    var m' := RotatedMemory(d, m, s, q, t.node, Side(u, d), u.node);
    RotateCells(d, m, s, root, q, t);
    RotatedMemoryCells(d, m, s, q, t.node, Side(u, d), u.node);
    RotateLinked(d, m, m', s, root, q, Side(t, d), t.node, t.color, Side(u, d), u.node, u.color, Side(u, d.Other()));
    RotateSameOrder(d, q, t);
    RotateWithin(d, q, t);
  }

  // ------------------------------------------------------------------- insert

  /** `ns'` is `ns` with `n` placed after every key up to its own. */
  ghost predicate Placed(m: Memory, ns: seq<Addr>, n: Addr, ns': seq<Addr>)
    requires n in m && forall k :: 0 <= k < |ns| ==> ns[k] in m
  {
    exists i ::
      && 0 <= i <= |ns|
      && ns' == ns[..i] + [n] + ns[i..]
      && (forall k :: 0 <= k < i ==> m[ns[k]].key <= m[n].key)
      && (forall k :: i <= k < |ns| ==> m[ns[k]].key > m[n].key)
  }

  lemma PlacedSorted(m: Memory, ns: seq<Addr>, n: Addr, ns': seq<Addr>)
    requires KeysSorted(m, ns) && n in m && Placed(m, ns, n, ns')
    ensures KeysSorted(m, ns')
  {
  }

  lemma PlacedBetween(m: Memory, b: seq<Addr>, n: Addr, a: seq<Addr>)
    requires n in m && KeysSorted(m, b + a)
    requires forall x :: x in b ==> x in m && m[x].key <= m[n].key
    requires forall x :: x in a ==> x in m && m[x].key > m[n].key
    ensures Placed(m, b + a, n, b + [n] + a)
  {
    var ns := b + a;
    assert ns[..|b|] == b && ns[|b|..] == a;
  }

  /** Before and after an empty position, as the descent of an insert finds it. */
  predicate Bracketed(m: Memory, p: Path<Addr>, k: Int64) {
    && (forall n :: n in Before(p) ==> n in m && m[n].key <= k)
    && (forall n :: n in After(p) ==> n in m && m[n].key > k)
  }

  lemma AttachOrder(m: Memory, p: Path<Addr>, n: Addr)
    requires n in m && KeysSorted(m, InOrder(Plug(p, Leaf))) && Bracketed(m, p, m[n].key)
    ensures var t' := Plug(p, Branch(Leaf, n, Red, Leaf));
            Placed(m, InOrder(Plug(p, Leaf)), n, InOrder(t')) && KeysSorted(m, InOrder(t'))
  {
    hide KeysSorted, Placed;
    PlugInOrder(p, Leaf);
    PlugInOrder(p, Branch(Leaf, n, Red, Leaf));
    assert Before(p) + [] + After(p) == Before(p) + After(p);
    assert InOrder(Branch(Leaf, n, Red, Leaf)) == [n];
    PlacedBetween(m, Before(p), n, After(p));
    PlacedSorted(m, Before(p) + After(p), n, Before(p) + [n] + After(p));
  }

  /** Memory after the writes that hang a new red leaf below a node. */
  function AttachedMemory(m: Memory, s: Addr, p: Path<Addr>, n: Addr): Memory
    requires p.Down? && p.node in m && n in m
  {
    var m1 := m[p.node := m[p.node].WithChild(p.dir, n)];
    m1[n := m1[n].(parent := p.node, left := s, right := s, color := Red)]
  }

  lemma AttachLinked(m: Memory, s: Addr, root: Addr, p: Path<Addr>, n: Addr)
    requires p.Down? && p.node in m && n in m && n != s && n != NULL
    requires Linked(m, s, root, Plug(p, Leaf)) && n !in Nodes(Plug(p, Leaf))
    ensures Linked(AttachedMemory(m, s, p, n), s, root, Plug(p, Branch(Leaf, n, Red, Leaf)))
    ensures Nodes(Plug(p, Branch(Leaf, n, Red, Leaf))) == Nodes(Plug(p, Leaf)) + {n}
  {
    var leaf := Branch(Leaf, n, Red, Leaf);
    PlugNodes(p, Leaf);
    PlugNodes(p, leaf);
    LinksAt(m, s, root, p, Leaf);
    HoldsPlug(m, s, p, Leaf);
    HoldsPathNodes(m, s, p, s);
    NodeOf(leaf, p);
    hide Plug, PathNodes, HoldsPath;
    ReplaceLinked(m, AttachedMemory(m, s, p, n), s, root, p, Leaf, leaf);
  }

  /** Hanging the leaf: linked, placed, and balanced around it. */
  lemma AttachEffect(m: Memory, s: Addr, root: Addr, p: Path<Addr>, n: Addr)
    requires p.Down? && p.node in m && n in m && n != s && n != NULL
    requires Linked(m, s, root, Plug(p, Leaf)) && n !in Nodes(Plug(p, Leaf))
    requires RedBlack(Plug(p, Leaf))
    requires KeysSorted(m, InOrder(Plug(p, Leaf))) && Bracketed(m, p, m[n].key)
    ensures var m', t' := AttachedMemory(m, s, p, n), Plug(p, Branch(Leaf, n, Red, Leaf));
            && Linked(m', s, root, t') && Hangs(p, 0)
            && Nodes(t') == Nodes(Plug(p, Leaf)) + {n}
            && Relinks(m, m', Nodes(t'))
            && Placed(m, InOrder(Plug(p, Leaf)), n, InOrder(t')) && KeysSorted(m, InOrder(t'))
  {
    hide Plug, InOrder, Linked, KeysSorted, Placed;
    AttachLinked(m, s, root, p, n);
    AttachOrder(m, p, n);
    PlugNodes(p, Leaf);
    var top: nat :| Balanced(Plug(p, Leaf), top);
    var h := BalancedUnplug(p, Leaf, top);
  }

  lemma InsertEmpty(m: Memory, m': Memory, s: Addr, n: Addr)
    requires NULL !in m && SentinelOk(m, s) && n in m && n != s
    requires m' == m[n := m[n].(parent := NULL, left := s, right := s, color := Black)]
    ensures var t := Branch(Leaf, n, Black, Leaf);
            && Linked(m', s, n, t) && RedBlack(t)
            && KeysSorted(m', InOrder(t)) && Placed(m', [], n, InOrder(t))
  {
    var t := Branch(Leaf, n, Black, Leaf);
    assert Balanced(t, 1);
    assert InOrder(t) == [n] == [][..0] + [n] + [][0..];
  }

  /** Re-balancing keeps what hanging the leaf established. */
  lemma InsertSummary(m: Memory, t: Tree<Addr>, m1: Memory, t1: Tree<Addr>, m2: Memory, t2: Tree<Addr>, n: Addr)
    requires n in m && Relinks(m, m1, Nodes(t1)) && Reshapes(m1, t1, m2, t2)
    requires KeysSorted(m, InOrder(t))
    requires Placed(m, InOrder(t), n, InOrder(t1)) && KeysSorted(m, InOrder(t1))
    ensures Nodes(t2) == Nodes(t1)
    ensures n in m2 && Relinks(m, m2, Nodes(t2)) && KeysSorted(m2, InOrder(t2)) && KeysSorted(m2, InOrder(t))
    ensures Placed(m2, InOrder(t), n, InOrder(t2))
  {
    hide InOrder, Nodes;
  }

  /** The insert fixup at work: a balanced subtree with a red root `node` hangs
      where a subtree of its black height belongs. */
  predicate RedAt(p: Path<Addr>, t: Tree<Addr>, h: nat, node: Addr) {
    Hangs(p, h) && Balanced(t, h) && IsRed(t) && t.node == node
  }

  // ------------------------------------------------------------------- delete

  /** The delete fixup at work: the position of `temp` is one black node short.
      The sentinel's parent link is right while it stands for the position. */
  predicate ShortAt(m: Memory, s: Addr, p: Path<Addr>, t: Tree<Addr>, h: nat, temp: Addr) {
    && Short(p, t, h) && temp == Ptr(t, s)
    && (p.Down? ==> temp in m && m[temp].parent == p.node)
  }

  /** A red-black tree is itself a (final) state of the delete fixup. */
  lemma ShortAtTop(t: Tree<Addr>) returns (h: nat)
    requires RedBlack(t)
    ensures Short(Top, t, h)
  {
    h :| Balanced(t, h);
  }

  /** `ns'` is `ns` without `n`. */
  ghost predicate Removed(ns: seq<Addr>, n: Addr, ns': seq<Addr>) {
    exists i :: 0 <= i < |ns| && ns[i] == n && ns' == ns[..i] + ns[i + 1..]
  }

  lemma RemovedAround(b: seq<Addr>, x: seq<Addr>, n: Addr, y: seq<Addr>, a: seq<Addr>)
    ensures Removed(b + (x + [n] + y) + a, n, b + (x + y) + a)
  {
    var ns, i := b + (x + [n] + y) + a, |b| + |x|;
    assert ns[i] == n && ns[..i] == b + x && ns[i + 1..] == y + a;
    assert b + (x + y) + a == (b + x) + (y + a);
  }

  lemma SortedWithout(m: Memory, ns: seq<Addr>, i: nat)
    requires KeysSorted(m, ns) && i < |ns|
    ensures KeysSorted(m, ns[..i] + ns[i + 1..])
  {
    var ns' := ns[..i] + ns[i + 1..];
    assert forall k :: 0 <= k < |ns'| ==> ns'[k] == ns[if k < i then k else k + 1];
  }

  lemma RemovedSorted(m: Memory, m': Memory, ns: seq<Addr>, n: Addr, ns': seq<Addr>)
    requires KeysSorted(m, ns) && Removed(ns, n, ns') && n !in ns'
    requires m'.Keys == m.Keys && forall a :: a in m && a != n ==> m'[a].key == m[a].key
    ensures KeysSorted(m', ns')
  {
    var i :| 0 <= i < |ns| && ns[i] == n && ns' == ns[..i] + ns[i + 1..];
    SortedWithout(m, ns, i);
    forall k | 0 <= k < |ns'|
      ensures ns'[k] in m && ns'[k] != n
    {
    }
  }

  lemma {:induction false} LeftmostBefore(p: Path<Addr>)
    requires Leftmost(p)
    ensures Before(p) == []
  {
    if p.Down? {
      LeftmostBefore(p.up);
    }
  }

  lemma TakeOutNodes(q: Path<Addr>, u: Tree<Addr>, ch: Tree<Addr>)
    requires OnlyChild(u, ch) && Separate(Plug(q, u))
    ensures Nodes(Plug(q, ch)) == Nodes(Plug(q, u)) - {u.node}
  {
    PlugNodes(q, u);
    PlugNodes(q, ch);
    PlugSeparate(q, u);
    NodeOf(u, q);
    assert Nodes(u) == Nodes(ch) + {u.node} && u.node !in Nodes(ch);
  }

  /** Taking out a node with at most one child removes it from the order. */
  lemma TakeOutOrder(q: Path<Addr>, u: Tree<Addr>, ch: Tree<Addr>)
    requires OnlyChild(u, ch) && Separate(Plug(q, u))
    ensures Removed(InOrder(Plug(q, u)), u.node, InOrder(Plug(q, ch)))
    ensures Nodes(Plug(q, ch)) == Nodes(Plug(q, u)) - {u.node}
  {
    hide Nodes, PathNodes, Separate, SeparatePath, Plug, Before, After, Removed;
    PlugInOrder(q, u);
    PlugInOrder(q, ch);
    assert InOrder(ch) == InOrder(u.left) + InOrder(u.right);
    RemovedAround(Before(q), InOrder(u.left), u.node, InOrder(u.right), After(q));
    hide InOrder;
    TakeOutNodes(q, u, ch);
  }

  lemma TakePlaceNodes(q: Path<Addr>, l: Tree<Addr>, node: Addr, c: Color, p: Path<Addr>, sub: Addr, cs: Color,
                       sr: Tree<Addr>)
    requires Separate(Plug(q, WithSuccessor(l, node, c, p, sub, cs, sr)))
    ensures Nodes(Plug(q, Branch(l, sub, c, Plug(p, sr)))) ==
            Nodes(Plug(q, WithSuccessor(l, node, c, p, sub, cs, sr))) - {node}
  {
    hide Nodes, PathNodes, Separate, SeparatePath, Plug;
    var t, t' := WithSuccessor(l, node, c, p, sub, cs, sr), Branch(l, sub, c, Plug(p, sr));
    PlugNodes(q, t);
    PlugNodes(q, t');
    PlugSeparate(q, t);
    SuccessorSeparate(l, node, c, p, sub, cs, sr);
    SeparateJoin(Left, l, sub, c, Plug(p, sr));
  }

  /** So does putting its successor in its place. */
  lemma TakePlaceOrder(q: Path<Addr>, l: Tree<Addr>, node: Addr, c: Color, p: Path<Addr>, sub: Addr, cs: Color,
                       sr: Tree<Addr>)
    requires Leftmost(p) && Separate(Plug(q, WithSuccessor(l, node, c, p, sub, cs, sr)))
    ensures var t, t' := WithSuccessor(l, node, c, p, sub, cs, sr), Branch(l, sub, c, Plug(p, sr));
            && Removed(InOrder(Plug(q, t)), node, InOrder(Plug(q, t')))
            && Nodes(Plug(q, t')) == Nodes(Plug(q, t)) - {node}
  {
    hide Nodes, PathNodes, Separate, SeparatePath, Plug, Before, After, Removed;
    var v, t := Branch(Leaf, sub, cs, sr), WithSuccessor(l, node, c, p, sub, cs, sr);
    var t' := Branch(l, sub, c, Plug(p, sr));
    PlugInOrder(q, t);
    PlugInOrder(q, t');
    PlugInOrder(p, v);
    PlugInOrder(p, sr);
    LeftmostBefore(p);
    var y := InOrder(v) + After(p);
    assert InOrder(Plug(p, v)) == y && InOrder(Plug(p, sr)) == InOrder(sr) + After(p);
    assert InOrder(v) == [sub] + InOrder(sr);
    assert InOrder(t') == InOrder(l) + y;
    RemovedAround(Before(q), InOrder(l), node, y, After(q));
    hide InOrder;
    TakePlaceNodes(q, l, node, c, p, sub, cs, sr);
  }

  lemma PlugTop(t: Tree<Addr>)
    ensures Plug(Top, t) == t
  {
  }

  /** A path continued by `base` ends where it began, or at `base`. */
  lemma ExtendDown(p: Path<Addr>, base: Path<Addr>)
    requires base.Down?
    ensures Extend(p, base).Down? && Extend(p, base).node == if p.Down? then p.node else base.node
  {
  }

  lemma SuccessorDistinct(m: Memory, s: Addr, root: Addr, q: Path<Addr>, u: Tree<Addr>, p: Path<Addr>, v: Tree<Addr>)
    requires u.Branch? && Plug(p, v) == u.right && v.Branch? && v.left.Leaf?
    requires Linked(m, s, root, Plug(q, u))
    ensures v.node != u.node && v.node != root
  {
    var r := Down(Right, u.node, u.color, u.left, q);
    PlugExtend(p, r, v);
    ExtendDown(p, r);
    LinksAt(m, s, root, Extend(p, r), v);
    PlugSeparate(q, u);
    PlugNodes(p, v);
  }

  lemma TakeOutBalance(q: Path<Addr>, u: Tree<Addr>, ch: Tree<Addr>) returns (h: nat)
    requires OnlyChild(u, ch) && RedBlack(Plug(q, u))
    ensures if u.color.Red? then RedBlack(Plug(q, ch)) else Short(q, ch, h)
  {
    h := RemoveBalance(Top, q, if q.Down? then q.node else NULL, u, ch);
  }

  lemma TakePlaceBalance(q: Path<Addr>, u: Tree<Addr>, p: Path<Addr>, sub: Addr, v: Tree<Addr>,
                         ch: Tree<Addr>) returns (h: nat)
    requires OnlyChild(v, ch) && u.Branch? && u.right == Plug(p, v) && RedBlack(Plug(q, u))
    ensures var p' := Extend(p, Down(Right, sub, u.color, u.left, q));
            && Plug(p', ch) == Plug(q, Branch(u.left, sub, u.color, Plug(p, ch)))
            && if v.color.Red? then RedBlack(Plug(p', ch)) else Short(p', ch, h)
  {
    var base := Down(Right, u.node, u.color, u.left, q);
    PlugExtend(p, base, v);
    PlugExtend(p, base.(node := sub), ch);
    assert Plug(base, u.right) == Plug(q, u);
    h := RemoveBalance(p, base, sub, v, ch);
  }

  /** The memory effect of a delete: `node` is cleared, links and colours of the
      other nodes `ns` may be rewritten, and so may the sentinel's parent link. */
  predicate Unlinks(m: Memory, m': Memory, ns: set<Addr>, node: Addr, s: Addr) {
    && m'.Keys == m.Keys
    && node in m && m'[node] == RbNode(NULL, NULL, NULL, 0, NULL, m[node].color)
    && s in m && m'[s] == m[s].(parent := m'[s].parent)
    && forall a :: a in m && a != node ==>
         && m'[a].key == m[a].key && m'[a].data == m[a].data
         && (a !in ns && a != s ==> m'[a] == m[a])
  }

  lemma UnlinkedNode(m: Memory, m': Memory, ns: set<Addr>, node: Addr, s: Addr)
    requires Unlinks(m, m', ns, node, s)
    ensures node in m && node in m' && m'[node].left == NULL && m'[node].right == NULL && m'[node].parent == NULL
    ensures m'[node].key == 0 && m'[node].data == NULL && m'[node].color == m[node].color
  {
  }

  lemma BypassUnlinks(m: Memory, s: Addr, root: Addr, q: Path<Addr>, u: Tree<Addr>, ch: Tree<Addr>)
    requires Linked(m, s, root, Plug(q, u)) && OnlyChild(u, ch) && q.Down?
    requires u.node in m && s in m && Ptr(ch, s) in m && q.node in m
    ensures Unlinks(m, BypassedMemory(m, s, q, u.node, ch), Nodes(Plug(q, u)), u.node, s)
  {
    hide Holds, HoldsPath, Nodes, PathNodes, Separate, SeparatePath, Plug;
    LinksAt(m, s, root, q, u);
    PlugNodes(q, u);
    NodeOf(u, q);
    NodeOf(ch, q);
    HoldsPlug(m, s, q, u);
    PlugSeparate(q, u);
    OnlyChildParts(m, s, u, ch);
    HoldsNodes(m, s, u);
  }

  lemma SplicesKeep(m: Memory, m': Memory, q: Path<Addr>, ln: Addr, node: Addr, p: Path<Addr>, sub: Addr, f: Addr,
                    top: Addr, s: Addr, ns: set<Addr>)
    requires SpliceApart(m, q, ln, node, p, sub, f, top) && SplicesMemory(m, m', q, ln, node, p, sub, f, top)
    requires s in m && s !in {node, sub, ln} && (q.Down? ==> q.node != s) && (p.Down? ==> p.node != s && top != s)
    requires SpliceWrites(q, ln, node, p, sub, f, top) <= ns + {s}
    ensures Unlinks(m, m', ns, node, s)
  {
  }

  lemma SpliceUnlinks(m: Memory, s: Addr, root: Addr, q: Path<Addr>,
                      l: Tree<Addr>, node: Addr, c: Color, p: Path<Addr>, sub: Addr, cs: Color, sr: Tree<Addr>)
    requires Linked(m, s, root, Plug(q, WithSuccessor(l, node, c, p, sub, cs, sr)))
    requires l.Branch? && Leftmost(p)
    requires node in m && SpliceApart(m, q, m[node].left, node, p, sub, Ptr(sr, s), Ptr(Plug(p, sr), s))
    ensures Unlinks(m, SplicedMemory(m, s, q, node, p, sub, Ptr(sr, s), Ptr(Plug(p, sr), s)),
                    Nodes(Plug(q, WithSuccessor(l, node, c, p, sub, cs, sr))), node, s)
  {
    hide Holds, HoldsPath, Nodes, PathNodes, Separate, SeparatePath, Plug, SplicedMemory;
    var t := WithSuccessor(l, node, c, p, sub, cs, sr);
    var f, top := Ptr(sr, s), Ptr(Plug(p, sr), s);
    SpliceParts(m, s, root, q, l, node, c, p, sub, cs, sr);
    SplicedMemoryCells(m, s, q, node, p, sub, f, top);
    PlugNodes(q, t);
    PlugSeparate(q, t);
    HoldsPlug(m, s, q, t);
    HoldsNodes(m, s, t);
    HoldsPathNodes(m, s, q, node);
    NodeOf(t, q);
    SpliceWritesWithin(q, l, node, p, sub, cs, c, sr, s);
    SuccessorSeparate(l, node, c, p, sub, cs, sr);
    LinksAt(m, s, root, q, t);
    NodeOf(sr, p);
    hide SpliceWrites, Unlinks, SplicesMemory;
    SplicesKeep(m, SplicedMemory(m, s, q, node, p, sub, f, top), q, l.node, node, p, sub, f, top, s, Nodes(Plug(q, t)));
  }

  /** Re-balancing keeps what unhooking the node established. */
  lemma DeleteSummary(m: Memory, t: Tree<Addr>, m1: Memory, t1: Tree<Addr>, m2: Memory, t2: Tree<Addr>, s: Addr,
                      root: Addr, n: Addr)
    requires Linked(m, s, root, t) && KeysSorted(m, InOrder(t)) && n in Nodes(t)
    requires Nodes(t1) == Nodes(t) - {n} && Removed(InOrder(t), n, InOrder(t1))
    requires Unlinks(m, m1, Nodes(t), n, s) && Reshapes(m1, t1, m2, t2)
    ensures KeysSorted(m2, InOrder(t2)) && Nodes(t2) == Nodes(t) - {n}
    ensures Removed(InOrder(t), n, InOrder(t2)) && Unlinks(m, m2, Nodes(t), n, s)
  {
    hide Nodes, InOrder, Removed, KeysSorted, Holds;
    HoldsNodes(m, s, t);
    InOrderNodes(t2);
    RemovedSorted(m, m2, InOrder(t), n, InOrder(t2));
  }

  lemma DeleteRootSummary(m: Memory, s: Addr, root: Addr, u: Tree<Addr>, ch: Tree<Addr>)
    requires Linked(m, s, root, u) && OnlyChild(u, ch) && KeysSorted(m, InOrder(u))
    requires Ptr(ch, s) in m && u.node in m && u.node != Ptr(ch, s)
    ensures var m1 := m[Ptr(ch, s) := m[Ptr(ch, s)].(color := Black)];
            var m' := m1[u.node := Cleared(m1[u.node])];
            && KeysSorted(m', InOrder(Blacken(ch))) && Nodes(Blacken(ch)) == Nodes(u) - {u.node}
            && Removed(InOrder(u), u.node, InOrder(Blacken(ch))) && Unlinks(m, m', Nodes(u), u.node, s)
  {
    hide Removed, Nodes, Holds, InOrder, KeysSorted, Separate;
    var m1 := m[Ptr(ch, s) := m[Ptr(ch, s)].(color := Black)];
    var m' := m1[u.node := Cleared(m1[u.node])];
    TakeOutOrder(Top, u, ch);
    HoldsNodes(m, s, u);
    NodeOf(ch, Top);
    NodeOf(u, Top);
    if ch.Branch? {
      RecolourSameOrder(Top, ch, Black);
    }
    OnlyChildParts(m, s, u, ch);
    InOrderNodes(ch);
    RemovedSorted(m, m', InOrder(u), u.node, InOrder(ch));
  }

  // ------------------------------------------------------------------- lookup

  ghost predicate HasKey(m: Memory, t: Tree<Addr>, k: Int64) {
    exists n :: n in Nodes(t) && n in m && m[n].key == k
  }

  /** Every key before the position is smaller than `k`, every key after it
      larger. */
  predicate Straddled(m: Memory, p: Path<Addr>, k: Int64) {
    && (forall n :: n in Before(p) ==> n in m && m[n].key < k)
    && (forall n :: n in After(p) ==> n in m && m[n].key > k)
  }

  /** The leftmost node comes first in order, and its key is the least. */
  lemma LeastFirst(m: Memory, t: Tree<Addr>, p: Path<Addr>, v: Tree<Addr>)
    requires Plug(p, v) == t && Leftmost(p) && v.Branch? && v.left.Leaf?
    requires KeysSorted(m, InOrder(t))
    ensures InOrder(t) != [] && InOrder(t)[0] == v.node && v.node in m
    ensures forall n :: n in Nodes(t) ==> n in m && m[v.node].key <= m[n].key
  {
    hide InOrder, Plug, Nodes, Leftmost, KeysSorted;
    LeftmostFirst(p, v);
    InOrderNodes(t);
    FirstIsLeast(m, InOrder(t));
  }

  lemma LeftmostFirst(p: Path<Addr>, v: Tree<Addr>)
    requires Leftmost(p) && v.Branch? && v.left.Leaf?
    ensures InOrder(Plug(p, v)) != [] && InOrder(Plug(p, v))[0] == v.node
  {
    hide Plug, Before, After, Leftmost;
    PlugInOrder(p, v);
    LeftmostBefore(p);
    assert InOrder(v)[0] == v.node;
  }

  lemma FirstIsLeast(m: Memory, ns: seq<Addr>)
    requires KeysSorted(m, ns) && ns != []
    ensures ns[0] in m && forall n :: n in ns ==> n in m && m[ns[0]].key <= m[n].key
  {
  }

  lemma LookupStep(m: Memory, q: Path<Addr>, t: Tree<Addr>, k: Int64)
    requires t.Branch? && KeysSorted(m, InOrder(Plug(q, t))) && Straddled(m, q, k)
    ensures t.node in m
    ensures m[t.node].key > k ==> Straddled(m, Down(Left, t.node, t.color, t.right, q), k)
    ensures m[t.node].key < k ==> Straddled(m, Down(Right, t.node, t.color, t.left, q), k)
  {
    hide KeysSorted, InOrder, Plug;
    SortedAround(m, q, t);
  }

  /** The link to the side of a node where `k` belongs. */
  function Toward(n: RbNode, k: Int64): Addr {
    if n.key > k then n.left else n.right
  }

  /** `seen` is the path of a search for `k`: tree nodes from the root on, at each
      node before the last, whose key is not `k`, to the side where `k` belongs. */
  predicate Searches(m: Memory, s: Addr, root: Addr, k: Int64, seen: seq<Addr>) {
    && (seen != [] ==> seen[0] == root)
    && (forall i :: 0 <= i < |seen| ==> seen[i] in m && seen[i] != s)
    && (forall i :: 0 <= i < |seen| - 1 ==> m[seen[i]].key != k && seen[i + 1] == Toward(m[seen[i]], k))
  }

  /** The search has not met `k` on the way and comes to `to` next. */
  predicate SearchIsAt(m: Memory, s: Addr, root: Addr, k: Int64, seen: seq<Addr>, to: Addr) {
    && Searches(m, s, root, k, seen)
    && if seen == [] then to == root
       else m[seen[|seen| - 1]].key != k && to == Toward(m[seen[|seen| - 1]], k)
  }

  /** The search ends at the last node seen, if that has the key, and otherwise
      because there is no node where it goes next. */
  predicate SearchEnds(m: Memory, s: Addr, root: Addr, k: Int64, seen: seq<Addr>, node: Addr) {
    || SearchIsAt(m, s, root, k, seen, s)
    || (Searches(m, s, root, k, seen) && seen != [] && seen[|seen| - 1] == node && m[node].key == k)
  }

  lemma SearchStarts(m: Memory, s: Addr, root: Addr, k: Int64)
    ensures SearchIsAt(m, s, root, k, [], root)
  {
  }

  lemma SearchStops(m: Memory, s: Addr, root: Addr, k: Int64, seen: seq<Addr>, node: Addr)
    ensures SearchIsAt(m, s, root, k, seen, s) ==> SearchEnds(m, s, root, k, seen, node)
  {
  }

  lemma SearchOn(m: Memory, s: Addr, root: Addr, k: Int64, seen: seq<Addr>, node: Addr)
    requires SearchIsAt(m, s, root, k, seen, node) && node in m && node != s
    ensures m[node].key == k ==> SearchEnds(m, s, root, k, seen + [node], node)
    ensures m[node].key > k ==> SearchIsAt(m, s, root, k, seen + [node], m[node].left)
    ensures m[node].key < k ==> SearchIsAt(m, s, root, k, seen + [node], m[node].right)
  {
  }

  lemma LookupHit(m: Memory, q: Path<Addr>, t: Tree<Addr>, k: Int64)
    requires t.Branch? && t.node in m && m[t.node].key == k
    ensures t.node in Nodes(Plug(q, t)) && HasKey(m, Plug(q, t), k)
  {
    PlugNodes(q, t);
    NodeOf(t, q);
  }

  lemma LookupMiss(m: Memory, q: Path<Addr>, k: Int64)
    requires Straddled(m, q, k)
    ensures !HasKey(m, Plug(q, Leaf), k)
  {
    PlugInOrder(q, Leaf);
    InOrderNodes(Plug(q, Leaf));
  }

  lemma InspectBound(q: Path<Addr>, t: Tree<Addr>, inspected: nat)
    requires RedBlack(Plug(q, t)) && inspected <= Depth(q) + if t.Branch? then 1 else 0
    ensures var n := |InOrder(Plug(q, t))| + 1;
            Pow2(inspected) <= n * n
  {
    var w := Plug(q, t);
    PlugHeight(q, t);
    HeightLogarithmic(w);
    SizeInOrder(w);
    Pow2Monotone(inspected, Height(w));
  }
}
