/** src/cs_rbtree.c: the intrusive red-black tree with a shared sentinel. */
module RbTree {
  import opened Basics
  import opened RbShape
  import opened RbMemory
  import opened RbEffects

  class Rbtree {
    var mem: Memory
    var root: Addr
    const sentinel: Addr
    ghost var shape: Tree<Addr>
    ghost var rotations: nat

    ghost predicate Valid()
      reads this
    {
      && Linked(mem, sentinel, root, shape)
      && RedBlack(shape)
      && KeysSorted(mem, InOrder(shape))
    }

    /** `rbtree_init`: `node` becomes the sentinel of an empty tree. */
    constructor (m: Memory, node: Addr)
      requires node in m && NULL !in m
      ensures Valid() && shape == Leaf && sentinel == node && rotations == 0
      ensures mem == m[node := RbNode(NULL, NULL, NULL, 0, NULL, Black)]
    {
      mem := m[node := RbNode(NULL, NULL, NULL, 0, NULL, Black)];
      root := node;
      sentinel := node;
      shape := Leaf;
      rotations := 0;
      new;
      assert Balanced(shape, 0);
    }

    /** A node structure comes to life outside the tree. */
    method Allocate(a: Addr, n: RbNode)
      requires Valid() && a !in mem && a != NULL
      modifies `mem
      ensures Valid() && mem == old(mem)[a := n]
    {
      ValidElsewhere(mem, mem[a := n], sentinel, root, shape);
      mem := mem[a := n];
    }

    /** The owner of a node outside the tree sets its key and data. */
    method Label(a: Addr, key: Int64, data: Addr)
      requires Valid() && a in mem && a != sentinel && a !in Nodes(shape)
      modifies `mem
      ensures Valid() && mem == old(mem)[a := old(mem)[a].(key := key, data := data)]
    {
      var m := mem[a := mem[a].(key := key, data := data)];
      ValidElsewhere(mem, m, sentinel, root, shape);
      mem := m;
    }

    /** A node structure outside the tree is freed. */
    method Free(a: Addr)
      requires Valid() && a != sentinel && a !in Nodes(shape)
      modifies `mem
      ensures Valid() && mem == old(mem) - {a}
    {
      ValidElsewhere(mem, mem - {a}, sentinel, root, shape);
      mem := mem - {a};
    }

    method LeftRotate(node: Addr, ghost q: Path<Addr>, ghost t: Tree<Addr>)
      requires t.Branch? && t.node == node && t.right.Branch?
      requires Linked(mem, sentinel, root, Plug(q, t))
      modifies `mem, `root, `rotations
      ensures Linked(mem, sentinel, root, Plug(q, Rotate(Left, t)))
      ensures Reshapes(old(mem), Plug(q, t), mem, Plug(q, Rotate(Left, t)))
      ensures rotations == old(rotations) + 1
    {
      hide Holds, HoldsPath, PathNodes, SeparatePath, Plug, Nodes, InOrder, Separate, Linked;
      ghost var u, b := t.right, t.right.left;
      RotateCells(Left, mem, sentinel, root, q, t);
      var temp := mem[node].right;
      mem := mem[node := mem[node].(right := mem[temp].left)];
      if mem[temp].left != sentinel {
        mem := mem[mem[temp].left := mem[mem[temp].left].(parent := node)];
      }
      mem := mem[temp := mem[temp].(parent := mem[node].parent)];
      if node == root {
        root := temp;
      } else if node == mem[mem[node].parent].left {
        mem := mem[mem[node].parent := mem[mem[node].parent].(left := temp)];
      } else {
        mem := mem[mem[node].parent := mem[mem[node].parent].(right := temp)];
      }
      mem := mem[temp := mem[temp].(left := node)];
      mem := mem[node := mem[node].(parent := temp)];
      rotations := rotations + 1;
      assert mem == RotatedMemory(Left, old(mem), sentinel, q, node, b, u.node);
      RotateEffect(Left, old(mem), sentinel, old(root), q, t);
    }

    method RightRotate(node: Addr, ghost q: Path<Addr>, ghost t: Tree<Addr>)
      requires t.Branch? && t.node == node && t.left.Branch?
      requires Linked(mem, sentinel, root, Plug(q, t))
      modifies `mem, `root, `rotations
      ensures Linked(mem, sentinel, root, Plug(q, Rotate(Right, t)))
      ensures Reshapes(old(mem), Plug(q, t), mem, Plug(q, Rotate(Right, t)))
      ensures rotations == old(rotations) + 1
    {
      hide Holds, HoldsPath, PathNodes, SeparatePath, Plug, Nodes, InOrder, Separate, Linked;
      ghost var u, b := t.left, t.left.right;
      RotateCells(Right, mem, sentinel, root, q, t);
      var temp := mem[node].left;
      mem := mem[node := mem[node].(left := mem[temp].right)];
      if mem[temp].right != sentinel {
        mem := mem[mem[temp].right := mem[mem[temp].right].(parent := node)];
      }
      mem := mem[temp := mem[temp].(parent := mem[node].parent)];
      if node == root {
        root := temp;
      } else if node == mem[mem[node].parent].right {
        mem := mem[mem[node].parent := mem[mem[node].parent].(right := temp)];
      } else {
        mem := mem[mem[node].parent := mem[mem[node].parent].(left := temp)];
      }
      mem := mem[temp := mem[temp].(right := node)];
      mem := mem[node := mem[node].(parent := temp)];
      rotations := rotations + 1;
      assert mem == RotatedMemory(Right, old(mem), sentinel, q, node, b, u.node);
      RotateEffect(Right, old(mem), sentinel, old(root), q, t);
    }

    /** `rbtree_red`, `rbtree_black` and `rbtree_copy_color` on a tree node. */
    method SetColor(node: Addr, c: Color, ghost q: Path<Addr>, ghost t: Tree<Addr>)
      requires t.Branch? && t.node == node
      requires Linked(mem, sentinel, root, Plug(q, t))
      modifies `mem
      ensures Linked(mem, sentinel, root, Plug(q, t.(color := c)))
      ensures Reshapes(old(mem), Plug(q, t), mem, Plug(q, t.(color := c)))
      ensures node in old(mem) && mem == old(mem)[node := old(mem)[node].(color := c)]
    {
      hide Holds, HoldsPath, PathNodes, SeparatePath, Plug, InOrder, Separate, Linked;
      RecolourLinked(mem, sentinel, root, q, t, c);
      RecolourSameOrder(q, t, c);
      PlugNodes(q, t);
      mem := mem[node := mem[node].(color := c)];
    }

    // ------------------------------------------------------------------ insert

    /** The node on the left of its red parent, on the left of a grandparent
        with a black other child: lines 196-198. */
    method InsertRotateRight(node: Addr, ghost p: Path<Addr>, ghost t: Tree<Addr>, ghost h: nat)
      returns (ghost p': Path<Addr>)
      requires Linked(mem, sentinel, root, Plug(p, t)) && RedAt(p, t, h, node)
      requires p.Down? && p.color.Red? && p.up.Down? && p.dir.Left? && p.up.dir.Left? && !IsRed(p.up.sibling)
      modifies `mem, `root, `rotations
      ensures Linked(mem, sentinel, root, Plug(p', t)) && RedAt(p', t, h, node)
      ensures p'.Down? && p'.color.Black? && Depth(p') < Depth(p)
      ensures Reshapes(old(mem), Plug(p, t), mem, Plug(p', t))
      ensures rotations == old(rotations) + 1
    {
      hide Holds, HoldsPath, PathNodes, SeparatePath, Nodes, InOrder, Separate, Linked, Hangs, Balanced, Reshapes;
      GrandparentExists(p, h);
      ghost var g, up, w := p.up, p.up.up, Plug(p, t);
      ghost var k := Branch(Branch(t, p.node, Red, p.sibling), g.node, Black, g.sibling);
      LinksAt(mem, sentinel, root, p, t);
      LinksAt(mem, sentinel, root, g, k.left);
      SetColor(mem[node].parent, Black, g, k.left);
      ghost var m1, k1 := mem, k.(left := k.left.(color := Black));
      SetColor(mem[mem[node].parent].parent, Red, up, k1);
      ghost var m2, k2 := mem, k1.(color := Red);
      RightRotate(mem[mem[node].parent].parent, up, k2);
      p' := Down(Left, p.node, Black, Branch(p.sibling, g.node, Red, g.sibling), up);
      InsertOuter(Left, t, p.node, p.sibling, g.node, g.sibling, up, h);
      ReshapesTrans(old(mem), w, m1, Plug(up, k1), m2, Plug(up, k2));
      ReshapesTrans(old(mem), w, m2, Plug(up, k2), mem, Plug(p', t));
    }

    /** The loop body of the insert fixup, parent on the left: lines 183-199. */
    method InsertFixupLeft(node: Addr, ghost p: Path<Addr>, ghost t: Tree<Addr>, ghost h: nat)
      returns (next: Addr, ghost p': Path<Addr>, ghost t': Tree<Addr>, ghost h': nat)
      requires Linked(mem, sentinel, root, Plug(p, t)) && RedAt(p, t, h, node)
      requires p.Down? && p.color.Red? && p.up.Down? && p.up.dir.Left?
      modifies `mem, `root, `rotations
      ensures Linked(mem, sentinel, root, Plug(p', t')) && RedAt(p', t', h', next)
      ensures Reshapes(old(mem), Plug(p, t), mem, Plug(p', t'))
      ensures Depth(p') < Depth(p)
      ensures rotations <= old(rotations) + 2
      ensures p'.Down? && p'.color.Red? ==> rotations == old(rotations)
    {
      hide Holds, HoldsPath, PathNodes, SeparatePath, Nodes, InOrder, Separate, Linked, Hangs, Balanced, Reshapes;
      GrandparentExists(p, h);
      ghost var g, up, w := p.up, p.up.up, Plug(p, t);
      ghost var j := Join(p.dir, t, p.node, Red, p.sibling);
      LinksAt(mem, sentinel, root, p, t);
      LinksAt(mem, sentinel, root, g, j);
      next := node;
      var temp := mem[mem[mem[next].parent].parent].right;
      if mem[temp].color.Red? {
        SetColor(mem[next].parent, Black, g, j);
        ghost var m1, j' := mem, j.(color := Black);
        ghost var u := Down(Right, g.node, Black, j', up);
        SetColor(temp, Black, u, g.sibling);
        ghost var m2, k := mem, Branch(j', g.node, Black, Blacken(g.sibling));
        SetColor(mem[mem[next].parent].parent, Red, up, k);
        next := mem[mem[next].parent].parent;
        p', t', h' := up, k.(color := Red), h + 1;
        InsertRecolour(p.dir, Left, t, p.node, p.sibling, g.node, g.sibling, up, h);
        ReshapesTrans(old(mem), w, m1, Plug(u, g.sibling), m2, Plug(up, k));
        ReshapesTrans(old(mem), w, m2, Plug(up, k), mem, Plug(p', t'));
      } else {
        ghost var p1;
        p1, t', h' := p, t, h;
        if next == mem[mem[next].parent].right {
          next := mem[next].parent;
          LeftRotate(next, g, j);
          p1, t' := Down(Left, t.node, Red, t.right, g), Branch(p.sibling, p.node, Red, t.left);
          InsertInner(Left, t.left, t.node, t.right, p.node, p.sibling, g.node, g.sibling, up, h);
        } else {
          ReshapesRefl(mem, w);
        }
        ghost var m1 := mem;
        p' := InsertRotateRight(next, p1, t', h);
        ReshapesTrans(old(mem), w, m1, Plug(p1, t'), mem, Plug(p', t'));
      }
    }

    /** The node on the right of its red parent, on the right of a grandparent
        with a black other child: lines 214-216. */
    method InsertRotateLeft(node: Addr, ghost p: Path<Addr>, ghost t: Tree<Addr>, ghost h: nat)
      returns (ghost p': Path<Addr>)
      requires Linked(mem, sentinel, root, Plug(p, t)) && RedAt(p, t, h, node)
      requires p.Down? && p.color.Red? && p.up.Down? && p.dir.Right? && p.up.dir.Right? && !IsRed(p.up.sibling)
      modifies `mem, `root, `rotations
      ensures Linked(mem, sentinel, root, Plug(p', t)) && RedAt(p', t, h, node)
      ensures p'.Down? && p'.color.Black? && Depth(p') < Depth(p)
      ensures Reshapes(old(mem), Plug(p, t), mem, Plug(p', t))
      ensures rotations == old(rotations) + 1
    {
      hide Holds, HoldsPath, PathNodes, SeparatePath, Nodes, InOrder, Separate, Linked, Hangs, Balanced, Reshapes;
      GrandparentExists(p, h);
      ghost var g, up, w := p.up, p.up.up, Plug(p, t);
      ghost var k := Branch(g.sibling, g.node, Black, Branch(p.sibling, p.node, Red, t));
      LinksAt(mem, sentinel, root, p, t);
      LinksAt(mem, sentinel, root, g, k.right);
      SetColor(mem[node].parent, Black, g, k.right);
      ghost var m1, k1 := mem, k.(right := k.right.(color := Black));
      SetColor(mem[mem[node].parent].parent, Red, up, k1);
      ghost var m2, k2 := mem, k1.(color := Red);
      LeftRotate(mem[mem[node].parent].parent, up, k2);
      p' := Down(Right, p.node, Black, Branch(g.sibling, g.node, Red, p.sibling), up);
      InsertOuter(Right, t, p.node, p.sibling, g.node, g.sibling, up, h);
      ReshapesTrans(old(mem), w, m1, Plug(up, k1), m2, Plug(up, k2));
      ReshapesTrans(old(mem), w, m2, Plug(up, k2), mem, Plug(p', t));
    }

    /** The loop body of the insert fixup, parent on the right: lines 201-217. */
    method InsertFixupRight(node: Addr, ghost p: Path<Addr>, ghost t: Tree<Addr>, ghost h: nat)
      returns (next: Addr, ghost p': Path<Addr>, ghost t': Tree<Addr>, ghost h': nat)
      requires Linked(mem, sentinel, root, Plug(p, t)) && RedAt(p, t, h, node)
      requires p.Down? && p.color.Red? && p.up.Down? && p.up.dir.Right?
      modifies `mem, `root, `rotations
      ensures Linked(mem, sentinel, root, Plug(p', t')) && RedAt(p', t', h', next)
      ensures Reshapes(old(mem), Plug(p, t), mem, Plug(p', t'))
      ensures Depth(p') < Depth(p)
      ensures rotations <= old(rotations) + 2
      ensures p'.Down? && p'.color.Red? ==> rotations == old(rotations)
    {
      hide Holds, HoldsPath, PathNodes, SeparatePath, Nodes, InOrder, Separate, Linked, Hangs, Balanced, Reshapes;
      GrandparentExists(p, h);
      ghost var g, up, w := p.up, p.up.up, Plug(p, t);
      ghost var j := Join(p.dir, t, p.node, Red, p.sibling);
      LinksAt(mem, sentinel, root, p, t);
      LinksAt(mem, sentinel, root, g, j);
      next := node;
      var temp := mem[mem[mem[next].parent].parent].left;
      if mem[temp].color.Red? {
        SetColor(mem[next].parent, Black, g, j);
        ghost var m1, j' := mem, j.(color := Black);
        ghost var u := Down(Left, g.node, Black, j', up);
        SetColor(temp, Black, u, g.sibling);
        ghost var m2, k := mem, Branch(Blacken(g.sibling), g.node, Black, j');
        SetColor(mem[mem[next].parent].parent, Red, up, k);
        next := mem[mem[next].parent].parent;
        p', t', h' := up, k.(color := Red), h + 1;
        InsertRecolour(p.dir, Right, t, p.node, p.sibling, g.node, g.sibling, up, h);
        ReshapesTrans(old(mem), w, m1, Plug(u, g.sibling), m2, Plug(up, k));
        ReshapesTrans(old(mem), w, m2, Plug(up, k), mem, Plug(p', t'));
      } else {
        ghost var p1;
        p1, t', h' := p, t, h;
        if next == mem[mem[next].parent].left {
          next := mem[next].parent;
          RightRotate(next, g, j);
          p1, t' := Down(Right, t.node, Red, t.left, g), Branch(t.right, p.node, Red, p.sibling);
          InsertInner(Right, t.right, t.node, t.left, p.node, p.sibling, g.node, g.sibling, up, h);
        } else {
          ReshapesRefl(mem, w);
        }
        ghost var m1 := mem;
        p' := InsertRotateLeft(next, p1, t', h);
        ReshapesTrans(old(mem), w, m1, Plug(p1, t'), mem, Plug(p', t'));
      }
    }

    /** The descent of an insert: lines 162-170. `left` tells which link of
        `temp` is the empty one that `p` points at. */
    method Descend(node: Addr) returns (temp: Addr, left: bool, ghost p: Path<Addr>)
      requires Valid() && node in mem && root != sentinel
      ensures p.Down? && Plug(p, Leaf) == shape && p.node == temp && p.dir == (if left then Left else Right)
      ensures temp in mem && mem[temp].Child(p.dir) == sentinel && (left <==> mem[node].key < mem[temp].key)
      ensures Bracketed(mem, p, mem[node].key)
    {
      hide Holds, HoldsPath, PathNodes, SeparatePath, Nodes, InOrder, Separate, Linked, RedBlack, KeysSorted;
      LinksAt(mem, sentinel, root, Top, shape);
      temp := root;
      ghost var q: Path<Addr>, t := Top, shape;
      while true
        invariant Plug(q, t) == shape && t.Branch? && t.node == temp
        invariant Bracketed(mem, q, mem[node].key)
        decreases t
      {
        LinksAt(mem, sentinel, root, q, t);
        SortedAround(mem, q, t);
        left := mem[node].key < mem[temp].key;
        p := if left then Down(Left, temp, t.color, t.right, q) else Down(Right, temp, t.color, t.left, q);
        var child := if left then mem[temp].left else mem[temp].right;
        t := if left then t.left else t.right;
        LinksAt(mem, sentinel, root, p, t);
        if child == sentinel {
          break;
        }
        temp := child;
        q := p;
      }
    }

    /** The new red leaf: lines 172-176. */
    method Attach(node: Addr, temp: Addr, left: bool, ghost p: Path<Addr>)
      requires p.Down? && p.node == temp && p.dir == (if left then Left else Right)
      requires node in mem && temp in mem
      modifies `mem
      ensures mem == AttachedMemory(old(mem), sentinel, p, node)
    {
      if left {
        mem := mem[temp := mem[temp].(left := node)];
      } else {
        mem := mem[temp := mem[temp].(right := node)];
      }
      mem := mem[node := mem[node].(parent := temp)];
      mem := mem[node := mem[node].(left := sentinel)];
      mem := mem[node := mem[node].(right := sentinel)];
      mem := mem[node := mem[node].(color := Red)];
    }

    /** The re-balancing loop and the blackening of the root: lines 180-221. */
    method InsertFixup(node: Addr, ghost q: Path<Addr>) returns (ghost w: Tree<Addr>)
      requires Linked(mem, sentinel, root, Plug(q, Branch(Leaf, node, Red, Leaf)))
      requires Hangs(q, 0)
      modifies `mem, `root, `rotations
      ensures Linked(mem, sentinel, root, w) && RedBlack(w)
      ensures Reshapes(old(mem), Plug(q, Branch(Leaf, node, Red, Leaf)), mem, w)
      ensures rotations <= old(rotations) + 2
    {
      hide Holds, HoldsPath, PathNodes, SeparatePath, Nodes, InOrder, Separate, Linked, Reshapes, RedBlack, Hangs;
      var n := node;
      ghost var p, t, h := q, Branch(Leaf, node, Red, Leaf), 0;
      w := Plug(q, t);
      ReshapesRefl(mem, w);
      LinksAt(mem, sentinel, root, p, t);
      assert Balanced(t, 0);
      while n != root && mem[mem[n].parent].color.Red?
        invariant Linked(mem, sentinel, root, Plug(p, t)) && RedAt(p, t, h, n)
        invariant n in mem && (n == root <==> p.Top?)
        invariant n != root ==> mem[n].parent == p.node && p.node in mem && mem[p.node].color == p.color
        invariant Reshapes(old(mem), w, mem, Plug(p, t))
        invariant rotations <= old(rotations) + 2
        invariant p.Down? && p.color.Red? ==> rotations == old(rotations)
        decreases Depth(p)
      {
        GrandparentExists(p, h);
        LinksAt(mem, sentinel, root, p.up, Join(p.dir, t, p.node, p.color, p.sibling));
        ghost var m1, t1 := mem, Plug(p, t);
        if mem[n].parent == mem[mem[mem[n].parent].parent].left {
          n, p, t, h := InsertFixupLeft(n, p, t, h);
        } else {
          n, p, t, h := InsertFixupRight(n, p, t, h);
        }
        ReshapesTrans(old(mem), w, m1, t1, mem, Plug(p, t));
        LinksAt(mem, sentinel, root, p, t);
      }
      ghost var m2, t2 := mem, Plug(p, t);
      LinksAt(mem, sentinel, root, Top, t2);
      InsertStop(p, t, h);
      PlugBranch(p, t);
      SetColor(root, Black, Top, t2);
      ReshapesTrans(old(mem), w, m2, t2, mem, Blacken(t2));
      w := Blacken(t2);
    }

    /** `rbtree_insert`. Where a grandparent, an uncle or a child is dereferenced
        there is one: reading outside live memory would not verify. */
    method Insert(node: Addr)
      requires Valid() && node in mem && node != sentinel && node !in Nodes(shape)
      modifies this
      ensures Valid()
      ensures Nodes(shape) == old(Nodes(shape)) + {node}
      ensures Relinks(old(mem), mem, Nodes(shape))
      ensures Placed(mem, old(InOrder(shape)), node, InOrder(shape))
      ensures rotations <= old(rotations) + 2
    {
      hide Holds, HoldsPath, PathNodes, SeparatePath, Separate, Linked, RedBlack, KeysSorted, Placed, Reshapes,
           Hangs, Balanced, AttachedMemory;
      LinksAt(mem, sentinel, root, Top, shape);
      if root == sentinel {
        mem := mem[node := mem[node].(parent := NULL)];
        mem := mem[node := mem[node].(left := sentinel)];
        mem := mem[node := mem[node].(right := sentinel)];
        mem := mem[node := mem[node].(color := Black)];
        root := node;
        shape := Branch(Leaf, node, Black, Leaf);
        InsertEmpty(old(mem), mem, sentinel, node);
        return;
      }
      var temp, left, p := Descend(node);
      LinksAt(mem, sentinel, root, p, Leaf);
      Attach(node, temp, left, p);
      ghost var m1 := mem;
      AttachEffect(old(mem), sentinel, root, p, node);
      ghost var t := InsertFixup(node, p);
      shape := t;
      InsertSummary(old(mem), old(shape), m1, Plug(p, Branch(Leaf, node, Red, Leaf)), mem, shape, node);
    }

    // ------------------------------------------------------------------ delete

    /** A red sibling on the right: lines 313-318. */
    method DeleteRedSiblingLeft(temp: Addr, w: Addr, ghost p: Path<Addr>, ghost t: Tree<Addr>, ghost h: nat)
      returns (w': Addr, ghost p': Path<Addr>)
      requires Linked(mem, sentinel, root, Plug(p, t)) && ShortAt(mem, sentinel, p, t, h, temp)
      requires p.Down? && p.dir.Left? && IsRed(p.sibling) && w == p.sibling.node
      modifies `mem, `root, `rotations
      ensures Linked(mem, sentinel, root, Plug(p', t)) && ShortAt(mem, sentinel, p', t, h, temp)
      ensures p'.Down? && p'.dir.Left? && p'.color.Red? && Depth(p') == Depth(p) + 1
      ensures p'.sibling.Branch? && p'.sibling.color.Black? && w' == p'.sibling.node
      ensures Reshapes(old(mem), Plug(p, t), mem, Plug(p', t))
      ensures rotations == old(rotations) + 1
    {
      hide Holds, HoldsPath, PathNodes, SeparatePath, Nodes, InOrder, Separate, Linked, Hangs, Balanced, Reshapes,
           Short, RedBlack;
      ghost var s, up := p.sibling, p.up;
      DeleteRedSibling(Left, t, p.node, p.color, s.left, s.node, s.right, up, h);
      LinksAt(mem, sentinel, root, p, t);
      ghost var k := Branch(t, p.node, Black, s);
      SetColor(w, Black, Down(Right, p.node, Black, t, up), s);
      ghost var m1, k1 := mem, k.(right := s.(color := Black));
      SetColor(mem[temp].parent, Red, up, k1);
      ghost var m2, k2 := mem, k1.(color := Red);
      LeftRotate(mem[temp].parent, up, k2);
      p' := Down(Left, p.node, Red, s.left, Down(Left, s.node, Black, s.right, up));
      assert Plug(p', t) == Plug(p'.up, Rotate(Left, k2).left) == Plug(up, Rotate(Left, k2));
      ReshapesTrans(old(mem), Plug(up, k), m1, Plug(up, k1), m2, Plug(up, k2));
      ReshapesTrans(old(mem), Plug(up, k), m2, Plug(up, k2), mem, Plug(p', t));
      SentinelKept(old(mem), sentinel, old(root), Plug(p, t), mem, Plug(p', t));
      LinksAt(mem, sentinel, root, p', t);
      w' := mem[mem[temp].parent].right;
    }

    /** A black sibling on the right with its left child red and its right child
        black: lines 324-329. */
    method DeleteInnerLeft(temp: Addr, w: Addr, ghost p: Path<Addr>, ghost t: Tree<Addr>, ghost h: nat)
      returns (w': Addr, ghost p': Path<Addr>)
      requires Linked(mem, sentinel, root, Plug(p, t)) && ShortAt(mem, sentinel, p, t, h, temp)
      requires p.Down? && p.dir.Left? && p.sibling.Branch? && p.sibling.color.Black? && w == p.sibling.node
      requires IsRed(p.sibling.left) && !IsRed(p.sibling.right)
      modifies `mem, `root, `rotations
      ensures Linked(mem, sentinel, root, Plug(p', t)) && ShortAt(mem, sentinel, p', t, h, temp)
      ensures p'.Down? && p'.dir.Left? && p'.sibling.Branch? && p'.sibling.color.Black? && w' == p'.sibling.node
      ensures IsRed(p'.sibling.right) && p'.up == p.up
      ensures Reshapes(old(mem), Plug(p, t), mem, Plug(p', t))
      ensures rotations == old(rotations) + 1
    {
      hide Holds, HoldsPath, PathNodes, SeparatePath, Nodes, InOrder, Separate, Linked, Hangs, Balanced, Reshapes,
           Short, RedBlack;
      ghost var s, x, up := p.sibling, p.sibling.left, p.up;
      DeleteInner(Left, t, p.node, p.color, x.left, x.node, x.right, s.node, s.right, up, h);
      ghost var r := Down(Right, p.node, p.color, t, up);
      LinksAt(mem, sentinel, root, p, t);
      LinksAt(mem, sentinel, root, r, s);
      SetColor(mem[w].left, Black, Down(Left, s.node, Black, s.right, r), x);
      ghost var m1, s1 := mem, s.(left := x.(color := Black));
      SetColor(w, Red, r, s1);
      ghost var m2, s2 := mem, s1.(color := Red);
      RightRotate(w, r, s2);
      p' := Down(Left, p.node, p.color, Branch(x.left, x.node, Black, Branch(x.right, s.node, Red, s.right)), up);
      ReshapesTrans(old(mem), Plug(r, s), m1, Plug(r, s1), m2, Plug(r, s2));
      ReshapesTrans(old(mem), Plug(r, s), m2, Plug(r, s2), mem, Plug(p', t));
      SentinelKept(old(mem), sentinel, old(root), Plug(p, t), mem, Plug(p', t));
      LinksAt(mem, sentinel, root, p', t);
      w' := mem[mem[temp].parent].right;
    }

    /** A black sibling on the right with its right child red: lines 331-335. */
    method DeleteOuterLeft(temp: Addr, w: Addr, ghost p: Path<Addr>, ghost t: Tree<Addr>, ghost h: nat)
      returns (ghost t': Tree<Addr>)
      requires Linked(mem, sentinel, root, Plug(p, t)) && ShortAt(mem, sentinel, p, t, h, temp) && !IsRed(t)
      requires p.Down? && p.dir.Left? && p.sibling.Branch? && p.sibling.color.Black? && w == p.sibling.node
      requires IsRed(p.sibling.right)
      modifies `mem, `root, `rotations
      ensures Linked(mem, sentinel, root, t') && RedBlack(t')
      ensures Reshapes(old(mem), Plug(p, t), mem, t')
      ensures rotations == old(rotations) + 1
    {
      hide Holds, HoldsPath, PathNodes, SeparatePath, Nodes, InOrder, Separate, Linked, Hangs, Balanced, Reshapes,
           Short, RedBlack;
      ghost var s, up := p.sibling, p.up;
      DeleteOuter(Left, t, p.node, p.color, s.left, s.node, s.right, up, h);
      ghost var k := Branch(t, p.node, p.color, s);
      LinksAt(mem, sentinel, root, p, t);
      LinksAt(mem, sentinel, root, Down(Right, p.node, p.color, t, up), s);
      SetColor(w, mem[mem[temp].parent].color, Down(Right, p.node, p.color, t, up), s);
      ghost var m1, k1 := mem, k.(right := s.(color := p.color));
      SetColor(mem[temp].parent, Black, up, k1);
      ghost var m2, k2 := mem, k1.(color := Black);
      SetColor(mem[w].right, Black, Down(Right, s.node, p.color, s.left, Down(Right, p.node, Black, t, up)), s.right);
      ghost var m3, k3 := mem, k2.(right := k2.right.(right := Blacken(s.right)));
      LeftRotate(mem[temp].parent, up, k3);
      t' := Plug(up, Rotate(Left, k3));
      ReshapesTrans(old(mem), Plug(up, k), m1, Plug(up, k1), m2, Plug(up, k2));
      ReshapesTrans(old(mem), Plug(up, k), m2, Plug(up, k2), m3, Plug(up, k3));
      ReshapesTrans(old(mem), Plug(up, k), m3, Plug(up, k3), mem, t');
    }

    /** A black sibling on the right: lines 320-336. */
    method DeleteBlackSiblingLeft(temp: Addr, sib: Addr, ghost p: Path<Addr>, ghost t: Tree<Addr>, ghost h: nat)
      returns (next: Addr, ghost p': Path<Addr>, ghost t': Tree<Addr>, ghost h': nat)
      requires Linked(mem, sentinel, root, Plug(p, t)) && ShortAt(mem, sentinel, p, t, h, temp) && !IsRed(t)
      requires p.Down? && p.dir.Left? && p.sibling.Branch? && p.sibling.color.Black? && sib == p.sibling.node
      modifies `mem, `root, `rotations
      ensures Linked(mem, sentinel, root, Plug(p', t')) && ShortAt(mem, sentinel, p', t', h', next)
      ensures Reshapes(old(mem), Plug(p, t), mem, Plug(p', t'))
      ensures p'.Top? || (p' == p.up && (p.color.Red? ==> IsRed(t')) && rotations == old(rotations))
      ensures rotations <= old(rotations) + 2
    {
      hide Holds, HoldsPath, PathNodes, SeparatePath, Nodes, InOrder, Separate, Linked, Hangs, Balanced, Reshapes,
           Short, RedBlack;
      ghost var s, up := p.sibling, p.up;
      ghost var r := Down(Right, p.node, p.color, t, up);
      var w := sib;
      LinksAt(mem, sentinel, root, p, t);
      LinksAt(mem, sentinel, root, r, s);
      LinksAt(mem, sentinel, root, Down(Left, s.node, Black, s.right, r), s.left);
      if mem[mem[w].left].color.Black? && mem[mem[w].right].color.Black? {
        SetColor(w, Red, r, s);
        next := mem[temp].parent;
        t', p', h' := Branch(t, p.node, p.color, s.(color := Red)), up, if p.color.Black? then h + 1 else h;
        DeleteRecolour(Left, t, p.node, p.color, s.left, s.node, s.right, up, h);
        LinksAt(mem, sentinel, root, p', t');
      } else {
        ghost var p1 := p;
        if mem[mem[w].right].color.Black? {
          w, p1 := DeleteInnerLeft(temp, w, p, t, h);
        } else {
          ReshapesRefl(mem, Plug(p, t));
        }
        ghost var m1 := mem;
        t' := DeleteOuterLeft(temp, w, p1, t, h);
        next := root;
        p' := Top;
        h' := ShortAtTop(t');
        LinksAt(mem, sentinel, root, Top, t');
        ReshapesTrans(old(mem), Plug(p, t), m1, Plug(p1, t), mem, t');
      }
    }

    /** The loop body of the delete fixup, position on the left: lines 311-336. */
    method DeleteFixupLeft(temp: Addr, ghost p: Path<Addr>, ghost t: Tree<Addr>, ghost h: nat)
      returns (next: Addr, ghost p': Path<Addr>, ghost t': Tree<Addr>, ghost h': nat)
      requires Linked(mem, sentinel, root, Plug(p, t)) && ShortAt(mem, sentinel, p, t, h, temp) && !IsRed(t)
      requires p.Down? && p.dir.Left?
      modifies `mem, `root, `rotations
      ensures Linked(mem, sentinel, root, Plug(p', t')) && ShortAt(mem, sentinel, p', t', h', next)
      ensures Reshapes(old(mem), Plug(p, t), mem, Plug(p', t'))
      ensures IsRed(t') || Depth(p') < Depth(p)
      ensures rotations <= old(rotations) + 3
      ensures p'.Down? && !IsRed(t') ==> rotations == old(rotations)
    {
      hide Holds, HoldsPath, PathNodes, SeparatePath, Nodes, InOrder, Separate, Linked, Hangs, Balanced, Reshapes,
           Short, RedBlack;
      LinksAt(mem, sentinel, root, p, t);
      SiblingExists(p, t, h);
      var w := mem[mem[temp].parent].right;
      p' := p;
      ReshapesRefl(mem, Plug(p, t));
      if mem[w].color.Red? {
        w, p' := DeleteRedSiblingLeft(temp, w, p, t, h);
      }
      ghost var m1, p1 := mem, p';
      next, p', t', h' := DeleteBlackSiblingLeft(temp, w, p1, t, h);
      ReshapesTrans(old(mem), Plug(p, t), m1, Plug(p1, t), mem, Plug(p', t'));
    }

    /** A red sibling on the left: lines 341-346. */
    method DeleteRedSiblingRight(temp: Addr, w: Addr, ghost p: Path<Addr>, ghost t: Tree<Addr>, ghost h: nat)
      returns (w': Addr, ghost p': Path<Addr>)
      requires Linked(mem, sentinel, root, Plug(p, t)) && ShortAt(mem, sentinel, p, t, h, temp)
      requires p.Down? && p.dir.Right? && IsRed(p.sibling) && w == p.sibling.node
      modifies `mem, `root, `rotations
      ensures Linked(mem, sentinel, root, Plug(p', t)) && ShortAt(mem, sentinel, p', t, h, temp)
      ensures p'.Down? && p'.dir.Right? && p'.color.Red? && Depth(p') == Depth(p) + 1
      ensures p'.sibling.Branch? && p'.sibling.color.Black? && w' == p'.sibling.node
      ensures Reshapes(old(mem), Plug(p, t), mem, Plug(p', t))
      ensures rotations == old(rotations) + 1
    {
      hide Holds, HoldsPath, PathNodes, SeparatePath, Nodes, InOrder, Separate, Linked, Hangs, Balanced, Reshapes,
           Short, RedBlack;
      ghost var s, up := p.sibling, p.up;
      DeleteRedSibling(Right, t, p.node, p.color, s.right, s.node, s.left, up, h);
      LinksAt(mem, sentinel, root, p, t);
      ghost var k := Branch(s, p.node, Black, t);
      SetColor(w, Black, Down(Left, p.node, Black, t, up), s);
      ghost var m1, k1 := mem, k.(left := s.(color := Black));
      SetColor(mem[temp].parent, Red, up, k1);
      ghost var m2, k2 := mem, k1.(color := Red);
      RightRotate(mem[temp].parent, up, k2);
      p' := Down(Right, p.node, Red, s.right, Down(Right, s.node, Black, s.left, up));
      assert Plug(p', t) == Plug(p'.up, Rotate(Right, k2).right) == Plug(up, Rotate(Right, k2));
      ReshapesTrans(old(mem), Plug(up, k), m1, Plug(up, k1), m2, Plug(up, k2));
      ReshapesTrans(old(mem), Plug(up, k), m2, Plug(up, k2), mem, Plug(p', t));
      SentinelKept(old(mem), sentinel, old(root), Plug(p, t), mem, Plug(p', t));
      LinksAt(mem, sentinel, root, p', t);
      w' := mem[mem[temp].parent].left;
    }

    /** A black sibling on the left with its right child red and its left child
        black: lines 352-357. */
    method DeleteInnerRight(temp: Addr, w: Addr, ghost p: Path<Addr>, ghost t: Tree<Addr>, ghost h: nat)
      returns (w': Addr, ghost p': Path<Addr>)
      requires Linked(mem, sentinel, root, Plug(p, t)) && ShortAt(mem, sentinel, p, t, h, temp)
      requires p.Down? && p.dir.Right? && p.sibling.Branch? && p.sibling.color.Black? && w == p.sibling.node
      requires IsRed(p.sibling.right) && !IsRed(p.sibling.left)
      modifies `mem, `root, `rotations
      ensures Linked(mem, sentinel, root, Plug(p', t)) && ShortAt(mem, sentinel, p', t, h, temp)
      ensures p'.Down? && p'.dir.Right? && p'.sibling.Branch? && p'.sibling.color.Black? && w' == p'.sibling.node
      ensures IsRed(p'.sibling.left) && p'.up == p.up
      ensures Reshapes(old(mem), Plug(p, t), mem, Plug(p', t))
      ensures rotations == old(rotations) + 1
    {
      hide Holds, HoldsPath, PathNodes, SeparatePath, Nodes, InOrder, Separate, Linked, Hangs, Balanced, Reshapes,
           Short, RedBlack;
      ghost var s, x, up := p.sibling, p.sibling.right, p.up;
      DeleteInner(Right, t, p.node, p.color, x.right, x.node, x.left, s.node, s.left, up, h);
      ghost var r := Down(Left, p.node, p.color, t, up);
      LinksAt(mem, sentinel, root, p, t);
      LinksAt(mem, sentinel, root, r, s);
      SetColor(mem[w].right, Black, Down(Right, s.node, Black, s.left, r), x);
      ghost var m1, s1 := mem, s.(right := x.(color := Black));
      SetColor(w, Red, r, s1);
      ghost var m2, s2 := mem, s1.(color := Red);
      LeftRotate(w, r, s2);
      p' := Down(Right, p.node, p.color, Branch(Branch(s.left, s.node, Red, x.left), x.node, Black, x.right), up);
      ReshapesTrans(old(mem), Plug(r, s), m1, Plug(r, s1), m2, Plug(r, s2));
      ReshapesTrans(old(mem), Plug(r, s), m2, Plug(r, s2), mem, Plug(p', t));
      SentinelKept(old(mem), sentinel, old(root), Plug(p, t), mem, Plug(p', t));
      LinksAt(mem, sentinel, root, p', t);
      w' := mem[mem[temp].parent].left;
    }

    /** A black sibling on the left with its left child red: lines 359-363. */
    method DeleteOuterRight(temp: Addr, w: Addr, ghost p: Path<Addr>, ghost t: Tree<Addr>, ghost h: nat)
      returns (ghost t': Tree<Addr>)
      requires Linked(mem, sentinel, root, Plug(p, t)) && ShortAt(mem, sentinel, p, t, h, temp) && !IsRed(t)
      requires p.Down? && p.dir.Right? && p.sibling.Branch? && p.sibling.color.Black? && w == p.sibling.node
      requires IsRed(p.sibling.left)
      modifies `mem, `root, `rotations
      ensures Linked(mem, sentinel, root, t') && RedBlack(t')
      ensures Reshapes(old(mem), Plug(p, t), mem, t')
      ensures rotations == old(rotations) + 1
    {
      hide Holds, HoldsPath, PathNodes, SeparatePath, Nodes, InOrder, Separate, Linked, Hangs, Balanced, Reshapes,
           Short, RedBlack;
      ghost var s, up := p.sibling, p.up;
      DeleteOuter(Right, t, p.node, p.color, s.right, s.node, s.left, up, h);
      ghost var k := Branch(s, p.node, p.color, t);
      LinksAt(mem, sentinel, root, p, t);
      LinksAt(mem, sentinel, root, Down(Left, p.node, p.color, t, up), s);
      SetColor(w, mem[mem[temp].parent].color, Down(Left, p.node, p.color, t, up), s);
      ghost var m1, k1 := mem, k.(left := s.(color := p.color));
      SetColor(mem[temp].parent, Black, up, k1);
      ghost var m2, k2 := mem, k1.(color := Black);
      SetColor(mem[w].left, Black, Down(Left, s.node, p.color, s.right, Down(Left, p.node, Black, t, up)), s.left);
      ghost var m3, k3 := mem, k2.(left := k2.left.(left := Blacken(s.left)));
      RightRotate(mem[temp].parent, up, k3);
      t' := Plug(up, Rotate(Right, k3));
      ReshapesTrans(old(mem), Plug(up, k), m1, Plug(up, k1), m2, Plug(up, k2));
      ReshapesTrans(old(mem), Plug(up, k), m2, Plug(up, k2), m3, Plug(up, k3));
      ReshapesTrans(old(mem), Plug(up, k), m3, Plug(up, k3), mem, t');
    }

    /** A black sibling on the left: lines 348-364. */
    method DeleteBlackSiblingRight(temp: Addr, sib: Addr, ghost p: Path<Addr>, ghost t: Tree<Addr>, ghost h: nat)
      returns (next: Addr, ghost p': Path<Addr>, ghost t': Tree<Addr>, ghost h': nat)
      requires Linked(mem, sentinel, root, Plug(p, t)) && ShortAt(mem, sentinel, p, t, h, temp) && !IsRed(t)
      requires p.Down? && p.dir.Right? && p.sibling.Branch? && p.sibling.color.Black? && sib == p.sibling.node
      modifies `mem, `root, `rotations
      ensures Linked(mem, sentinel, root, Plug(p', t')) && ShortAt(mem, sentinel, p', t', h', next)
      ensures Reshapes(old(mem), Plug(p, t), mem, Plug(p', t'))
      ensures p'.Top? || (p' == p.up && (p.color.Red? ==> IsRed(t')) && rotations == old(rotations))
      ensures rotations <= old(rotations) + 2
    {
      hide Holds, HoldsPath, PathNodes, SeparatePath, Nodes, InOrder, Separate, Linked, Hangs, Balanced, Reshapes,
           Short, RedBlack;
      ghost var s, up := p.sibling, p.up;
      ghost var r := Down(Left, p.node, p.color, t, up);
      var w := sib;
      LinksAt(mem, sentinel, root, p, t);
      LinksAt(mem, sentinel, root, r, s);
      LinksAt(mem, sentinel, root, Down(Right, s.node, Black, s.left, r), s.right);
      if mem[mem[w].left].color.Black? && mem[mem[w].right].color.Black? {
        SetColor(w, Red, r, s);
        next := mem[temp].parent;
        t', p', h' := Branch(s.(color := Red), p.node, p.color, t), up, if p.color.Black? then h + 1 else h;
        DeleteRecolour(Right, t, p.node, p.color, s.right, s.node, s.left, up, h);
        LinksAt(mem, sentinel, root, p', t');
      } else {
        ghost var p1 := p;
        if mem[mem[w].left].color.Black? {
          w, p1 := DeleteInnerRight(temp, w, p, t, h);
        } else {
          ReshapesRefl(mem, Plug(p, t));
        }
        ghost var m1 := mem;
        t' := DeleteOuterRight(temp, w, p1, t, h);
        next := root;
        p' := Top;
        h' := ShortAtTop(t');
        LinksAt(mem, sentinel, root, Top, t');
        ReshapesTrans(old(mem), Plug(p, t), m1, Plug(p1, t), mem, t');
      }
    }

    /** The loop body of the delete fixup, position on the right: lines 339-364. */
    method DeleteFixupRight(temp: Addr, ghost p: Path<Addr>, ghost t: Tree<Addr>, ghost h: nat)
      returns (next: Addr, ghost p': Path<Addr>, ghost t': Tree<Addr>, ghost h': nat)
      requires Linked(mem, sentinel, root, Plug(p, t)) && ShortAt(mem, sentinel, p, t, h, temp) && !IsRed(t)
      requires p.Down? && p.dir.Right?
      modifies `mem, `root, `rotations
      ensures Linked(mem, sentinel, root, Plug(p', t')) && ShortAt(mem, sentinel, p', t', h', next)
      ensures Reshapes(old(mem), Plug(p, t), mem, Plug(p', t'))
      ensures IsRed(t') || Depth(p') < Depth(p)
      ensures rotations <= old(rotations) + 3
      ensures p'.Down? && !IsRed(t') ==> rotations == old(rotations)
    {
      hide Holds, HoldsPath, PathNodes, SeparatePath, Nodes, InOrder, Separate, Linked, Hangs, Balanced, Reshapes,
           Short, RedBlack;
      LinksAt(mem, sentinel, root, p, t);
      SiblingExists(p, t, h);
      var w := mem[mem[temp].parent].left;
      p' := p;
      ReshapesRefl(mem, Plug(p, t));
      if mem[w].color.Red? {
        w, p' := DeleteRedSiblingRight(temp, w, p, t, h);
      }
      ghost var m1, p1 := mem, p';
      next, p', t', h' := DeleteBlackSiblingRight(temp, w, p1, t, h);
      ReshapesTrans(old(mem), Plug(p, t), m1, Plug(p1, t), mem, Plug(p', t'));
    }

    /** `rbtree_node_init`. */
    method InitNode(node: Addr)
      requires node in mem
      modifies `mem
      ensures node in mem && mem == old(mem)[node := mem[node]] && mem[node].color == old(mem)[node].color
      ensures mem[node].left == NULL && mem[node].right == NULL && mem[node].parent == NULL
      ensures mem[node].key == 0 && mem[node].data == NULL
    {
      mem := mem[node := mem[node].(left := NULL)];
      mem := mem[node := mem[node].(right := NULL)];
      mem := mem[node := mem[node].(parent := NULL)];
      mem := mem[node := mem[node].(key := 0)];
      mem := mem[node := mem[node].(data := NULL)];
    }

    /** `rbtree_node_min`. */
    method NodeMin(start: Addr, ghost q: Path<Addr>, ghost t: Tree<Addr>)
      returns (node: Addr, ghost p: Path<Addr>, ghost v: Tree<Addr>)
      requires Linked(mem, sentinel, root, Plug(q, t)) && t.Branch? && t.node == start
      ensures Plug(p, v) == t && Leftmost(p)
      ensures v.Branch? && v.left.Leaf? && v.node == node
      ensures InOrder(t) != [] && node == InOrder(t)[0]
      ensures Linked(mem, sentinel, root, Plug(Extend(p, q), v))
    {
      hide Holds, HoldsPath, PathNodes, SeparatePath, Nodes, InOrder, Separate, Linked;
      node := start;
      p, v := Top, t;
      LinksAt(mem, sentinel, root, q, t);
      LinksAt(mem, sentinel, root, Down(Left, t.node, t.color, t.right, q), t.left);
      while mem[node].left != sentinel
        invariant Plug(p, v) == t && Leftmost(p)
        invariant v.Branch? && v.node == node && node in mem && mem[node].left == Ptr(v.left, sentinel)
        invariant Linked(mem, sentinel, root, Plug(Extend(p, q), v))
        invariant v.left.Branch? ==> v.left.node != sentinel
        decreases v
      {
        node := mem[node].left;
        p, v := Down(Left, v.node, v.color, v.right, p), v.left;
        LinksAt(mem, sentinel, root, Extend(p, q), v);
        LinksAt(mem, sentinel, root, Down(Left, v.node, v.color, v.right, Extend(p, q)), v.left);
      }
      LeftmostFirst(p, v);
    }

    /** Lines 260-264: the parent `top` of `subst` now points at `temp`. */
    method Bypass(subst: Addr, temp: Addr, ghost top: Addr, ghost d: Dir)
      requires subst in mem && top in mem && mem[subst].parent == top
      requires mem[top].Child(d) == subst && mem[top].Child(d.Other()) != subst
      modifies `mem
      ensures mem == old(mem)[top := old(mem)[top].WithChild(d, temp)]
    {
      if subst == mem[mem[subst].parent].left {
        mem := mem[mem[subst].parent := mem[mem[subst].parent].(left := temp)];
      } else {
        mem := mem[mem[subst].parent := mem[mem[subst].parent].(right := temp)];
      }
    }

    /** Lines 260-300 when `subst` is the node itself. */
    method TakeOut(node: Addr, temp: Addr, ghost q: Path<Addr>, ghost u: Tree<Addr>, ghost ch: Tree<Addr>)
      requires Linked(mem, sentinel, root, Plug(q, u)) && q.Down?
      requires OnlyChild(u, ch) && u.node == node && temp == Ptr(ch, sentinel)
      modifies `mem
      ensures Linked(mem, sentinel, root, Plug(q, ch))
      ensures temp in mem && mem[temp].parent == q.node
      ensures Unlinks(old(mem), mem, Nodes(Plug(q, u)), node, sentinel)
      ensures node in old(mem) && node in mem && mem[node].color == old(mem)[node].color
      ensures mem[node].left == NULL && mem[node].right == NULL && mem[node].parent == NULL
      ensures mem[node].key == 0 && mem[node].data == NULL
    {
      hide Holds, HoldsPath, PathNodes, SeparatePath, Nodes, InOrder, Separate, Linked, Plug;
      LinksAt(mem, sentinel, root, q, u);
      BypassLinked(mem, sentinel, root, q, u, ch);
      BypassUnlinks(mem, sentinel, root, q, u, ch);
      Bypass(node, temp, q.node, q.dir);
      mem := mem[temp := mem[temp].(parent := mem[node].parent)];
      InitNode(node);
      assert mem == BypassedMemory(old(mem), sentinel, q, node, ch);
    }

    /** Lines 260-300 when `subst` is the successor of the node. */
    method TakePlace(node: Addr, subst: Addr, temp: Addr, ghost q: Path<Addr>, ghost l: Tree<Addr>, ghost c: Color,
                     ghost p: Path<Addr>, ghost cs: Color, ghost sr: Tree<Addr>)
      requires Linked(mem, sentinel, root, Plug(q, WithSuccessor(l, node, c, p, subst, cs, sr)))
      requires l.Branch? && Leftmost(p) && temp == Ptr(sr, sentinel)
      modifies `mem, `root
      ensures Linked(mem, sentinel, root, Plug(q, Branch(l, subst, c, Plug(p, sr))))
      ensures temp in mem && mem[temp].parent == if p.Down? then p.node else subst
      ensures Unlinks(old(mem), mem, Nodes(Plug(q, WithSuccessor(l, node, c, p, subst, cs, sr))), node, sentinel)
      ensures node in old(mem) && node in mem && mem[node].color == old(mem)[node].color
      ensures mem[node].left == NULL && mem[node].right == NULL && mem[node].parent == NULL
      ensures mem[node].key == 0 && mem[node].data == NULL
    {
      hide Holds, HoldsPath, PathNodes, SeparatePath, Nodes, InOrder, Separate, Linked, Plug, Unlinks;
      SpliceParts(mem, sentinel, root, q, l, node, c, p, subst, cs, sr);
      LinksAt(mem, sentinel, root, q, WithSuccessor(l, node, c, p, subst, cs, sr));
      SpliceLinked(mem, sentinel, root, q, l, node, c, p, subst, cs, sr);
      SpliceUnlinks(mem, sentinel, root, q, l, node, c, p, subst, cs, sr);
      MoveLinks(node, subst, temp, q, l, p, Ptr(Plug(p, sr), sentinel));
      UnlinkedNode(old(mem), mem, Nodes(Plug(q, WithSuccessor(l, node, c, p, subst, cs, sr))), node, sentinel);
    }

    method MoveLinks(node: Addr, subst: Addr, temp: Addr, ghost q: Path<Addr>, ghost l: Tree<Addr>,
                     ghost p: Path<Addr>, ghost top: Addr)
      requires l.Branch? && l.node != sentinel && (q.Top? <==> root == node)
      requires SpliceApart(mem, q, l.node, node, p, subst, temp, top)
      requires mem[node].left == l.node
      requires p.Down? ==>
                 top != sentinel && mem[node].right == top && mem[subst].parent == p.node && mem[p.node].left == subst
      requires p.Top? ==> mem[node].right == subst && mem[subst].parent == node
      requires q.Down? ==>
                 && mem[node].parent == q.node && mem[q.node].Child(q.dir) == node
                 && mem[q.node].Child(q.dir.Other()) != node
      requires p.Down? ==> mem[p.node].right != subst
      modifies `mem, `root
      ensures mem == SplicedMemory(old(mem), sentinel, q, node, p, subst, temp, top)
      ensures root == if q.Top? then subst else old(root)
    {
      LinkTemp(node, subst, temp, p);
      CopyLinks(node, subst);
      Supplant(node, subst, q);
      AdoptChildren(subst);
      InitNode(node);
    }

    /** Lines 260-274: `temp` takes the place of `subst`. */
    method LinkTemp(node: Addr, subst: Addr, temp: Addr, ghost p: Path<Addr>)
      requires node in mem && subst in mem && temp in mem && temp != subst && node != subst && temp != node
      requires p.Down? ==>
                 && p.node in mem && p.node != subst && p.node != node
                 && mem[subst].parent == p.node && mem[p.node].left == subst && mem[p.node].right != subst
      requires p.Top? ==> mem[subst].parent == node && mem[node].right == subst && mem[node].left != subst
      modifies `mem
      ensures var m1 := if p.Down? then old(mem)[p.node := old(mem)[p.node].(left := temp)]
                        else old(mem)[node := old(mem)[node].(right := temp)];
              mem == m1[temp := m1[temp].(parent := if p.Down? then p.node else subst)]
    {
      Bypass(subst, temp, if p.Down? then p.node else node, if p.Down? then Left else Right);
      if mem[subst].parent == node {
        mem := mem[temp := mem[temp].(parent := subst)];
      } else {
        mem := mem[temp := mem[temp].(parent := mem[subst].parent)];
      }
    }

    /** Lines 276-279. */
    method CopyLinks(node: Addr, subst: Addr)
      requires node in mem && subst in mem && node != subst
      modifies `mem
      ensures var n, m := old(mem)[node], old(mem);
              mem == m[subst := m[subst].(left := n.left, right := n.right, parent := n.parent, color := n.color)]
    {
      mem := mem[subst := mem[subst].(left := mem[node].left)];
      mem := mem[subst := mem[subst].(right := mem[node].right)];
      mem := mem[subst := mem[subst].(parent := mem[node].parent)];
      mem := mem[subst := mem[subst].(color := mem[node].color)];
    }

    /** Lines 281-289: whatever pointed at the node points at `subst`. */
    method Supplant(node: Addr, subst: Addr, ghost q: Path<Addr>)
      requires node in mem && (q.Top? <==> root == node)
      requires q.Down? ==> q.node in mem && mem[node].parent == q.node
      requires q.Down? ==> mem[q.node].Child(q.dir) == node && mem[q.node].Child(q.dir.Other()) != node
      modifies `mem, `root
      ensures mem == if q.Down? then old(mem)[q.node := old(mem)[q.node].WithChild(q.dir, subst)] else old(mem)
      ensures root == if q.Top? then subst else old(root)
    {
      if node == root {
        root := subst;
      } else if node == mem[mem[node].parent].left {
        mem := mem[mem[node].parent := mem[mem[node].parent].(left := subst)];
      } else {
        mem := mem[mem[node].parent := mem[mem[node].parent].(right := subst)];
      }
    }

    /** Lines 291-297. */
    method AdoptChildren(subst: Addr)
      requires subst in mem && mem[subst].left in mem && mem[subst].right in mem
      requires mem[subst].left != subst && mem[subst].left != sentinel
      modifies `mem
      ensures var l, r := old(mem)[subst].left, old(mem)[subst].right;
              var m1 := old(mem)[l := old(mem)[l].(parent := subst)];
              mem == if r != sentinel then m1[r := m1[r].(parent := subst)] else m1
    {
      if mem[subst].left != sentinel {
        mem := mem[mem[subst].left := mem[mem[subst].left].(parent := subst)];
      }
      if mem[subst].right != sentinel {
        mem := mem[mem[subst].right := mem[mem[subst].right].(parent := subst)];
      }
    }

    /** The delete fixup: lines 308-368. */
    method DeleteFixup(start: Addr, ghost q: Path<Addr>, ghost u: Tree<Addr>,
                       ghost g: nat) returns (ghost w: Tree<Addr>)
      requires Linked(mem, sentinel, root, Plug(q, u)) && ShortAt(mem, sentinel, q, u, g, start)
      modifies `mem, `root, `rotations
      ensures Linked(mem, sentinel, root, w) && RedBlack(w)
      ensures Reshapes(old(mem), Plug(q, u), mem, w)
      ensures rotations <= old(rotations) + 3
    {
      hide Holds, HoldsPath, PathNodes, SeparatePath, Nodes, InOrder, Separate, Linked, Reshapes, RedBlack, Short;
      var temp := start;
      ghost var p, t, h := q, u, g;
      w := Plug(q, u);
      ReshapesRefl(mem, w);
      LinksAt(mem, sentinel, root, p, t);
      while temp != root && mem[temp].color.Black?
        invariant Linked(mem, sentinel, root, Plug(p, t)) && ShortAt(mem, sentinel, p, t, h, temp)
        invariant temp in mem && (temp == root <==> p.Top?)
        invariant mem[temp].color == if IsRed(t) then Red else Black
        invariant Reshapes(old(mem), w, mem, Plug(p, t))
        invariant rotations <= old(rotations) + 3
        invariant p.Down? && !IsRed(t) ==> rotations == old(rotations)
        decreases if IsRed(t) then 0 else 1 + Depth(p)
      {
        LinksAt(mem, sentinel, root, p, t);
        SiblingExists(p, t, h);
        ghost var m1, t1 := mem, Plug(p, t);
        if temp == mem[mem[temp].parent].left {
          temp, p, t, h := DeleteFixupLeft(temp, p, t, h);
        } else {
          temp, p, t, h := DeleteFixupRight(temp, p, t, h);
        }
        ReshapesTrans(old(mem), w, m1, t1, mem, Plug(p, t));
        LinksAt(mem, sentinel, root, p, t);
      }
      BlackenLinked(mem, sentinel, root, p, t);
      DeleteStop(p, t, h);
      ghost var m2 := mem;
      mem := mem[temp := mem[temp].(color := Black)];
      ReshapesTrans(old(mem), w, m2, Plug(p, t), mem, Plug(p, Blacken(t)));
      w := Plug(p, Blacken(t));
    }

    /** Lines 234-247: `subst` is the node to unhook and `temp` its only child.
        It is found at `v` below `p`, where `p` starts at the right child of the
        node when `subst` is the successor. */
    method SelectSubst(node: Addr, ghost q: Path<Addr>, ghost u: Tree<Addr>)
      returns (subst: Addr, temp: Addr, ghost p: Path<Addr>, ghost v: Tree<Addr>, ghost ch: Tree<Addr>)
      requires Linked(mem, sentinel, root, Plug(q, u)) && u.Branch? && u.node == node
      ensures OnlyChild(v, ch) && v.node == subst && temp == Ptr(ch, sentinel)
      ensures subst in mem && mem[subst].color == v.color
      ensures u.left.Leaf? || u.right.Leaf? ==> v == u && p == Top && subst == node && (root == subst <==> q.Top?)
      ensures u.left.Branch? && u.right.Branch? ==>
                && Leftmost(p) && v.left.Leaf? && v.right == ch && subst != node && subst != root
                && u == WithSuccessor(u.left, node, u.color, p, subst, v.color, ch)
    {
      hide Holds, HoldsPath, PathNodes, SeparatePath, Nodes, InOrder, Separate, Linked;
      LinksAt(mem, sentinel, root, q, u);
      ghost var r := Down(Right, node, u.color, u.left, q);
      LinksAt(mem, sentinel, root, r, u.right);
      LinksAt(mem, sentinel, root, Down(Left, node, u.color, u.right, q), u.left);
      if mem[node].left == sentinel {
        temp := mem[node].right;
        subst := node;
        p, v, ch := Top, u, u.right;
      } else if mem[node].right == sentinel {
        temp := mem[node].left;
        subst := node;
        p, v, ch := Top, u, u.left;
      } else {
        subst, p, v := NodeMin(mem[node].right, r, u.right);
        ch := v.right;
        LinksAt(mem, sentinel, root, Extend(p, r), v);
        SuccessorDistinct(mem, sentinel, root, q, u, p, v);
        temp := ChildOf(subst);
      }
    }

    /** Lines 242-246. */
    method ChildOf(subst: Addr) returns (temp: Addr)
      requires subst in mem
      ensures temp == if mem[subst].left != sentinel then mem[subst].left else mem[subst].right
    {
      if mem[subst].left != sentinel {
        temp := mem[subst].left;
      } else {
        temp := mem[subst].right;
      }
    }

    /** Lines 249-256: the root had at most one child. */
    method DeleteRoot(node: Addr, temp: Addr, ghost ch: Tree<Addr>)
      requires Valid() && OnlyChild(shape, ch) && shape.node == node && temp == Ptr(ch, sentinel)
      modifies this
      ensures Valid()
      ensures Nodes(shape) == old(Nodes(shape)) - {node}
      ensures Removed(old(InOrder(shape)), node, InOrder(shape))
      ensures Unlinks(old(mem), mem, old(Nodes(shape)), node, sentinel)
      ensures node in old(mem) && node in mem && mem[node].color == old(mem)[node].color
      ensures mem[node].left == NULL && mem[node].right == NULL && mem[node].parent == NULL
      ensures mem[node].key == 0 && mem[node].data == NULL
      ensures rotations == old(rotations)
    {
      hide Linked, RedBlack, KeysSorted, Removed, Unlinks, Nodes, InOrder;
      RootOutLinked(mem, sentinel, root, shape, ch);
      RemoveRootBalance(shape, ch);
      DeleteRootSummary(mem, sentinel, root, shape, ch);
      root := temp;
      mem := mem[temp := mem[temp].(color := Black)];
      InitNode(node);
      shape := Blacken(ch);
      UnlinkedNode(old(mem), mem, old(Nodes(shape)), node, sentinel);
    }

    /** `rbtree_delete`. Nodes are relinked, never copied. Nothing is known about
        the parent link of the root, so it cannot be followed, and a sibling that
        was the sentinel would have no children to look at. */
    method Delete(node: Addr)
      requires Valid() && node in Nodes(shape)
      modifies this
      ensures Valid()
      ensures Nodes(shape) == old(Nodes(shape)) - {node}
      ensures Removed(old(InOrder(shape)), node, InOrder(shape))
      ensures Unlinks(old(mem), mem, old(Nodes(shape)), node, sentinel)
      ensures node in old(mem) && node in mem && mem[node].color == old(mem)[node].color
      ensures mem[node].left == NULL && mem[node].right == NULL && mem[node].parent == NULL
      ensures mem[node].key == 0 && mem[node].data == NULL
      ensures rotations <= old(rotations) + 3
    {
      hide Holds, HoldsPath, PathNodes, SeparatePath, Nodes, InOrder, Separate, Linked, RedBlack, KeysSorted,
           Reshapes, Short, Plug, Removed, Unlinks;
      ghost var at := Locate(shape, node, Top);
      ghost var q, u, w := at.0, at.1, shape;
      PlugTop(shape);
      var subst, temp, p, v, ch := SelectSubst(node, q, u);
      LinksAt(mem, sentinel, root, q, u);
      LinkedSeparate(mem, sentinel, root, shape);
      if subst == root {
        PlugTop(u);
        DeleteRoot(node, temp, ch);
        return;
      }
      var red := mem[subst].color.Red?;
      ghost var p', h;
      if subst == node {
        p' := q;
        h := TakeOutBalance(q, u, ch);
        TakeOutOrder(q, u, ch);
        TakeOut(node, temp, q, u, ch);
      } else {
        p' := Extend(p, Down(Right, subst, u.color, u.left, q));
        h := TakePlaceBalance(q, u, p, subst, v, ch);
        TakePlaceOrder(q, u.left, node, u.color, p, subst, v.color, ch);
        TakePlace(node, subst, temp, q, u.left, u.color, p, v.color, ch);
        ExtendDown(p, Down(Right, subst, u.color, u.left, q));
      }
      ghost var m1 := mem;
      shape := Plug(p', ch);
      ReshapesRefl(mem, shape);
      if !red {
        ghost var w' := DeleteFixup(temp, p', ch, h);
        shape := w';
      }
      DeleteSummary(old(mem), w, m1, Plug(p', ch), mem, shape, sentinel, old(root), node);
      UnlinkedNode(old(mem), mem, Nodes(w), node, sentinel);
    }

    // ------------------------------------------------------------------ lookup

    /** `rbtree_lookup`. The loop ends at a NULL below the sentinel, so the
        sentinel itself answers for key 0. `seen` are the nodes of the tree that
        were looked at: a path from the root, led by the keys. */
    method Lookup(key: Int64) returns (node: Addr, ghost seen: seq<Addr>)
      requires Valid()
      ensures HasKey(mem, shape, key) ==> node in Nodes(shape) && node in mem && mem[node].key == key
      ensures !HasKey(mem, shape, key) ==> node == if key == 0 then sentinel else NULL
      ensures SearchEnds(mem, sentinel, root, key, seen, node)
      ensures Pow2(|seen|) <= (|InOrder(shape)| + 1) * (|InOrder(shape)| + 1)
    {
      hide Holds, HoldsPath, PathNodes, SeparatePath, Nodes, InOrder, Separate, Linked, RedBlack, KeysSorted,
           HasKey, Pow2, Height, SearchIsAt, SearchEnds;
      node := root;
      seen := [];
      SearchStarts(mem, sentinel, root, key);
      ghost var q: Path<Addr>, t := Top, shape;
      LinksAt(mem, sentinel, root, q, t);
      while node != NULL
        invariant Plug(q, t) == shape
        invariant Straddled(mem, q, key)
        invariant node != NULL ==> node == Ptr(t, sentinel)
        invariant node == NULL ==> t.Leaf? && key != 0
        invariant |seen| == Depth(q) && SearchIsAt(mem, sentinel, root, key, seen, Ptr(t, sentinel))
        decreases t, node != NULL
      {
        LinksAt(mem, sentinel, root, q, t);
        if t.Branch? {
          LookupStep(mem, q, t, key);
          LinksAt(mem, sentinel, root, Down(Left, node, t.color, t.right, q), t.left);
          LinksAt(mem, sentinel, root, Down(Right, node, t.color, t.left, q), t.right);
          SearchOn(mem, sentinel, root, key, seen, node);
          seen := seen + [node];
        }
        if mem[node].key == key {
          if t.Branch? {
            LookupHit(mem, q, t, key);
          } else {
            LookupMiss(mem, q, key);
          }
          SearchStops(mem, sentinel, root, key, seen, node);
          InspectBound(q, t, |seen|);
          return;
        } else if mem[node].key > key {
          node := mem[node].left;
          q, t := if t.Branch? then Down(Left, t.node, t.color, t.right, q) else q, if t.Branch? then t.left else t;
        } else {
          node := mem[node].right;
          q, t := if t.Branch? then Down(Right, t.node, t.color, t.left, q) else q, if t.Branch? then t.right else t;
        }
      }
      LookupMiss(mem, q, key);
      SearchStops(mem, sentinel, root, key, seen, node);
      InspectBound(q, t, |seen|);
    }

    /** `rbtree_min`. */
    method Min() returns (node: Addr)
      requires Valid()
      ensures node == if shape.Leaf? then NULL else InOrder(shape)[0]
      ensures shape.Branch? ==> forall n :: n in Nodes(shape) ==> n in mem && node in mem && mem[node].key <= mem[n].key
    {
      hide Holds, HoldsPath, Nodes, Separate, Linked, RedBlack, KeysSorted, InOrder;
      LinksAt(mem, sentinel, root, Top, shape);
      if root == sentinel {
        return NULL;
      }
      ghost var p, v;
      node, p, v := NodeMin(root, Top, shape);
      LeastFirst(mem, shape, p, v);
    }
  }
}
