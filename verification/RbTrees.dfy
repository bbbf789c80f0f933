/** The intrusive red-black tree of common/rb_tree.c, updated in place. */
module RbTrees {
  import opened Orders
  import opened Trees
  import opened RbShape

  class RbTree {
    var mem: Memory
    var root: Ptr
    var count: nat
    ghost var tree: RbT

    /** Memory holds a red-black tree with `count` nodes and consistent parent links. */
    ghost predicate Valid()
      reads this
    {
      Sits(mem, root, Top, tree) && RedBlack(tree) && count == Size(tree)
    }

    /** The link from `parent` (or the tree root) to `node` is redirected to `heir`. */
    method ReplaceChild(parent: Ptr, node: Ptr, heir: Ptr, ghost c: RbCtx)
      requires parent == UpId(c) && (c.Top? || (parent != NULL && parent in mem))
      requires c.InLeft? ==> mem[parent].left == node
      requires c.InRight? ==> mem[parent].left != node
      modifies this`mem, this`root
      ensures mem == Hang(old(mem), c, heir) && root == if c.Top? then heir else old(root)
    {
      if parent != NULL {
        if mem[parent].left == node {
          mem := SetLeft(mem, parent, heir);
        } else {
          mem := SetRight(mem, parent, heir);
        }
      } else {
        root := heir;
      }
    }

    method RotateLeft(node: Ptr, ghost c: RbCtx, ghost t: RbT)
      requires Sits(mem, root, c, t) && t.Node? && t.id == node && t.right.Node?
      modifies this`mem, this`root
      ensures Sits(mem, root, c, RotatedLeft(t))
      ensures SameNodes(Plug(c, RotatedLeft(t)), Plug(c, t))
      ensures OnlyIn(old(mem), mem, Ids(Plug(c, t)))
    {
      assert Rep(mem, node, t.right) && Distinct(t.right)
        && (t.right.left.Node? ==> Rep(mem, t.right.id, t.right.left));
      LeftRotationCells(mem, root, c, t);
      TurnLeft(node, c, t);
      LeftRotationSits(old(mem), mem, old(root), root, c, t);
      PlugRotatedLeft(c, t);
    }

    /** The writes of the left rotation. */
    method TurnLeft(node: Ptr, ghost c: RbCtx, ghost t: RbT)
      requires Sits(mem, root, c, t) && LeftLinked(mem, c, t) && t.id == node
      modifies this`mem, this`root
      ensures mem == LeftRotation(old(mem), c, t) && root == if c.Top? then t.right.id else old(root)
    {
      assert Rep(mem, node, t.right) && Distinct(t.right)
        && (t.right.left.Node? ==> Rep(mem, t.right.id, t.right.left));
      var parent, right := mem[node].parent, mem[node].right;
      mem := SetRight(mem, node, mem[right].left);
      if mem[right].left != NULL {
        mem := SetParent(mem, mem[right].left, node);
      }
      mem := SetLeft(mem, right, node);
      mem := SetParent(mem, node, right);
      ReplaceChild(parent, node, right, c);
      mem := SetParent(mem, right, parent);
    }

    method RotateRight(node: Ptr, ghost c: RbCtx, ghost t: RbT)
      requires Sits(mem, root, c, t) && t.Node? && t.id == node && t.left.Node?
      modifies this`mem, this`root
      ensures Sits(mem, root, c, RotatedRight(t))
      ensures SameNodes(Plug(c, RotatedRight(t)), Plug(c, t))
      ensures OnlyIn(old(mem), mem, Ids(Plug(c, t)))
    {
      assert Rep(mem, node, t.left) && Distinct(t.left) && (t.left.right.Node? ==> Rep(mem, t.left.id, t.left.right));
      RightRotationCells(mem, root, c, t);
      TurnRight(node, c, t);
      RightRotationSits(old(mem), mem, old(root), root, c, t);
      PlugRotatedRight(c, t);
    }

    /** The writes of the right rotation. */
    method TurnRight(node: Ptr, ghost c: RbCtx, ghost t: RbT)
      requires Sits(mem, root, c, t) && RightLinked(mem, c, t) && t.id == node
      modifies this`mem, this`root
      ensures mem == RightRotation(old(mem), c, t) && root == if c.Top? then t.left.id else old(root)
    {
      assert Rep(mem, node, t.left) && Distinct(t.left) && (t.left.right.Node? ==> Rep(mem, t.left.id, t.left.right));
      var parent, left := mem[node].parent, mem[node].left;
      mem := SetLeft(mem, node, mem[left].right);
      if mem[left].right != NULL {
        mem := SetParent(mem, mem[left].right, node);
      }
      mem := SetRight(mem, left, node);
      mem := SetParent(mem, node, left);
      ReplaceChild(parent, node, left, c);
      mem := SetParent(mem, left, parent);
    }

    method Paint(x: Ptr, black: bool, ghost c: RbCtx, ghost t: RbT)
      requires Sits(mem, root, c, t) && t.Node? && t.id == x
      modifies this`mem
      ensures mem == SetBlack(old(mem), x, black)
      ensures Sits(mem, root, c, t.(data := black)) && SameNodes(Plug(c, t.(data := black)), Plug(c, t))
      ensures OnlyIn(old(mem), mem, Ids(Plug(c, t)))
    {
      PaintedSits(mem, root, c, t, black);
      mem := SetBlack(mem, x, black);
    }

    /** Red uncle (cases 1A and 1B): the red moves up to the grandparent. */
    method PushRedUp(parent: Ptr, uncle: Ptr, grandparent: Ptr, ghost c: RbCtx, ghost t: RbT) 
      requires Sits(mem, root, c, t) && RedParent(c, t) && uncle == Id(Uncle(c)) && !IsBlack(Uncle(c))
      requires parent == UpId(c) && grandparent == UpId(c.up)
      modifies this`mem
      ensures Sits(mem, root, c.up.up, PushedUp(c, t)) && RedFocus(c.up.up, PushedUp(c, t))
      ensures SameNodes(Plug(c.up.up, PushedUp(c, t)), Plug(c, t))
      ensures OnlyIn(old(mem), mem, Ids(Plug(c, t)))
    {
      PushedUpColours(c, t);
      PlugPushedUp(c, t);
      ghost var p, cp, u := Fill(c, t), c.up, Uncle(c);
      SitsUp(mem, root, c, t);
      SitsUp(mem, root, cp, p);
      Paint(parent, true, cp, p);
      p := p.(data := true);
      SitsUp(mem, root, cp, p);
      ghost var cu := if cp.InLeft? then InRight(p, cp.id, cp.data, cp.up) else InLeft(cp.up, cp.id, cp.data, p);
      SitsUp(mem, root, cu, u);
      Paint(uncle, true, cu, u);
      u := u.(data := true);
      SitsUp(mem, root, cu, u);
      Paint(grandparent, false, cp.up, Fill(cu, u));
    }

    /** Black uncle on the right (cases 2A and 3A): two rotations at most finish the job. */
    method RotateUpRight(node: Ptr, up: Ptr, grandparent: Ptr, ghost c: RbCtx, ghost t: RbT)
      requires Sits(mem, root, c, t) && RedParent(c, t) && IsBlack(Uncle(c)) && c.up.InLeft?
      requires node == t.id && up == UpId(c) && grandparent == UpId(c.up)
      modifies this`mem, this`root, this`tree
      ensures Sits(mem, root, Top, tree) && RedBlack(tree)
      ensures InOrder(tree) == InOrder(Plug(c, t))
      ensures OnlyIn(old(mem), mem, Ids(Plug(c, t)))
    {
      RaisedLeft(c, t);
      var parent := up;
      ghost var p, cp, cg := Fill(c, t), c.up, c.up.up;
      SitsUp(mem, root, c, t);
      if node == mem[parent].right {
        RotateLeft(parent, cp, p);
        p := RotatedLeft(p);
        parent := node;
      }
      ghost var g := Fill(cp, p);
      SitsUp(mem, root, cp, p);
      Paint(grandparent, false, cg, g);
      cp := InLeft(cg, cp.id, false, cp.right);
      SitsUp(mem, root, cp, p);
      Paint(parent, true, cp, p);
      p := p.(data := true);
      SitsUp(mem, root, cp, p);
      g := Fill(cp, p);
      RotateRight(grandparent, cg, g);
      tree := Plug(cg, RotatedRight(g));
      SitsPlug(mem, root, cg, RotatedRight(g));
      PlugRedBlack(cg, RotatedRight(g));
      PlugInOrder(cg, RotatedRight(g));
    }

    /** Black uncle on the left (cases 2B and 3B). */
    method RotateUpLeft(node: Ptr, up: Ptr, grandparent: Ptr, ghost c: RbCtx, ghost t: RbT)
      requires Sits(mem, root, c, t) && RedParent(c, t) && IsBlack(Uncle(c)) && c.up.InRight?
      requires node == t.id && up == UpId(c) && grandparent == UpId(c.up)
      modifies this`mem, this`root, this`tree
      ensures Sits(mem, root, Top, tree) && RedBlack(tree)
      ensures InOrder(tree) == InOrder(Plug(c, t))
      ensures OnlyIn(old(mem), mem, Ids(Plug(c, t)))
    {
      RaisedRight(c, t);
      var parent := up;
      ghost var p, cp, cg := Fill(c, t), c.up, c.up.up;
      SitsUp(mem, root, c, t);
      if node == mem[parent].left {
        RotateRight(parent, cp, p);
        p := RotatedRight(p);
        parent := node;
      }
      ghost var g := Fill(cp, p);
      SitsUp(mem, root, cp, p);
      Paint(grandparent, false, cg, g);
      cp := InRight(cp.left, cp.id, false, cg);
      SitsUp(mem, root, cp, p);
      Paint(parent, true, cp, p);
      p := p.(data := true);
      SitsUp(mem, root, cp, p);
      g := Fill(cp, p);
      RotateLeft(grandparent, cg, g);
      tree := Plug(cg, RotatedLeft(g));
      SitsPlug(mem, root, cg, RotatedLeft(g));
      PlugRedBlack(cg, RotatedLeft(g));
      PlugInOrder(cg, RotatedLeft(g));
    }

    method InsertColor(node: Ptr, ghost c0: RbCtx, ghost t0: RbT)
      requires Sits(mem, root, c0, t0) && RedFocus(c0, t0) && t0.id == node
      modifies this`mem, this`root, this`tree
      ensures Sits(mem, root, Top, tree) && RedBlack(tree)
      ensures InOrder(tree) == InOrder(Plug(c0, t0))
      ensures OnlyIn(old(mem), mem, Ids(Plug(c0, t0)))
    {
      var n := node;
      ghost var c, t := c0, t0;
      FocusInMemory(mem, root, c, t);
      var parent := mem[n].parent;
      while parent != NULL && !mem[parent].black
        invariant Sits(mem, root, c, t) && RedFocus(c, t) && t.id == n && parent == UpId(c) && (c.Top? || c.id in mem)
        invariant SameNodes(Plug(c, t), Plug(c0, t0))
        invariant OnlyIn(old(mem), mem, Ids(Plug(c0, t0)))
        decreases c
      {
        var again, grandparent := InsertStep(n, parent, c, t);
        if !again {
          return;
        }
        n, c, t := grandparent, c.up.up, PushedUp(c, t);
        FocusInMemory(mem, root, c, t);
        RepCtxInMemory(mem, root, c, n);
        parent := mem[n].parent;
      }
      RepCtxInMemory(mem, root, c, n);
      BlackenRoot(c, t);
    }

    /** One pass of the loop: the red moves up, or rotations end it. */
    method InsertStep(n: Ptr, parent: Ptr, ghost c: RbCtx, ghost t: RbT) returns (again: bool, grandparent: Ptr)
      requires Sits(mem, root, c, t) && RedFocus(c, t) && t.id == n && parent == UpId(c)
      requires !c.Top? && c.id in mem && !mem[parent].black
      modifies this`mem, this`root, this`tree
      ensures OnlyIn(old(mem), mem, Ids(Plug(c, t)))
      ensures again ==>
        && !c.up.Top? && grandparent == c.up.id && RedParent(c, t) && Uncle(c).Node?
        && Sits(mem, root, c.up.up, PushedUp(c, t)) && RedFocus(c.up.up, PushedUp(c, t))
        && SameNodes(Plug(c.up.up, PushedUp(c, t)), Plug(c, t))
      ensures !again ==> Sits(mem, root, Top, tree) && RedBlack(tree) && InOrder(tree) == InOrder(Plug(c, t))
    {
      GrandparentInMemory(mem, root, c, t);
      grandparent := mem[parent].parent;
      again := false;
      if parent == mem[grandparent].left {
        var uncle := mem[grandparent].right;
        if uncle != NULL && !mem[uncle].black {
          PushRedUp(parent, uncle, grandparent, c, t);
          again := true;
        } else {
          RotateUpRight(n, parent, grandparent, c, t);
        }
      } else {
        var uncle := mem[grandparent].left;
        if uncle != NULL && !mem[uncle].black {
          PushRedUp(parent, uncle, grandparent, c, t);
          again := true;
        } else {
          RotateUpLeft(n, parent, grandparent, c, t);
        }
      }
    }

    method BlackenRoot(ghost c: RbCtx, ghost t: RbT)
      requires Sits(mem, root, c, t) && RedFocus(c, t) && UpBlack(c)
      modifies this`mem, this`tree
      ensures Sits(mem, root, Top, tree) && RedBlack(tree)
      ensures InOrder(tree) == InOrder(Plug(c, t))
      ensures OnlyIn(old(mem), mem, Ids(Plug(c, t)))
    {
      SitsPlug(mem, root, c, t);
      tree := Plug(c, t);
      PlugInOrder(c, t);
      PlugDistinct(c, t);
      if !c.Top? {
        PlugRedBlack(c, t);
      }
      Paint(root, true, Top, tree);
      tree := Black(tree);
    }

    /** Red sibling on the right (case 1A). */
    method LowerLeft(parent: Ptr, sibling: Ptr, ghost c: RbCtx, ghost t: RbT)
      requires Sits(mem, root, c, t) && c.InLeft? && c.right.Node?
      requires parent == c.id && sibling == c.right.id
      modifies this`mem, this`root
      ensures Sits(mem, root, Lowered(c), t) && SameNodes(Plug(Lowered(c), t), Plug(c, t))
      ensures OnlyIn(old(mem), mem, Ids(Plug(c, t)))
    {
      ghost var s, up := c.right, c.up;
      SitsUp(mem, root, c, t);
      Paint(parent, false, up, Fill(c, t));
      ghost var cs := InRight(t, parent, false, up);
      SitsUp(mem, root, cs, s);
      Paint(sibling, true, cs, s);
      SitsUp(mem, root, cs, Black(s));
      RotateLeft(parent, up, Fill(cs, Black(s)));
      SitsUp(mem, root, Lowered(c), t);
      SitsUp(mem, root, Lowered(c).up, Fill(Lowered(c), t));
    }

    /** Red sibling on the left (case 1B). */
    method LowerRight(parent: Ptr, sibling: Ptr, ghost c: RbCtx, ghost t: RbT)
      requires Sits(mem, root, c, t) && c.InRight? && c.left.Node?
      requires parent == c.id && sibling == c.left.id
      modifies this`mem, this`root
      ensures Sits(mem, root, Lowered(c), t) && SameNodes(Plug(Lowered(c), t), Plug(c, t))
      ensures OnlyIn(old(mem), mem, Ids(Plug(c, t)))
    {
      ghost var s, up := c.left, c.up;
      SitsUp(mem, root, c, t);
      ghost var cs := InLeft(up, parent, c.data, t);
      SitsUp(mem, root, cs, s);
      Paint(sibling, true, cs, s);
      SitsUp(mem, root, cs, Black(s));
      Paint(parent, false, up, Fill(cs, Black(s)));
      RotateRight(parent, up, Node(Black(s), parent, false, t));
      SitsUp(mem, root, Lowered(c), t);
      SitsUp(mem, root, Lowered(c).up, Fill(Lowered(c), t));
    }

    /** Black nephews (cases 2A and 2B). */
    method RedSiblings(sibling: Ptr, ghost c: RbCtx, ghost t: RbT)
      requires Sits(mem, root, c, t) && !c.Top? && Sibling(c).Node? && sibling == Sibling(c).id
      modifies this`mem
      ensures mem == SetBlack(old(mem), sibling, false)
      ensures Sits(mem, root, c.up, Fill(RedSibling(c), t))
      ensures SameNodes(Plug(c.up, Fill(RedSibling(c), t)), Plug(c, t))
      ensures OnlyIn(old(mem), mem, Ids(Plug(c, t)))
    {
      ghost var s := Sibling(c);
      ghost var cs := if c.InLeft? then InRight(t, c.id, c.data, c.up) else InLeft(c.up, c.id, c.data, t);
      SitsUp(mem, root, c, t);
      SitsUp(mem, root, cs, s);
      Paint(sibling, false, cs, s);
      SitsUp(mem, root, cs, Node(s.left, s.id, false, s.right));
    }

    /** Two colours are swapped by three XORs. */
    method SwapColours(x: Ptr, y: Ptr)
      requires x in mem && y in mem && x != y
      modifies this`mem
      ensures mem == SetBlack(SetBlack(old(mem), x, old(mem)[y].black), y, old(mem)[x].black)
    {
      mem := SetBlack(mem, x, mem[x].black != mem[y].black);
      mem := SetBlack(mem, y, mem[x].black != mem[y].black);
      mem := SetBlack(mem, x, mem[x].black != mem[y].black);
    }

    method ExchangeColours(parent: Ptr, sibling: Ptr, ghost c: RbCtx, ghost t: RbT)
      requires Sits(mem, root, c, t) && !c.Top? && Sibling(c).Node?
      requires parent == c.id && sibling == Sibling(c).id && parent in mem && sibling in mem
      requires mem[parent].black == c.data && mem[sibling].black == Sibling(c).data
      modifies this`mem
      ensures Sits(mem, root, Exchanged(c), t) && SameNodes(Plug(Exchanged(c), t), Plug(c, t))
      ensures OnlyIn(old(mem), mem, Ids(Plug(c, t)))
    {
      assert sibling in Ids(Sibling(c));
      ExchangedSits(mem, root, c, t);
      PlugDistinct(c, t);
      SwapColours(parent, sibling);
    }

    /** Red inner nephew (case 3A). */
    method StraightenLeft(sibling: Ptr, ghost c: RbCtx, ghost t: RbT)
      requires Sits(mem, root, c, t) && c.InLeft? && c.right.Node? && c.right.left.Node?
      requires sibling == c.right.id
      modifies this`mem, this`root
      ensures Sits(mem, root, Straightened(c), t) && SameNodes(Plug(Straightened(c), t), Plug(c, t))
      ensures OnlyIn(old(mem), mem, Ids(Plug(c, t)))
    {
      ghost var s, n := c.right, c.right.left;
      ghost var cs := InRight(t, c.id, c.data, c.up);
      SitsUp(mem, root, c, t);
      SitsUp(mem, root, cs, s);
      Paint(sibling, false, cs, s);
      SitsUp(mem, root, InLeft(cs, s.id, false, s.right), n);
      Paint(mem[sibling].left, true, InLeft(cs, s.id, false, s.right), n);
      SitsUp(mem, root, InLeft(cs, s.id, false, s.right), Black(n));
      RotateRight(sibling, cs, Node(Black(n), s.id, false, s.right));
      SitsUp(mem, root, cs, RotatedRight(Node(Black(n), s.id, false, s.right)));
      SitsUp(mem, root, Straightened(c), t);
    }

    /** The outer nephew of a focus on the left turns black; the focus of the proof moves to the parent. */
    method BlackenOuterLeft(sibling: Ptr, ghost x: RbCtx, ghost t: RbT)
      requires Sits(mem, root, x, t) && x.InLeft? && x.right.Node? && x.right.right.Node? && sibling == x.right.id
      modifies this`mem
      ensures var s := x.right; var p := Node(t, x.id, x.data, Node(s.left, s.id, s.data, Black(s.right)));
        Sits(mem, root, x.up, p) && SameNodes(Plug(x.up, p), Plug(x, t))
      ensures OnlyIn(old(mem), mem, Ids(Plug(x, t)))
    {
      ghost var s := x.right;
      ghost var cs := InRight(t, x.id, x.data, x.up);
      ghost var co := InRight(s.left, s.id, s.data, cs);
      SitsUp(mem, root, x, t);
      SitsUp(mem, root, cs, s);
      SitsUp(mem, root, co, s.right);
      Paint(mem[sibling].right, true, co, s.right);
      SitsUp(mem, root, co, Black(s.right));
      SitsUp(mem, root, cs, Fill(co, Black(s.right)));
    }

    method BlackenOuterRight(sibling: Ptr, ghost x: RbCtx, ghost t: RbT)
      requires Sits(mem, root, x, t) && x.InRight? && x.left.Node? && x.left.left.Node? && sibling == x.left.id
      modifies this`mem
      ensures var s := x.left; var p := Node(Node(Black(s.left), s.id, s.data, s.right), x.id, x.data, t);
        Sits(mem, root, x.up, p) && SameNodes(Plug(x.up, p), Plug(x, t))
      ensures OnlyIn(old(mem), mem, Ids(Plug(x, t)))
    {
      ghost var s := x.left;
      ghost var cs := InLeft(x.up, x.id, x.data, t);
      ghost var co := InLeft(cs, s.id, s.data, s.right);
      SitsUp(mem, root, x, t);
      SitsUp(mem, root, cs, s);
      SitsUp(mem, root, co, s.left);
      Paint(mem[sibling].left, true, co, s.left);
      SitsUp(mem, root, co, Black(s.left));
      SitsUp(mem, root, cs, Fill(co, Black(s.left)));
    }

    /** Red outer nephew (case 4A): colours of parent and sibling are swapped by three XORs. */
    method SettleLeft(parent: Ptr, sibling: Ptr, ghost c: RbCtx, ghost t: RbT)
      requires Sits(mem, root, c, t) && Short(c, t) && IsBlack(t) && c.InLeft?
      requires c.right.Node? && c.right.data && !IsBlack(c.right.right)
      requires parent == c.id && sibling == c.right.id
      modifies this`mem, this`root, this`tree
      ensures Sits(mem, root, Top, tree) && RedBlack(tree) && SameNodes(tree, Plug(c, t))
      ensures OnlyIn(old(mem), mem, Ids(Plug(c, t)))
    {
      SettledColours(c, t);
      SiblingInMemory(mem, root, c, t);
      ExchangeColours(parent, sibling, c, t);
      ghost var s, up := c.right, c.up;
      BlackenOuterLeft(sibling, Exchanged(c), t);
      ghost var p := Node(t, c.id, true, Node(s.left, s.id, c.data, Black(s.right)));
      RotateLeft(parent, up, p);
      ghost var t' := RotatedLeft(p);
      tree := Plug(up, t');
      SitsPlug(mem, root, up, t');
      PlugRedBlack(up, t');
    }

    /** Red inner nephew (case 3B). */
    method StraightenRight(sibling: Ptr, ghost c: RbCtx, ghost t: RbT)
      requires Sits(mem, root, c, t) && c.InRight? && c.left.Node? && c.left.right.Node?
      requires sibling == c.left.id
      modifies this`mem, this`root
      ensures Sits(mem, root, Straightened(c), t) && SameNodes(Plug(Straightened(c), t), Plug(c, t))
      ensures OnlyIn(old(mem), mem, Ids(Plug(c, t)))
    {
      ghost var s, n := c.left, c.left.right;
      ghost var cs := InLeft(c.up, c.id, c.data, t);
      SitsUp(mem, root, c, t);
      SitsUp(mem, root, cs, s);
      Paint(sibling, false, cs, s);
      SitsUp(mem, root, InRight(s.left, s.id, false, cs), n);
      Paint(mem[sibling].right, true, InRight(s.left, s.id, false, cs), n);
      SitsUp(mem, root, InRight(s.left, s.id, false, cs), Black(n));
      RotateLeft(sibling, cs, Node(s.left, s.id, false, Black(n)));
      SitsUp(mem, root, cs, RotatedLeft(Node(s.left, s.id, false, Black(n))));
      SitsUp(mem, root, Straightened(c), t);
    }

    /** Red outer nephew (case 4B): colours of parent and sibling are swapped by three XORs. */
    method SettleRight(parent: Ptr, sibling: Ptr, ghost c: RbCtx, ghost t: RbT)
      requires Sits(mem, root, c, t) && Short(c, t) && IsBlack(t) && c.InRight?
      requires c.left.Node? && c.left.data && !IsBlack(c.left.left)
      requires parent == c.id && sibling == c.left.id
      modifies this`mem, this`root, this`tree
      ensures Sits(mem, root, Top, tree) && RedBlack(tree) && SameNodes(tree, Plug(c, t))
      ensures OnlyIn(old(mem), mem, Ids(Plug(c, t)))
    {
      SettledColours(c, t);
      SiblingInMemory(mem, root, c, t);
      ExchangeColours(parent, sibling, c, t);
      ghost var s, up := c.left, c.up;
      BlackenOuterRight(sibling, Exchanged(c), t);
      ghost var p := Node(Node(Black(s.left), s.id, c.data, s.right), c.id, true, t);
      RotateRight(parent, up, p);
      ghost var t' := RotatedRight(p);
      tree := Plug(up, t');
      SitsPlug(mem, root, up, t');
      PlugRedBlack(up, t');
    }

    /** One pass of the removal fix-up with the focus on the left of its parent (cases 1A to 4A). */
    method FixLeft(node: Ptr, parent: Ptr, ghost c0: RbCtx, ghost t0: RbT)
      returns (done: bool, n: Ptr, up: Ptr, ghost c: RbCtx, ghost t: RbT)
      requires Sits(mem, root, c0, t0) && Short(c0, t0) && IsBlack(t0) && c0.InLeft?
      requires node == Id(t0) && parent == c0.id
      modifies this`mem, this`root, this`tree
      ensures Sits(mem, root, c, t) && SameNodes(Plug(c, t), Plug(c0, t0)) && n == Id(t) && up == UpId(c)
      ensures done ==> c == Top && t == tree && RedBlack(tree)
      ensures !done ==> Short(c, t) && (IsBlack(t) ==> Depth(c) < Depth(c0))
      ensures OnlyIn(old(mem), mem, Ids(Plug(c0, t0)))
    {
      c, t := c0, t0;
      SiblingInMemory(mem, root, c, t);
      var sibling := mem[parent].right;
      if !mem[sibling].black {
        LoweredColours(c, t);
        LowerLeft(parent, sibling, c, t);
        c := Lowered(c);
        SiblingInMemory(mem, root, c, t);
        sibling := mem[parent].right;
      }
      NephewsInMemory(mem, root, c, t);
      if (mem[sibling].left == NULL || mem[mem[sibling].left].black)
         && (mem[sibling].right == NULL || mem[mem[sibling].right].black) {
        PaintedSiblingColours(c, t);
        RedSiblings(sibling, c, t);
        n, c, t := parent, c.up, Fill(RedSibling(c), t);
        FocusInMemory(mem, root, c, t);
        up := mem[n].parent;
        return false, n, up, c, t;
      }
      if mem[sibling].right == NULL || mem[mem[sibling].right].black {
        StraightenedColours(c, t);
        StraightenLeft(sibling, c, t);
        c := Straightened(c);
        SiblingInMemory(mem, root, c, t);
        sibling := mem[parent].right;
      }
      SettleLeft(parent, sibling, c, t);
      return true, root, NULL, Top, tree;
    }

    /** One pass of the removal fix-up with the focus on the right of its parent (cases 1B to 4B). */
    method FixRight(node: Ptr, parent: Ptr, ghost c0: RbCtx, ghost t0: RbT)
      returns (done: bool, n: Ptr, up: Ptr, ghost c: RbCtx, ghost t: RbT)
      requires Sits(mem, root, c0, t0) && Short(c0, t0) && IsBlack(t0) && c0.InRight?
      requires node == Id(t0) && parent == c0.id
      modifies this`mem, this`root, this`tree
      ensures Sits(mem, root, c, t) && SameNodes(Plug(c, t), Plug(c0, t0)) && n == Id(t) && up == UpId(c)
      ensures done ==> c == Top && t == tree && RedBlack(tree)
      ensures !done ==> Short(c, t) && (IsBlack(t) ==> Depth(c) < Depth(c0))
      ensures OnlyIn(old(mem), mem, Ids(Plug(c0, t0)))
    {
      c, t := c0, t0;
      SiblingInMemory(mem, root, c, t);
      var sibling := mem[parent].left;
      if !mem[sibling].black {
        LoweredColours(c, t);
        LowerRight(parent, sibling, c, t);
        c := Lowered(c);
        SiblingInMemory(mem, root, c, t);
        sibling := mem[parent].left;
      }
      NephewsInMemory(mem, root, c, t);
      if (mem[sibling].left == NULL || mem[mem[sibling].left].black)
         && (mem[sibling].right == NULL || mem[mem[sibling].right].black) {
        PaintedSiblingColours(c, t);
        RedSiblings(sibling, c, t);
        n, c, t := parent, c.up, Fill(RedSibling(c), t);
        FocusInMemory(mem, root, c, t);
        up := mem[n].parent;
        return false, n, up, c, t;
      }
      if mem[sibling].left == NULL || mem[mem[sibling].left].black {
        StraightenedColours(c, t);
        StraightenRight(sibling, c, t);
        c := Straightened(c);
        SiblingInMemory(mem, root, c, t);
        sibling := mem[parent].left;
      }
      SettleRight(parent, sibling, c, t);
      return true, root, NULL, Top, tree;
    }

    method RemoveColor(node: Ptr, up: Ptr, ghost c0: RbCtx, ghost t0: RbT)
      requires Sits(mem, root, c0, t0) && Short(c0, t0) && node == Id(t0) && up == UpId(c0)
      modifies this`mem, this`root, this`tree
      ensures Sits(mem, root, Top, tree) && RedBlack(tree) && SameNodes(tree, Plug(c0, t0))
      ensures OnlyIn(old(mem), mem, Ids(Plug(c0, t0)))
    {
      var n, parent, done := node, up, false;
      ghost var c, t := c0, t0;
      FocusInMemory(mem, root, c, t);
      while !done && (n == NULL || mem[n].black) && n != root
        invariant Sits(mem, root, c, t) && n == Id(t) && parent == UpId(c) && FocusReadable(mem, root, c, t)
        invariant if done then RedBlack(t) && c.Top? else Short(c, t)
        invariant SameNodes(Plug(c, t), Plug(c0, t0)) && OnlyIn(old(mem), mem, Ids(Plug(c0, t0)))
        decreases !done, if IsBlack(t) then Depth(c) + 1 else 0
      {
        SiblingInMemory(mem, root, c, t);
        if mem[parent].left == n {
          done, n, parent, c, t := FixLeft(n, parent, c, t);
        } else {
          done, n, parent, c, t := FixRight(n, parent, c, t);
        }
        FocusInMemory(mem, root, c, t);
      }
      if !done {
        ShortFilled(c, t);
      }
      tree := Plug(c, Blackened(t));
      if n != NULL {
        Paint(n, true, c, t);
      }
      SitsPlug(mem, root, c, Blackened(t));
    }

    /** The leftmost node below the right child of `node`. */
    method LeftmostRight(node: Ptr, ghost c: RbCtx, ghost t: RbT) returns (replace: Ptr, ghost d: RbCtx, ghost s: RbT)
      requires Sits(mem, root, c, t) && t.Node? && t.id == node && t.left.Node? && t.right.Node?
      ensures Successor(c, t, d, s) && s.left == Leaf && s.id == replace
    {
      assert Rep(mem, node, t.right);
      replace := mem[node].right;
      d, s := Top, t.right;
      SitsUp(mem, root, Outer(c, t), s);
      while mem[replace].left != NULL
        invariant Successor(c, t, d, s) && s.id == replace
        invariant Sits(mem, root, Over(d, Outer(c, t)), s) && replace in mem
        decreases s
      {
        SitsUp(mem, root, Over(InLeft(d, s.id, s.data, s.right), Outer(c, t)), s.left);
        assert Rep(mem, s.id, s.left);
        replace := mem[replace].left;
        d, s := InLeft(d, s.id, s.data, s.right), s.left;
      }
      NullIsLeaf(mem, s.id, s.left);
    }

    /** A node with two children is replaced by its successor (lines 419 to 453). */
    method TakeOver(node: Ptr, replace: Ptr, ghost c: RbCtx, ghost t: RbT, ghost d: RbCtx, ghost s: RbT)
      returns (child: Ptr, newParent: Ptr)
      requires Spliceable(mem, c, t, d, s) && SpliceReadable(mem, c, t, d, s)
      requires t.id == node && s.id == replace
      modifies this`mem, this`root
      ensures mem == Relinked(old(mem), c, t, d, s) && root == if c.Top? then replace else old(root)
      ensures child == Id(s.right) && newParent == if d.Top? then s.id else d.id
    {
      child := mem[replace].right;
      var parent := mem[replace].parent;
      ReplaceChild(mem[node].parent, node, replace, c);
      assert mem[node] == old(mem)[node];
      mem := SetParent(mem, replace, mem[node].parent);
      mem := SetLeft(mem, replace, mem[node].left);
      mem := SetParent(mem, mem[node].left, replace);
      assert mem[node] == old(mem)[node];
      if parent == node {
        parent := replace;
      } else {
        TakeRight(node, replace, child, parent);
      }
      newParent := parent;
    }

    /** Its last lines, for a successor further down (lines 443 to 451). */
    method TakeRight(node: Ptr, replace: Ptr, child: Ptr, parent: Ptr)
      requires node in mem && replace in mem && parent in mem && mem[node].right in mem
      requires child != NULL ==> child in mem
      requires node !in {replace, parent, child}
      modifies this`mem
      ensures var m := if child == NULL then old(mem) else SetParent(old(mem), child, parent);
        mem == SetParent(SetRight(SetLeft(m, parent, child), replace, m[node].right), m[node].right, replace)
    {
      if child != NULL {
        mem := SetParent(mem, child, parent);
      }
      mem := SetLeft(mem, parent, child);
      mem := SetRight(mem, replace, mem[node].right);
      mem := SetParent(mem, mem[node].right, replace);
    }

    /** A node with at most one child is bypassed (lines 460 to 469). */
    method RemoveOuter(node: Ptr, ghost c: RbCtx, ghost t: RbT) returns (child: Ptr, parent: Ptr, ghost k: RbT)
      requires Sits(mem, root, c, t) && t.Node? && t.id == node && RedBlack(Plug(c, t))
      requires t.left == Leaf || t.right == Leaf
      modifies this`mem, this`root
      ensures Sits(mem, root, c, k) && Without(c, t, c, k) && child == Id(k) && parent == UpId(c)
      ensures node in mem && node in old(mem) && mem[node] == old(mem)[node] && mem[node].black == t.data
      ensures if t.data then Short(c, k) else RedBlack(Plug(c, k))
      ensures OnlyIn(old(mem), mem, Ids(Plug(c, t)))
    {
      FocusInMemory(mem, root, c, t);
      RepCtxInMemory(mem, root, c, node);
      if mem[node].left == NULL {
        RepInMemory(mem, node, t.left);
        child := mem[node].right;
        k := t.right;
      } else {
        child := mem[node].left;
        k := t.left;
      }
      WithoutOuter(c, t, k);
      BypassedColours(c, t, k);
      parent := mem[node].parent;
      Bypass(node, child, parent, c, t, k);
    }

    /** The links around the bypassed node. */
    method Bypass(node: Ptr, child: Ptr, parent: Ptr, ghost c: RbCtx, ghost t: RbT, ghost k: RbT)
      requires Sits(mem, root, c, t) && t.Node? && t.id == node && child == Id(k) && parent == UpId(c)
      requires (t.left == Leaf && k == t.right) || (t.right == Leaf && k == t.left)
      modifies this`mem, this`root
      ensures Sits(mem, root, c, k) && OnlyIn(old(mem), mem, Ids(Plug(c, t)))
      ensures node in mem && node in old(mem) && mem[node] == old(mem)[node]
    {
      RepCtxInMemory(mem, root, c, node);
      RepInMemory(mem, node, k);
      BypassedSits(mem, root, c, t, k);
      PlugDistinct(c, t);
      if child != NULL {
        mem := SetParent(mem, child, parent);
      }
      ReplaceChild(parent, node, child, c);
    }

    /** A node with two children is replaced by its successor (lines 416 to 457). */
    method RemoveInner(node: Ptr, ghost c: RbCtx, ghost t: RbT)
      returns (child: Ptr, parent: Ptr, ghost cc: RbCtx, ghost k: RbT)
      requires Sits(mem, root, c, t) && t.Node? && t.id == node && RedBlack(Plug(c, t))
      requires t.left.Node? && t.right.Node?
      modifies this`mem, this`root
      ensures Sits(mem, root, cc, k) && Without(c, t, cc, k) && child == Id(k) && parent == UpId(cc)
      ensures node in mem && node in old(mem) && mem[node] == old(mem)[node].(black := mem[node].black)
      ensures if mem[node].black then Short(cc, k) else RedBlack(Plug(cc, k))
      ensures OnlyIn(old(mem), mem, Ids(Plug(c, t)))
    {
      ghost var d, s;
      var replace;
      replace, d, s := LeftmostRight(node, c, t);
      TakenOverReady(mem, root, c, t, d, s);
      SpliceInMemory(mem, root, c, t, d, s);
      TakenOverSits(mem, root, c, t, d, s);
      TakenOverKeeps(mem, c, t, d, s);
      PromotedColours(c, t, d, s);
      WithoutInner(c, t, d, s);
      cc, k := Over(d, Outer(c, Promoted(t, d, s))), s.right;
      PromotedPlug(c, t, d, s);
      child, parent := TakeOver(node, replace, c, t, d, s);
      SwapColours(replace, node);
      assert mem == TakenOver(old(mem), c, t, d, s);
      SitsPlug(mem, root, c, Promoted(t, d, s));
      SitsPlug(mem, root, cc, k);
    }

    /** rb_remove up to the colour fix (lines 411 to 469). */
    method Unlink(node: Ptr) returns (child: Ptr, parent: Ptr, ghost c: RbCtx, ghost k: RbT)
      requires Valid() && node in Ids(tree)
      modifies this`mem, this`root
      ensures Sits(mem, root, c, k) && child == Id(k) && parent == UpId(c)
      ensures Ids(Plug(c, k)) == Ids(tree) - {node} && Size(Plug(c, k)) == Size(tree) - 1
      ensures exists i :: IsRemoval(InOrder(tree), i, node, InOrder(Plug(c, k)))
      ensures OnlyIn(old(mem), mem, Ids(tree))
      ensures node in mem && node in old(mem) && mem[node] == old(mem)[node].(black := mem[node].black)
      ensures if mem[node].black then Short(c, k) else RedBlack(Plug(c, k))
    {
      ghost var t;
      c, t := Locate(Top, tree, node).0, Locate(Top, tree, node).1;
      ghost var c0 := c;
      SitsPlug(mem, root, c, t);
      FocusInMemory(mem, root, c, t);
      RepInMemory(mem, node, t.left);
      RepInMemory(mem, node, t.right);
      if mem[node].left == NULL || mem[node].right == NULL {
        child, parent, k := RemoveOuter(node, c, t);
      } else {
        child, parent, c, k := RemoveInner(node, c, t);
      }
      WithoutIsRemoval(c0, t, c, k);
    }

    /** rb_remove: exactly `node` leaves the tree; its own links keep their last values. */
    method Remove(node: Ptr)
      requires Valid() && node in Ids(tree)
      modifies this
      ensures Valid() && count == old(count) - 1
      ensures Ids(tree) == old(Ids(tree)) - {node}
      ensures exists i :: IsRemoval(old(InOrder(tree)), i, node, InOrder(tree))
      ensures OnlyIn(old(mem), mem, old(Ids(tree)))
      ensures node in mem && node in old(mem) && mem[node] == old(mem)[node].(black := mem[node].black)
      ensures node == Head(old(InOrder(tree))) ==> StaleFirst(mem, node, InOrder(tree))
    {
      ghost var c, k;
      var child, parent;
      IdsInOrder(tree);
      DistinctInOrder(tree);
      if node == Head(InOrder(tree)) {
        RemovedMinimum(mem, root, tree, InOrder(tree)[1..]);
      }
      child, parent, c, k := Unlink(node);
      if mem[node].black {
        RemoveColor(child, parent, c, k);
      } else {
        SitsPlug(mem, root, c, k);
        tree := Plug(c, k);
      }
      IdsInOrder(tree);
      IdsInOrder(Plug(c, k));
      count := count - 1;
    }

    method Search(search: Ptr -> int) returns (r: Ptr)
      requires Valid() && Descending(search, InOrder(tree))
      ensures r == NULL ==> forall x :: x in Ids(tree) ==> search(x) != 0
      ensures r != NULL ==> r in Ids(tree) && search(r) == 0
    {
      r := root;
      ghost var c, t := Top, tree;
      while r != NULL
        invariant r == Id(t) && Sits(mem, root, c, t) && Plug(c, t) == tree
        invariant (forall x :: x in Before(c) ==> search(x) > 0) && (forall x :: x in After(c) ==> search(x) < 0)
        decreases t
      {
        PlugInOrder(c, t);
        PlugDistinct(c, t);
        Steer(search, c, t);
        var cmp := search(r);
        if cmp < 0 {
          SitsUp(mem, root, InLeft(c, t.id, t.data, t.right), t.left);
          c, t := InLeft(c, t.id, t.data, t.right), t.left;
          r := mem[r].left;
        } else if cmp > 0 {
          SitsUp(mem, root, InRight(t.left, t.id, t.data, c), t.right);
          c, t := InRight(t.left, t.id, t.data, c), t.right;
          r := mem[r].right;
        } else {
          return;
        }
      }
      RepInMemory(mem, UpId(c), t);
      PlugInOrder(c, t);
      IdsInOrder(tree);
    }

    method First() returns (r: Ptr)
      requires Valid()
      ensures r == Head(InOrder(tree))
    {
      r := root;
      if r != NULL {
        r := Leftmost(r, Top, tree);
      }
    }

    method Last() returns (r: Ptr)
      requires Valid()
      ensures r == LastOf(InOrder(tree))
    {
      r := root;
      if r != NULL {
        r := Rightmost(r, Top, tree);
      }
    }

    method Leftmost(n: Ptr, ghost c: RbCtx, ghost t0: RbT) returns (r: Ptr)
      requires Sits(mem, root, c, t0) && n == Id(t0) && n != NULL
      ensures t0.Node? && r == Head(InOrder(t0))
    {
      r := n;
      ghost var t := t0;
      while mem[r].left != NULL
        invariant t.Node? && r == t.id && r in mem && mem[r].left == Id(t.left) && Rep(mem, mem[r].parent, t)
        invariant Head(InOrder(t)) == Head(InOrder(t0))
        decreases t
      {
        assert Rep(mem, t.id, t.left);
        r, t := mem[r].left, t.left;
      }
      RepInMemory(mem, mem[r].parent, t);
    }

    method Rightmost(n: Ptr, ghost c: RbCtx, ghost t0: RbT) returns (r: Ptr)
      requires Sits(mem, root, c, t0) && n == Id(t0) && n != NULL
      ensures t0.Node? && r == LastOf(InOrder(t0))
    {
      r := n;
      ghost var t := t0;
      while mem[r].right != NULL
        invariant t.Node? && r == t.id && r in mem && mem[r].right == Id(t.right) && Rep(mem, mem[r].parent, t)
        invariant LastOf(InOrder(t)) == LastOf(InOrder(t0))
        decreases t
      {
        assert Rep(mem, t.id, t.right);
        r, t := mem[r].right, t.right;
      }
      RepInMemory(mem, mem[r].parent, t);
    }

    /** rb_next: the in-order successor; of a removed minimum, the new minimum. */
    method Next(node: Ptr) returns (r: Ptr)
      requires Valid() && (node in Ids(tree) || StaleFirst(mem, node, InOrder(tree)))
      ensures node in Ids(tree) ==> Follows(InOrder(tree), node, r)
      ensures node !in Ids(tree) ==> r == Head(InOrder(tree))
    {
      ghost var linked := node in Ids(tree);
      ghost var c, t := Top, tree;
      if linked {
        c, t := Locate(Top, tree, node).0, Locate(Top, tree, node).1;
        SitsPlug(mem, root, c, t);
        FollowsFocus(c, t);
        RepInMemory(mem, UpId(c), t);
      }
      LinksInside(mem, NULL, tree);
      RepInMemory(mem, NULL, tree);
      IdsInOrder(tree);
      if mem[node].right != NULL {
        if linked {
          c, t := InRight(t.left, t.id, t.data, c), t.right;
          SitsUp(mem, root, c, t);
        } else {
          c, t := Locate(Top, tree, mem[node].right).0, Locate(Top, tree, mem[node].right).1;
          SitsPlug(mem, root, c, t);
          FirstFocus(c, t);
        }
        r := Leftmost(mem[node].right, c, t);
        return;
      }
      r := Climb(node, c, t);
    }

    /** The climbing loop of rb_next; a node that has left the tree is nobody's child. */
    method Climb(node: Ptr, ghost c0: RbCtx, ghost t0: RbT) returns (r: Ptr)
      requires Valid() && Plug(c0, t0) == tree && Sits(mem, root, c0, t0) && node != NULL
      requires node in mem && (mem[node].parent == NULL || mem[node].parent in Ids(tree))
      requires node in Ids(tree) ==> node == Id(t0)
      ensures node in Ids(tree) ==> r == Head(After(c0))
      ensures node !in Ids(tree) ==> r == mem[node].parent
    {
      r := node;
      ghost var c, t := c0, t0;
      LinksInside(mem, NULL, tree);
      RepInMemory(mem, NULL, tree);
      while mem[r].parent != NULL && mem[mem[r].parent].right == r
        invariant node in Ids(tree) ==> Sits(mem, root, c, t) && t.Node? && t.id == r && After(c) == After(c0)
        invariant node !in Ids(tree) ==> r == node
        invariant r in mem && (mem[r].parent == NULL || mem[r].parent in Ids(tree))
        decreases c
      {
        SitsUp(mem, root, c, t);
        r, c, t := mem[r].parent, c.up, Fill(c, t);
      }
      r := mem[r].parent;
    }

    method Prev(node: Ptr) returns (r: Ptr)
      requires Valid() && node in Ids(tree)
      ensures Precedes(InOrder(tree), node, r)
    {
      ghost var c, t := Locate(Top, tree, node).0, Locate(Top, tree, node).1;
      SitsPlug(mem, root, c, t);
      FollowsFocus(c, t);
      RepInMemory(mem, UpId(c), t);
      if mem[node].left != NULL {
        c, t := InLeft(c, t.id, t.data, t.right), t.left;
        SitsUp(mem, root, c, t);
        r := Rightmost(mem[node].left, c, t);
        return;
      }
      r := node;
      ghost var before := Before(c);
      while mem[r].parent != NULL && mem[mem[r].parent].left == r
        invariant Sits(mem, root, c, t) && t.Node? && t.id == r && Before(c) == before
        invariant r in mem && mem[r].parent == UpId(c) && (c.Top? || (c.id != NULL && c.id in mem))
        decreases c
      {
        SitsUp(mem, root, c, t);
        r, c, t := mem[r].parent, c.up, Fill(c, t);
      }
      assert c.InRight? && c.left.Node? ==> c.left.id in Ids(c.left);
      r := mem[r].parent;
    }

    /** Walking from rb_first with rb_next visits exactly the in-order sequence. */
    method Enumerate() returns (visited: seq<Ptr>)
      requires Valid()
      ensures visited == InOrder(tree)
    {
      ghost var s := InOrder(tree);
      IdsInOrder(tree);
      DistinctInOrder(tree);
      RepInMemory(mem, NULL, tree);
      visited := [];
      var n := First();
      while n != NULL
        invariant |visited| <= |s| && visited == s[..|visited|] && n == Head(s[|visited|..])
        decreases |s| - |visited|
      {
        visited := visited + [n];
        n := Next(n);
      }
    }

    /** Removing the minimum drops the head of the order and leaves its links usable by rb_next. */
    method RemoveFirst(node: Ptr)
      requires Valid() && InOrder(tree) != [] && InOrder(tree)[0] == node
      modifies this
      ensures Valid() && InOrder(tree) == old(InOrder(tree))[1..] && StaleFirst(mem, node, InOrder(tree))
    {
      ghost var s := InOrder(tree);
      IdsInOrder(tree);
      DistinctInOrder(tree);
      Remove(node);
      ghost var i :| IsRemoval(s, i, node, InOrder(tree));
      FirstRemoved(s, i, InOrder(tree));
    }

    /** One round of the loop below when `n` is due. */
    method ExpireOne(n: Ptr, due: Ptr -> bool, ghost rest: seq<Ptr>)
      requires Valid() && InOrder(tree) == rest && rest != [] && n == rest[0] && DuePrefix(due, rest)
      modifies this
      ensures Valid() && InOrder(tree) == rest[1..] && DuePrefix(due, rest[1..]) && StaleFirst(mem, n, rest[1..])
    {
      DueTail(due, rest);
      RemoveFirst(n);
    }

    /** One pass of `expire` in co/co_core.c with a fixed clock: nodes are removed while the walk
        goes on from their stale links. */
    method Expire(due: Ptr -> bool) returns (expired: seq<Ptr>)
      requires Valid() && DuePrefix(due, InOrder(tree))
      modifies this
      ensures Valid() && expired + InOrder(tree) == old(InOrder(tree))
      ensures (forall x :: x in expired ==> due(x)) && (forall x :: x in InOrder(tree) ==> !due(x))
    {
      ghost var kept, rest := [], InOrder(tree);
      expired := [];
      var n := First();
      NullOutside();
      while n != NULL
        invariant Valid() && DuePrefix(due, InOrder(tree)) && NULL !in rest
        invariant InOrder(tree) == kept + rest && expired + InOrder(tree) == old(InOrder(tree)) && n == Head(rest)
        invariant forall x :: x in expired ==> due(x)
        invariant kept == [] || forall x :: x in InOrder(tree) ==> !due(x)
        decreases |rest|
      {
        DueWalk(due, expired, kept, rest);
        if due(n) {
          ExpireOne(n, due, rest);
          expired := expired + [n];
        } else {
          kept := kept + [n];
        }
        rest := rest[1..];
        n := NextOf(n, kept, rest);
      }
    }

    lemma NullOutside()
      requires Valid()
      ensures NULL !in InOrder(tree)
    {
      RepInMemory(mem, NULL, tree);
      IdsInOrder(tree);
    }

    /** rb_next in terms of what has been walked over and what is left. */
    method NextOf(node: Ptr, ghost kept: seq<Ptr>, ghost rest: seq<Ptr>) returns (r: Ptr)
      requires Valid() && InOrder(tree) == kept + rest
      requires if kept != [] && kept[|kept| - 1] == node then true else kept == [] && StaleFirst(mem, node, rest)
      ensures r == Head(rest)
    {
      IdsInOrder(tree);
      assert kept != [] ==> InOrder(tree)[|kept| - 1] == node;
      assert kept == [] ==> kept + rest == rest;
      r := Next(node);
      if kept != [] {
        DistinctInOrder(tree);
        FollowsLast(kept, rest, r);
      }
    }

    /** The rest of rb_insert (lines 242 to 248): a red leaf is linked in and the colours fixed. */
    method Attach(node: Ptr, parent: Ptr, toRight: bool, ghost c: RbCtx)
      requires Valid() && Plug(c, Leaf) == tree && Sits(mem, root, c, Leaf) && parent == UpId(c)
      requires node != NULL && node in mem && node !in Ids(tree)
      requires (c.InLeft? ==> !toRight) && (c.InRight? ==> toRight)
      modifies this
      ensures Valid() && count == old(count) + 1 && Ids(tree) == old(Ids(tree)) + {node}
      ensures InOrder(tree) == Before(c) + [node] + After(c)
      ensures OnlyIn(old(mem), mem, old(Ids(tree)) + {node})
    {
      ghost var leaf := Node(Leaf, node, false, Leaf);
      AttachedColours(c, node);
      AttachedNodes(c, node, false);
      LinkLeaf(node, parent, toRight, c);
      InsertColor(node, c, leaf);
      IdsInOrder(tree);
      IdsInOrder(Plug(c, leaf));
      count := count + 1;
    }

    /** Lines 242 to 246: the red leaf is hung in its place. */
    method LinkLeaf(node: Ptr, parent: Ptr, toRight: bool, ghost c: RbCtx)
      requires Sits(mem, root, c, Leaf) && parent == UpId(c) && node != NULL && node in mem
      requires node !in Ids(Plug(c, Leaf))
      requires (c.InLeft? ==> !toRight) && (c.InRight? ==> toRight)
      modifies this`mem, this`root
      ensures Sits(mem, root, c, Node(Leaf, node, false, Leaf)) && OnlyIn(old(mem), mem, Ids(Plug(c, Leaf)) + {node})
    {
      PlugDistinct(c, Leaf);
      RepCtxInMemory(mem, root, c, NULL);
      AttachedSits(mem, root, c, node);
      mem := mem[node := Cell(parent, NULL, NULL, false)];
      if parent == NULL {
        root := node;
      } else if toRight {
        mem := SetRight(mem, parent, node);
      } else {
        mem := SetLeft(mem, parent, node);
      }
    }

    /** rb_insert: `node` enters at its place in the order, unless an equal node is there. */
    method Insert(node: Ptr, cmp: (Ptr, Ptr) -> int) returns (r: Ptr)
      requires Valid() && node != NULL && node in mem
      requires Comparator(cmp) && Sorted(cmp, InOrder(tree))
      modifies this
      ensures Valid() && Sorted(cmp, InOrder(tree))
      ensures (exists x :: x in old(Ids(tree)) && cmp(node, x) == 0) ==>
        r in old(Ids(tree)) && cmp(node, r) == 0 && unchanged(this)
      ensures (forall x :: x in old(Ids(tree)) ==> cmp(node, x) != 0) ==>
        && r == node && node !in old(Ids(tree)) && count == old(count) + 1
        && Ids(tree) == old(Ids(tree)) + {node}
        && (exists i :: IsInsertion(old(InOrder(tree)), i, node, InOrder(tree)))
        && OnlyIn(old(mem), mem, old(Ids(tree)) + {node})
    {
      ghost var c;
      var found, parent, d;
      found, parent, d, c := Descend(node, cmp);
      if found != NULL {
        return found;
      }
      InsertionPoint(cmp, c, node);
      Attach(node, parent, d > 0, c);
      r := node;
    }

    /** The search loop of rb_insert (lines 235 to 241); the final `*link` is the hole of `c`. */
    method Descend(node: Ptr, cmp: (Ptr, Ptr) -> int) returns (link: Ptr, parent: Ptr, d: int, ghost c: RbCtx)
      requires Valid() && Comparator(cmp) && Sorted(cmp, InOrder(tree))
      ensures link != NULL ==> link in Ids(tree) && cmp(node, link) == 0
      ensures link == NULL ==>
        && Plug(c, Leaf) == tree && Sits(mem, root, c, Leaf) && parent == UpId(c)
        && (c.InLeft? ==> d < 0) && (c.InRight? ==> d > 0)
        && (forall x :: x in Before(c) ==> cmp(node, x) > 0) && (forall x :: x in After(c) ==> cmp(node, x) < 0)
    {
      ghost var t, search := tree, (y: Ptr) => cmp(node, y);
      ComparatorDescends(cmp, node, InOrder(tree));
      c, parent, link, d := Top, NULL, root, 0;
      while link != NULL
        invariant link == Id(t) && parent == UpId(c) && Sits(mem, root, c, t) && Plug(c, t) == tree
        invariant (c.InLeft? ==> d < 0) && (c.InRight? ==> d > 0)
        invariant forall x :: x in Before(c) ==> search(x) > 0
        invariant forall x :: x in After(c) ==> search(x) < 0
        decreases t
      {
        Steer(search, c, t);
        PlugDistinct(c, t);
        d := cmp(node, link);
        if d == 0 {
          return;
        }
        parent := link;
        if d > 0 {
          SitsUp(mem, root, InRight(t.left, t.id, t.data, c), t.right);
          c, t := InRight(t.left, t.id, t.data, c), t.right;
          link := mem[link].right;
        } else {
          SitsUp(mem, root, InLeft(c, t.id, t.data, t.right), t.left);
          c, t := InLeft(c, t.id, t.data, t.right), t.left;
          link := mem[link].left;
        }
      }
      RepInMemory(mem, UpId(c), t);
    }

    /** The owner of a node that is not linked writes to its memory, or allocates it. */
    method Provide(x: Ptr, cell: Cell)
      requires Valid() && x !in Ids(tree)
      modifies this`mem
      ensures Valid() && mem == old(mem)[x := cell]
    {
      mem := mem[x := cell];
      RepFrame(old(mem), mem, NULL, tree);
    }

    /** The owner of a node that is not linked frees it. */
    method Withdraw(x: Ptr)
      requires Valid() && x !in Ids(tree)
      modifies this`mem
      ensures Valid() && mem == old(mem) - {x}
    {
      mem := mem - {x};
      RepFrame(old(mem), mem, NULL, tree);
    }

    constructor ()
      ensures Valid() && tree == Leaf && mem == map[]
    {
      mem, root, count, tree := map[], NULL, 0, Leaf;
    }
  }
}
