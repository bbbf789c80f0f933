/** The binary search tree of common/bst.c, with its in-place rebalancing. */
module BstTables {
  import opened Trees
  import opened Bits
  import opened BstShape
  import opened BstRetries
  import opened Orders

  class BstTable {
    /** The address of the table seen as a node: its left link is bst_root. */
    const head: Ptr
    const maxHeight: nat
    var mem: Memory
    var count: nat
    var generation: nat
    ghost var tree: Bst

    ghost predicate Valid()
      reads this
    {
      Sits(mem, head, Top, tree) && count == Size(tree)
    }

    /** bst_create: malloc returns `head`; the other nodes in memory belong to the callers. */
    constructor (head: Ptr, memory: Memory, height: nat)
      requires head != NULL && head !in memory
      ensures Valid() && tree == Leaf && count == 0 && generation == 0 && maxHeight == height && this.head == head
      ensures mem == memory[head := Links(NULL, NULL)]
    {
      this.head, maxHeight := head, height;
      mem, count, generation, tree := memory[head := Links(NULL, NULL)], 0, 0, Leaf;
    }

    /** slant_left: right children are rotated up until the tree is a left spine. */
    method SlantLeft()
      requires Valid()
      modifies this`mem, this`tree
      ensures Valid() && Vine(tree) && SameNodes(tree, old(tree)) && OnlyIn(old(mem), mem, Ids(tree) + {head})
    {
      var q, p := head, mem[head].left;
      ghost var c, t := Top, tree;
      while p != NULL
        invariant Sits(mem, head, c, t) && VineCtx(c) && q == Above(head, c) && p == Id(t)
        invariant SameNodes(Plug(c, t), old(tree)) && OnlyIn(old(mem), mem, Ids(old(tree)) + {head})
        decreases Size(t), if t.Node? then Size(t.right) else 0
      {
        RepCtxInMemory(mem, head, c, p);
        if mem[p].right == NULL {
          NullIsLeaf(mem, t.right);
          SitsUp(mem, head, InLeft(c, t.id, t.data, t.right), t.left);
          c, t := InLeft(c, t.id, t.data, t.right), t.left;
          q := p;
          p := mem[p].left;
        } else {
          RotateUp(p, q, c, t);
          assert Size(RotatedLeft(t)) == Size(t);
          t := RotatedLeft(t);
          p := mem[q].left;
        }
      }
      NullIsLeaf(mem, t);
      tree := Plug(c, t);
      PlugVine(c, t);
      SitsPlug(mem, head, c, t);
      IdsInOrder(tree);
      IdsInOrder(old(tree));
    }

    /** One rotation of slant_left (lines 211 to 216). */
    method RotateUp(p: Ptr, q: Ptr, ghost c: BstCtx, ghost t: Bst)
      requires Sits(mem, head, c, t) && VineCtx(c) && q == Above(head, c) && p == Id(t)
      requires t.Node? && t.right.Node?
      modifies this`mem
      ensures Sits(mem, head, c, RotatedLeft(t)) && SameNodes(Plug(c, RotatedLeft(t)), Plug(c, t))
      ensures OnlyIn(old(mem), mem, Ids(Plug(c, t)) + {head})
    {
      RepCtxInMemory(mem, head, c, p);
      assert Rep(mem, t.right) && t.right.id in Ids(t.right);
      RotatedLeftInOrder(t);
      RotatedDistinct(t);
      PlugSame(c, RotatedLeft(t), t);
      PlugDistinct(c, t);
      var r := mem[p].right;
      mem := SetLink(mem, p, true, mem[r].left);
      mem := SetLink(mem, r, false, p);
      mem := SetLink(mem, q, false, r);
      RotatedLeftSits(old(mem), mem, head, c, t);
    }

    /** slant_left_back: `steps` compressions down the left spine. */
    method SlantLeftBack(steps: nat)
      requires Valid() && 2 * steps <= Spine(tree)
      modifies this`mem, this`tree
      ensures Valid() && tree == Compress(old(tree), steps) && SameNodes(tree, old(tree))
      ensures OnlyIn(old(mem), mem, Ids(tree) + {head})
    {
      var root := head;
      var k: nat := steps;
      ghost var c, t := Top, tree;
      while k > 0
        invariant Sits(mem, head, c, t) && root == Above(head, c) && !c.InRight? && 2 * k <= Spine(t)
        invariant Plug(c, Compress(t, k)) == Compress(old(tree), steps)
        invariant Ids(Plug(c, t)) == Ids(old(tree)) && OnlyIn(old(mem), mem, Ids(old(tree)) + {head})
      {
        CompressStep(c, t, k);
        k := k - 1;
        ghost var u := RotatedRight(t);
        root := CompressOne(root, c, t);
        SitsDown(mem, head, c, u, false);
        c, t := InLeft(c, u.id, u.data, u.right), u.left;
      }
      CompressKeeps(old(tree), steps);
      tree := Plug(c, t);
      SitsPlug(mem, head, c, t);
      IdsInOrder(tree);
      IdsInOrder(old(tree));
    }

    /** One compression (lines 227 to 233). */
    method CompressOne(root: Ptr, ghost c: BstCtx, ghost t: Bst) returns (black: Ptr)
      requires Sits(mem, head, c, t) && root == Above(head, c) && !c.InRight?
      requires t.Node? && t.left.Node?
      modifies this`mem
      ensures Sits(mem, head, c, RotatedRight(t)) && black == t.left.id
      ensures Ids(Plug(c, RotatedRight(t))) == Ids(Plug(c, t))
      ensures OnlyIn(old(mem), mem, Ids(Plug(c, t)) + {head})
    {
      RepCtxInMemory(mem, head, c, t.id);
      assert Rep(mem, t.left) && t.left.id in Ids(t.left);
      RotatedDistinct(t);
      PlugDistinct(c, RotatedRight(t));
      PlugDistinct(c, t);
      var red := mem[root].left;
      black := mem[red].left;
      mem := SetLink(mem, root, false, black);
      mem := SetLink(mem, red, false, mem[black].right);
      mem := SetLink(mem, black, true, red);
      RotatedRightSits(old(mem), mem, head, c, t);
    }

    /** slant_back: halving passes turn the spine into a tree of least height. */
    method SlantBack() returns (height: nat)
      requires Valid() && Vine(tree)
      modifies this`mem, this`tree
      ensures Valid() && SameNodes(tree, old(tree)) && OnlyIn(old(mem), mem, Ids(tree) + {head})
      ensures tree == Slanted(old(tree), count)
      ensures count > 0 ==> height == BitLength(count)
    {
      var leaves := BottomLeaves();
      ghost var k := SlantNumbers(count);
      SlantedFringe(tree, count, leaves);
      VineSpine(tree);
      SlantLeftBack(leaves);
      height := Halve(count - leaves, 1 + if leaves > 0 then 1 else 0, k);
    }

    /** The number of nodes of the bottom level (lines 244 to 250). */
    method BottomLeaves() returns (leaves: nat)
      ensures leaves == Leaves(count)
    {
      var top := TopBit(count + 1);
      TopPowerBits(count + 1);
      leaves := count + 1 - top;
    }

    /** The halving passes of slant_back (lines 255 to 262). */
    method Halve(spine: nat, levels: nat, ghost k0: nat) returns (height: nat)
      requires Valid() && levels > 0 && spine + 1 == Pow2(k0) && Fringe(tree, spine, levels - 1)
      modifies this`mem, this`tree
      ensures Valid() && SameNodes(tree, old(tree)) && OnlyIn(old(mem), mem, Ids(tree) + {head})
      ensures tree == Halved(old(tree), spine) && (k0 > 0 ==> height == levels - 1 + k0)
    {
      var vine := spine;
      height := levels;
      ghost var k := k0;
      while vine > 1
        invariant Valid() && SameNodes(tree, old(tree)) && OnlyIn(old(mem), mem, Ids(tree) + {head})
        invariant vine + 1 == Pow2(k) && height > 0 && Fringe(tree, vine, height - 1)
        invariant height + k == levels + k0 && (k0 > 0 ==> k > 0)
        invariant Halved(tree, vine) == Halved(old(tree), spine)
        decreases vine
      {
        HalveStep(tree, vine, height - 1, k);
        SlantLeftBack(vine / 2);
        vine := vine / 2;
        k, height := k - 1, height + 1;
      }
      HalveEnd(tree, vine, k);
    }

    /** bst_balance: same nodes in the same order, at the least possible height. */
    method Balance()
      requires Valid()
      modifies this
      ensures Valid() && SameNodes(tree, old(tree)) && count == old(count)
      ensures tree == Rebuilt(old(InOrder(tree))) && Height(tree) == BitLength(count)
      ensures generation == old(generation) + 1 && OnlyIn(old(mem), mem, Ids(tree) + {head})
      ensures Rebalanced(old(tree), old(generation), tree, generation, maxHeight, true)
    {
      SlantLeft();
      IdsInOrder(tree);
      IdsInOrder(old(tree));
      BalancedIs(old(tree), tree, old(generation), maxHeight);
      var height := SlantBack();
      generation := generation + 1;
    }

    /** bst_search. */
    method Search(search: Ptr -> int) returns (t: Ptr)
      requires Valid() && Descending(search, InOrder(tree))
      ensures t == NULL ==> forall x :: x in Ids(tree) ==> search(x) != 0
      ensures t != NULL ==> t in Ids(tree) && search(t) == 0
    {
      t := mem[head].left;
      ghost var c, u := Top, tree;
      while t != NULL
        invariant t == Id(u) && Sits(mem, head, c, u) && Plug(c, u) == tree
        invariant (forall x :: x in Before(c) ==> search(x) > 0) && (forall x :: x in After(c) ==> search(x) < 0)
        decreases u
      {
        Steer(search, c, u);
        PlugDistinct(c, u);
        var cmp := search(t);
        if cmp < 0 {
          SitsUp(mem, head, InLeft(c, u.id, u.data, u.right), u.left);
          c, u := InLeft(c, u.id, u.data, u.right), u.left;
          t := mem[t].left;
        } else if cmp > 0 {
          SitsUp(mem, head, InRight(u.left, u.id, u.data, c), u.right);
          c, u := InRight(u.left, u.id, u.data, c), u.right;
          t := mem[t].right;
        } else {
          return;
        }
      }
      NullIsLeaf(mem, u);
      PlugInOrder(c, u);
      IdsInOrder(tree);
    }

    /** bst_insert: `n` becomes a leaf at its place in the order, unless an equal node is there. */
    method Insert(n: Ptr, cmp: (Ptr, Ptr) -> int) returns (r: Ptr)
      requires Valid() && n != NULL && n != head && n in mem
      requires Comparator(cmp) && Sorted(cmp, InOrder(tree))
      modifies this
      ensures Valid() && Sorted(cmp, InOrder(tree)) && generation == old(generation)
      ensures (exists x :: x in old(Ids(tree)) && cmp(n, x) == 0) ==>
        r in old(Ids(tree)) && cmp(n, r) == 0 && unchanged(this)
      ensures (forall x :: x in old(Ids(tree)) ==> cmp(n, x) != 0) ==>
        && r == n && n !in old(Ids(tree)) && count == old(count) + 1
        && Ids(tree) == old(Ids(tree)) + {n}
        && (exists i :: IsInsertion(old(InOrder(tree)), i, n, InOrder(tree)))
      ensures KeepsCursors(old(tree), generation, tree, generation, maxHeight)
    {
      ghost var c;
      var p, dir;
      r, p, dir, c := Descend(n, cmp);
      if r != NULL {
        return;
      }
      InsertionPoint(cmp, c, n);
      Attach(n, if p == NULL then head else p, dir, c);
      r := n;
    }

    /** The search loop of bst_insert (lines 104 to 109). */
    method Descend(n: Ptr, cmp: (Ptr, Ptr) -> int) returns (t: Ptr, p: Ptr, dir: bool, ghost c: BstCtx)
      requires Valid() && Comparator(cmp) && Sorted(cmp, InOrder(tree))
      ensures t != NULL ==> t in Ids(tree) && cmp(n, t) == 0
      ensures t == NULL ==>
        && Plug(c, Leaf) == tree && Sits(mem, head, c, Leaf)
        && (p == NULL <==> c.Top?) && (!c.Top? ==> p == c.id && dir == Side(c))
        && (forall x :: x in Before(c) ==> cmp(n, x) > 0) && (forall x :: x in After(c) ==> cmp(n, x) < 0)
    {
      ghost var u, search := tree, (y: Ptr) => cmp(n, y);
      ComparatorDescends(cmp, n, InOrder(tree));
      c, p, t, dir := Top, NULL, mem[head].left, false;
      while t != NULL
        invariant t == Id(u) && Sits(mem, head, c, u) && Plug(c, u) == tree
        invariant (p == NULL <==> c.Top?) && (!c.Top? ==> p == c.id && dir == Side(c))
        invariant (forall x :: x in Before(c) ==> search(x) > 0) && (forall x :: x in After(c) ==> search(x) < 0)
        decreases u
      {
        Steer(search, c, u);
        PlugDistinct(c, u);
        var d := cmp(n, t);
        if d == 0 {
          return;
        }
        dir := d > 0;
        p := t;
        if dir {
          SitsUp(mem, head, InRight(u.left, u.id, u.data, c), u.right);
          c, u := InRight(u.left, u.id, u.data, c), u.right;
        } else {
          SitsUp(mem, head, InLeft(c, u.id, u.data, u.right), u.left);
          c, u := InLeft(c, u.id, u.data, u.right), u.left;
        }
        t := mem[t].At(dir);
      }
      NullIsLeaf(mem, u);
    }

    /** Linking a new leaf (lines 110 to 116; the pseudo-node stands for bst_root). */
    method Attach(n: Ptr, p: Ptr, dir: bool, ghost c: BstCtx)
      requires Valid() && Plug(c, Leaf) == tree && Sits(mem, head, c, Leaf)
      requires p == Above(head, c) && (!c.Top? ==> dir == Side(c))
      requires n != NULL && n != head && n in mem && n !in Ids(tree)
      modifies this
      ensures Valid() && count == old(count) + 1 && generation == old(generation)
      ensures tree == Plug(c, Node(Leaf, n, (), Leaf)) && Ids(tree) == old(Ids(tree)) + {n}
      ensures InOrder(tree) == Before(c) + [n] + After(c)
      ensures OnlyIn(old(mem), mem, old(Ids(tree)) + {n, head})
      ensures KeepsCursors(old(tree), generation, tree, generation, maxHeight)
    {
      ghost var leaf := Node(Leaf, n, (), Leaf);
      AttachedNodes(c, n, ());
      PlugDistinct(c, Leaf);
      RepCtxInMemory(mem, head, c, NULL);
      AttachedSits(mem, head, c, n);
      count := count + 1;
      mem := mem[n := Links(NULL, NULL)];
      mem := SetLink(mem, p, if p == head then false else dir, n);
      tree := Plug(c, leaf);
      SitsPlug(mem, head, c, leaf);
      forall k | Tracks(old(tree), generation, maxHeight, k)
        ensures Tracks(tree, generation, maxHeight, k)
      {
        TracksInsert(c, n, generation, maxHeight, k);
      }
    }

    /** The search loop shared by bst_remove and bst_delete: `d` is below link `dir` of `p`. */
    method FindLink(search: Ptr -> int) returns (p: Ptr, dir: bool, d: Ptr, ghost c: BstCtx, ghost t: Bst)
      requires Valid() && Descending(search, InOrder(tree))
      ensures d == NULL ==> forall x :: x in Ids(tree) ==> search(x) != 0
      ensures d != NULL ==>
        && Plug(c, t) == tree && Sits(mem, head, c, t) && t.Node? && t.id == d && search(d) == 0
        && p == Above(head, c) && dir == Side(c)
    {
      p, dir, d := head, false, mem[head].left;
      c, t := Top, tree;
      while d != NULL && search(d) != 0
        invariant d == Id(t) && Sits(mem, head, c, t) && Plug(c, t) == tree && p == Above(head, c) && dir == Side(c)
        invariant (forall x :: x in Before(c) ==> search(x) > 0) && (forall x :: x in After(c) ==> search(x) < 0)
        decreases t
      {
        Steer(search, c, t);
        PlugDistinct(c, t);
        dir := search(d) > 0;
        p := d;
        if dir {
          SitsUp(mem, head, InRight(t.left, t.id, t.data, c), t.right);
          c, t := InRight(t.left, t.id, t.data, c), t.right;
        } else {
          SitsUp(mem, head, InLeft(c, t.id, t.data, t.right), t.left);
          c, t := InLeft(c, t.id, t.data, t.right), t.left;
        }
        d := mem[p].At(dir);
      }
      NullIsLeaf(mem, t);
      PlugInOrder(c, t);
      IdsInOrder(tree);
    }

    /** Lines 136 to 153: the right subtree gives up its leftmost node to take the place of `d`. */
    method SpliceOut(p: Ptr, dir: bool, d: Ptr, ghost c: BstCtx, ghost t: Bst)
      requires Sits(mem, head, c, t) && t.Node? && t.right.Node?
      requires d == t.id && p == Above(head, c) && dir == Side(c)
      modifies this`mem
      ensures Sits(mem, head, c, Spliced(t)) && OnlyIn(old(mem), mem, Ids(Plug(c, t)) + {head})
    {
      RepCtxInMemory(mem, head, c, d);
      MinInMemory(mem, t.right);
      assert Rep(mem, t.right) && t.right.id in Ids(t.right);
      NullIsLeaf(mem, t.right.left);
      if mem[mem[d].right].left == NULL {
        SpliceNear(p, dir, d, c, t);
      } else {
        SpliceFar(p, dir, d, c, t);
      }
      SplicedSits(old(mem), mem, head, c, t);
      SpliceApart(head, c, t);
      PlugDistinct(c, t);
    }

    /** The right child has no left child and takes the place itself. */
    method SpliceNear(p: Ptr, dir: bool, d: Ptr, ghost c: BstCtx, ghost t: Bst)
      requires Sits(mem, head, c, t) && t.Node? && t.right.Node? && t.right.left.Leaf?
      requires Above(head, c) in mem && Min(t.right) in mem
      requires d == t.id && p == Above(head, c) && dir == Side(c)
      modifies this`mem
      ensures mem.Keys == old(mem).Keys && SpliceCells(old(mem), mem, head, c, t)
    {
      RepCtxInMemory(mem, head, c, d);
      PlugDistinct(c, t);
      assert Rep(mem, t.right) && t.right.id in Ids(t.right);
      var r := mem[d].right;
      mem := SetLink(mem, r, false, mem[d].left);
      mem := SetLink(mem, p, dir, r);
    }

    /** The leftmost node of the right subtree takes the place. */
    method SpliceFar(p: Ptr, dir: bool, d: Ptr, ghost c: BstCtx, ghost t: Bst)
      requires Sits(mem, head, c, t) && t.Node? && t.right.Node? && t.right.left.Node?
      requires Above(head, c) in mem && Min(t.right) in mem && MinParent(t.right) in mem
      requires d == t.id && p == Above(head, c) && dir == Side(c)
      modifies this`mem
      ensures mem.Keys == old(mem).Keys && SpliceCells(old(mem), mem, head, c, t)
    {
      RepCtxInMemory(mem, head, c, d);
      MinInMemory(mem, t.right);
      PlugDistinct(c, t);
      assert Rep(mem, t.right) && t.right.id in Ids(t.right);
      var r, s := LeftmostPair(mem[d].right, t.right);
      mem := SetLink(mem, r, false, mem[s].right);
      mem := SetLink(mem, s, false, mem[d].left);
      mem := SetLink(mem, s, true, mem[d].right);
      mem := SetLink(mem, p, dir, s);
    }

    method LeftmostPair(start: Ptr, ghost t: Bst) returns (r: Ptr, s: Ptr)
      requires Rep(mem, t) && Distinct(t) && t.Node? && t.left.Node? && start == t.id
      ensures r == MinParent(t) && s == Min(t)
    {
      r := start;
      ghost var u := t;
      while true
        invariant Rep(mem, u) && u.Node? && u.left.Node? && r == u.id
        invariant MinParent(u) == MinParent(t) && Min(u) == Min(t)
        decreases u
      {
        assert Rep(mem, u.left);
        s := mem[r].left;
        NullIsLeaf(mem, u.left.left);
        if mem[s].left == NULL {
          break;
        }
        r, u := s, u.left;
      }
    }

    /** Relinking around the found node (lines 133 to 153). */
    method Bypass(p: Ptr, dir: bool, d: Ptr, ghost c: BstCtx, ghost t: Bst)
      requires Sits(mem, head, c, t) && t.Node? && d == t.id && p == Above(head, c) && dir == Side(c)
      modifies this`mem
      ensures Sits(mem, head, c, Spliced(t)) && OnlyIn(old(mem), mem, Ids(Plug(c, t)) + {head})
    {
      RepCtxInMemory(mem, head, c, d);
      PlugDistinct(c, t);
      NullIsLeaf(mem, t.right);
      if mem[d].right == NULL {
        mem := SetLink(mem, p, dir, mem[d].left);
        LiftedSits(old(mem), mem, head, c, t);
      } else {
        SpliceOut(p, dir, d, c, t);
      }
    }

    /** Unlinking the found node (lines 133 to 155). */
    method Unlink(p: Ptr, dir: bool, d: Ptr, ghost c: BstCtx, ghost t: Bst)
      requires Valid() && Plug(c, t) == tree && Sits(mem, head, c, t) && t.Node?
      requires d == t.id && p == Above(head, c) && dir == Side(c)
      modifies this
      ensures Valid() && count == old(count) - 1 && generation == old(generation) + 1
      ensures tree == Plug(c, Spliced(t)) && Ids(tree) == old(Ids(tree)) - {d}
      ensures exists i :: IsRemoval(old(InOrder(tree)), i, d, InOrder(tree))
      ensures OnlyIn(old(mem), mem, old(Ids(tree)) + {head})
      ensures forall k :: Tracks(old(tree), old(generation), maxHeight, k) && k.node != d ==>
        Tracks(tree, generation, maxHeight, k)
    {
      SplicedWhole(c, t);
      TracksRemoveAll(c, t, generation, maxHeight);
      Bypass(p, dir, d, c, t);
      SitsPlug(mem, head, c, Spliced(t));
      tree := Plug(c, Spliced(t));
      count := count - 1;
      generation := generation + 1;
    }

    /** bst_remove: the node equal to `n` leaves, only if it is `n` itself when `self` is set. */
    method Remove(n: Ptr, self: bool, cmp: (Ptr, Ptr) -> int) returns (d: Ptr)
      requires Valid() && Comparator(cmp) && Sorted(cmp, InOrder(tree))
      modifies this
      ensures Valid()
      ensures d == NULL ==> unchanged(this) && forall x :: x in Ids(tree) ==> cmp(n, x) != 0
      ensures d != NULL ==> d in old(Ids(tree)) && cmp(n, d) == 0
      ensures d != NULL && self && d != n ==> unchanged(this)
      ensures d != NULL && (d == n || !self) ==>
        && count == old(count) - 1 && generation == old(generation) + 1 && Ids(tree) == old(Ids(tree)) - {d}
        && (exists i :: IsRemoval(old(InOrder(tree)), i, d, InOrder(tree)))
        && (forall k :: Tracks(old(tree), old(generation), maxHeight, k) && k.node != d ==>
              Tracks(tree, generation, maxHeight, k))
    {
      ComparatorDescends(cmp, n, InOrder(tree));
      ghost var c, t;
      var p, dir;
      p, dir, d, c, t := FindLink((y: Ptr) => cmp(n, y));
      if d == NULL {
        return;
      }
      PlugDistinct(c, t);
      if d == n || !self {
        Unlink(p, dir, d, c, t);
      }
    }

    /** bst_delete: the node matching the item leaves. */
    method Delete(search: Ptr -> int) returns (d: Ptr)
      requires Valid() && Descending(search, InOrder(tree))
      modifies this
      ensures Valid()
      ensures d == NULL ==> unchanged(this) && forall x :: x in Ids(tree) ==> search(x) != 0
      ensures d != NULL ==>
        && d in old(Ids(tree)) && search(d) == 0
        && count == old(count) - 1 && generation == old(generation) + 1 && Ids(tree) == old(Ids(tree)) - {d}
        && (exists i :: IsRemoval(old(InOrder(tree)), i, d, InOrder(tree)))
        && (forall k :: Tracks(old(tree), old(generation), maxHeight, k) && k.node != d ==>
              Tracks(tree, generation, maxHeight, k))
    {
      ghost var c, t;
      var p, dir;
      p, dir, d, c, t := FindLink(search);
      if d == NULL {
        return;
      }
      PlugDistinct(c, t);
      Unlink(p, dir, d, c, t);
    }

    /** bst_destroy: left children are rotated up so that nodes can be freed in order; a freed
        node is no longer in memory. */
    method Destroy() returns (destroyed: seq<Ptr>)
      requires Valid()
      modifies this
      ensures destroyed == old(InOrder(tree)) && mem.Keys == old(mem).Keys - old(Ids(tree))
      ensures Valid() && tree == Leaf && count == 0 && generation == 0
    {
      var p := mem[head].left;
      ghost var t := tree;
      destroyed := [];
      while p != NULL
        invariant Rep(mem, t) && Distinct(t) && p == Id(t) && head in mem && head !in Ids(t)
        invariant destroyed + InOrder(t) == old(InOrder(tree))
        invariant mem.Keys + (old(Ids(tree)) - Ids(t)) == old(mem).Keys && mem.Keys !! old(Ids(tree)) - Ids(t)
        invariant Ids(t) <= old(Ids(tree))
        decreases Size(t), if t.Node? then Size(t.left) else 0
      {
        RepInMemory(mem, t);
        NullIsLeaf(mem, t.left);
        if mem[p].left == NULL {
          assert InOrder(t) == [p] + InOrder(t.right);
          destroyed := destroyed + [p];
          p := Free(p, t);
          t := t.right;
        } else {
          assert Size(RotatedRight(t)) == Size(t);
          p := RotateAside(p, t);
          t := RotatedRight(t);
        }
      }
      NullIsLeaf(mem, t);
      count := 0;
      generation := 0;
      mem := SetLink(mem, head, false, NULL);
      tree := Leaf;
    }

    /** A node without a left child is freed. */
    method Free(p: Ptr, ghost t: Bst) returns (q: Ptr)
      requires Rep(mem, t) && Distinct(t) && t.Node? && p == t.id && t.left.Leaf?
      modifies this`mem
      ensures mem == old(mem) - {p} && Rep(mem, t.right) && q == Id(t.right)
    {
      q := mem[p].right;
      RepFrame(mem, mem - {p}, t.right);
      mem := mem - {p};
    }

    /** A left child is rotated up. */
    method RotateAside(p: Ptr, ghost t: Bst) returns (q: Ptr)
      requires Rep(mem, t) && Distinct(t) && t.Node? && p == t.id && t.left.Node?
      modifies this`mem
      ensures Rep(mem, RotatedRight(t)) && Distinct(RotatedRight(t)) && SameNodes(RotatedRight(t), t)
      ensures mem.Keys == old(mem).Keys && OnlyIn(old(mem), mem, Ids(t)) && q == t.left.id
    {
      RepInMemory(mem, t);
      RotatedRightInOrder(t);
      RotatedDistinct(t);
      RotatedRightRep(mem, t);
      q := mem[p].left;
      mem := SetLink(mem, p, false, mem[q].right);
      mem := SetLink(mem, q, true, p);
    }
  }
}
