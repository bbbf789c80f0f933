/** The stack iterators of common/bst.c over a table that changes under them. */
module BstIterators {
  import opened Trees
  import opened Sequences
  import opened Bits
  import opened Orders
  import opened BstShape
  import opened BstRetries
  import opened BstTables

  /** `n` has entered the order, or its equal `r` was there before. */
  ghost predicate Entered(t: Bst, t': Bst, n: Ptr, cmp: (Ptr, Ptr) -> int, r: Ptr) {
    && ((exists x :: x in Ids(t) && cmp(n, x) == 0) ==> r in Ids(t) && cmp(n, r) == 0 && InOrder(t') == InOrder(t))
    && ((forall x :: x in Ids(t) ==> cmp(n, x) != 0) ==>
          r == n && n !in Ids(t) && Size(t') == Size(t) + 1 && exists i :: IsInsertion(InOrder(t), i, n, InOrder(t')))
  }

  class BstIterator {
    const table: BstTable
    /** Room for the nodes above the current one, `bst_max_height` of them. */
    const stack: array<Ptr>
    var node: Ptr
    var height: nat
    var generation: nat

    ghost function Cursor(): Cursor
      requires height <= stack.Length
      reads this, stack
    {
      BstShape.Cursor.Cursor(node, stack[..height], generation)
    }

    ghost predicate Ok()
      reads this, table, stack
    {
      && table.Valid() && stack.Length == table.maxHeight && height <= stack.Length
      && Tracks(table.tree, table.generation, table.maxHeight, Cursor())
    }

    /** bst_iterator_init: the null node is selected. */
    constructor (table: BstTable)
      requires table.Valid()
      ensures Ok() && this.table == table && node == NULL && fresh(stack)
    {
      this.table := table;
      this.stack := new Ptr[table.maxHeight];
      this.node := NULL;
      this.height := 0;
      this.generation := table.generation;
    }

    /** The focus is the subtree `t` below `c`, and the stack holds the nodes above it. */
    ghost predicate At(c: BstCtx, t: Bst)
      reads this, table, stack
    {
      && table.Valid() && stack.Length == table.maxHeight && height <= stack.Length && stack[..height] == Ancestors(c)
      && height == Depth(c) && Plug(c, t) == table.tree && Sits(table.mem, table.head, c, t)
    }

    /** Pushing the node at the focus and going down to one side. */
    method Push(p: Ptr, dir: bool, ghost c: BstCtx, ghost t: Bst) returns (q: Ptr)
      requires At(c, t) && t.Node? && p == t.id && height < stack.Length
      modifies this`height, stack
      ensures At(Into(c, t, dir), Under(t, dir)) && q == Id(Under(t, dir))
    {
      SitsDown(table.mem, table.head, c, t, dir);
      stack[height] := p;
      height := height + 1;
      q := table.mem[p].At(dir);
    }

    /** bst_iterator_refresh: the stack becomes the path to the node again; both asserts hold. */
    method Refresh(cmp: (Ptr, Ptr) -> int)
      requires Ok() && Comparator(cmp) && Sorted(cmp, InOrder(table.tree))
      modifies this`height, this`generation, stack
      ensures Ok() && generation == table.generation && node == old(node)
    {
      generation := table.generation;
      if node != NULL {
        height := 0;
        var i := table.mem[table.head].left;
        ghost var c, t := Top, table.tree;
        while i != node
          invariant At(c, t) && i == Id(t) && node in Ids(t) && generation == table.generation
          decreases t
        {
          NullIsLeaf(table.mem, t);
          PathPlug(c, t, node);
          DepthHeight(c, t);
          assert height < table.maxHeight;
          assert i != NULL;
          SideOf(cmp, c, t, node);
          var dir := cmp(node, i) > 0;
          i := Push(i, dir, c, t);
          c, t := Into(c, t, dir), Under(t, dir);
        }
        PathPlug(c, t, node);
        assert Path(t, node) == [];
      }
    }

    /** Taking the node above the focus from the stack. */
    method Pop(ghost c: BstCtx, ghost t: Bst) returns (x: Ptr)
      requires At(c, t) && t.Node? && height > 0
      modifies this`height
      ensures !c.Top? && At(c.up, Fill(c, t)) && x == c.id && x in table.mem
      ensures (t.id == table.mem[x].right <==> c.InRight?) && (t.id == table.mem[x].left <==> c.InLeft?)
    {
      RepCtxInMemory(table.mem, table.head, c, t.id);
      SitsUp(table.mem, table.head, c, t);
      SiblingApart(c, t);
      height := height - 1;
      x := stack[height];
    }

    /** Pushing nodes while going left, until there is nothing further or the stack is full. */
    method DescendLeft(start: Ptr, ghost c0: BstCtx, ghost t0: Bst)
      returns (x: Ptr, full: bool, ghost c: BstCtx, ghost t: Bst)
      requires At(c0, t0) && t0.Node? && start == t0.id
      modifies this`height, stack
      ensures At(c, t) && t.Node? && x == t.id
      ensures full <==> Depth(c0) + Spine(t0) > table.maxHeight + 1
      ensures !full ==> x == Head(InOrder(t0))
    {
      x, full, c, t := start, false, c0, t0;
      while table.mem[x].left != NULL
        invariant At(c, t) && t.Node? && x == t.id
        invariant Head(InOrder(t)) == Head(InOrder(t0)) && Depth(c) + Spine(t) == Depth(c0) + Spine(t0)
        decreases t
      {
        NullIsLeaf(table.mem, t.left);
        if height >= table.maxHeight {
          full := true;
          return;
        }
        x := Push(x, false, c, t);
        c, t := Into(c, t, false), t.left;
      }
      NullIsLeaf(table.mem, t.left);
    }

    /** Pushing nodes while going right, until there is nothing further or the stack is full. */
    method DescendRight(start: Ptr, ghost c0: BstCtx, ghost t0: Bst)
      returns (x: Ptr, full: bool, ghost c: BstCtx, ghost t: Bst)
      requires At(c0, t0) && t0.Node? && start == t0.id
      modifies this`height, stack
      ensures At(c, t) && t.Node? && x == t.id
      ensures full <==> Depth(c0) + RightSpine(t0) > table.maxHeight + 1
      ensures !full ==> x == LastOf(InOrder(t0))
    {
      x, full, c, t := start, false, c0, t0;
      while table.mem[x].right != NULL
        invariant At(c, t) && t.Node? && x == t.id
        invariant LastOf(InOrder(t)) == LastOf(InOrder(t0)) && Depth(c) + RightSpine(t) == Depth(c0) + RightSpine(t0)
        decreases t
      {
        NullIsLeaf(table.mem, t.right);
        if height >= table.maxHeight {
          full := true;
          return;
        }
        x := Push(x, true, c, t);
        c, t := Into(c, t, true), t.right;
      }
      NullIsLeaf(table.mem, t.right);
    }

    method Select(x: Ptr, ghost c: BstCtx, ghost t: Bst)
      requires At(c, t) && t.Node? && x == t.id && generation == table.generation
      modifies this`node
      ensures Ok() && node == x
    {
      PathPlug(c, t, x);
      assert Path(t, x) == [];
      node := x;
    }

    /** bst_iterator_first up to its retry: the first node, or a rebalance if the stack is too small. */
    method FirstOnce() returns (r: Ptr, again: bool)
      requires table.Valid() && stack.Length == table.maxHeight
      modifies this, stack, table
      ensures table.Valid() && table.count == old(table.count)
      ensures again == (NextPushes(old(table.tree), NULL) > table.maxHeight)
      ensures Rebalanced(old(table.tree), old(table.generation), table.tree, table.generation, table.maxHeight, again)
      ensures !again ==> Ok() && generation == table.generation && r == node && r == Head(InOrder(table.tree))
    {
      height := 0;
      generation := table.generation;
      r, again := table.mem[table.head].left, false;
      NullIsLeaf(table.mem, table.tree);
      if r != NULL {
        ghost var c, t;
        r, again, c, t := DescendLeft(r, Top, table.tree);
        if again {
          table.Balance();
          return;
        }
        Select(r, c, t);
      }
      node := r;
    }

    /** bst_iterator_first; it ends exactly under this condition, see `NextAlwaysEnds`. */
    method First() returns (r: Ptr)
      requires table.Valid() && stack.Length == table.maxHeight && NextEnds(table.tree, NULL, table.maxHeight)
      modifies this, stack, table
      ensures Ok() && generation == table.generation && r == node && r == Head(InOrder(table.tree))
      ensures Rebalanced(old(table.tree), old(table.generation), table.tree, table.generation, table.maxHeight,
                         NextPushes(old(table.tree), NULL) > table.maxHeight)
      ensures table.count == old(table.count)
      decreases if NextPushes(table.tree, NULL) <= table.maxHeight then 0 else 1
    {
      var again;
      r, again := FirstOnce();
      if again {
        r := First();
      }
    }

    /** bst_iterator_last up to its retry: the last node, or a rebalance if the stack is too small. */
    method LastOnce() returns (r: Ptr, again: bool)
      requires table.Valid() && stack.Length == table.maxHeight
      modifies this, stack, table
      ensures table.Valid() && table.count == old(table.count)
      ensures again == (PrevPushes(old(table.tree), NULL) > table.maxHeight)
      ensures Rebalanced(old(table.tree), old(table.generation), table.tree, table.generation, table.maxHeight, again)
      ensures !again ==> Ok() && generation == table.generation && r == node && r == LastOf(InOrder(table.tree))
    {
      height := 0;
      generation := table.generation;
      r, again := table.mem[table.head].left, false;
      NullIsLeaf(table.mem, table.tree);
      if r != NULL {
        ghost var c, t;
        r, again, c, t := DescendRight(r, Top, table.tree);
        if again {
          table.Balance();
          return;
        }
        Select(r, c, t);
      }
      node := r;
    }

    /** bst_iterator_last; it ends exactly under this condition, see `PrevAlwaysEnds`. */
    method Last() returns (r: Ptr)
      requires table.Valid() && stack.Length == table.maxHeight && PrevEnds(table.tree, NULL, table.maxHeight)
      modifies this, stack, table
      ensures Ok() && generation == table.generation && r == node && r == LastOf(InOrder(table.tree))
      ensures Rebalanced(old(table.tree), old(table.generation), table.tree, table.generation, table.maxHeight,
                         PrevPushes(old(table.tree), NULL) > table.maxHeight)
      ensures table.count == old(table.count)
      decreases if PrevPushes(table.tree, NULL) <= table.maxHeight then 0 else 1
    {
      var again;
      r, again := LastOnce();
      if again {
        r := Last();
      }
    }

    /** bst_iterator_next up to its retry, with a node selected. */
    method NextOnce(cmp: (Ptr, Ptr) -> int) returns (r: Ptr, again: bool)
      requires Ok() && Comparator(cmp) && Sorted(cmp, InOrder(table.tree)) && node != NULL
      modifies this, stack, table
      ensures table.Valid() && table.count == old(table.count)
      ensures again == (NextPushes(old(table.tree), old(node)) > table.maxHeight)
      ensures Rebalanced(old(table.tree), old(table.generation), table.tree, table.generation, table.maxHeight, again)
      ensures again ==> node == old(node) && (Reaches(table.tree, node, table.maxHeight) ==> Ok())
      ensures !again ==> Ok() && generation == table.generation && r == node
      ensures !again ==> Follows(InOrder(table.tree), old(node), r)
    {
      if generation != table.generation {
        Refresh(cmp);
      }
      r, again := StepNext();
      if again {
        table.Balance();
      }
    }

    /** bst_iterator_next: the neighbour in the tree as it is now; it ends exactly under this condition. */
    method Next(cmp: (Ptr, Ptr) -> int) returns (r: Ptr)
      requires Ok() && Comparator(cmp) && Sorted(cmp, InOrder(table.tree))
      requires NextEnds(table.tree, node, table.maxHeight)
      modifies this, stack, table
      ensures Ok() && generation == table.generation && r == node
      ensures if old(node) == NULL then r == Head(InOrder(table.tree)) else Follows(InOrder(table.tree), old(node), r)
      ensures Rebalanced(old(table.tree), old(table.generation), table.tree, table.generation, table.maxHeight,
                         NextPushes(old(table.tree), old(node)) > table.maxHeight)
      ensures table.count == old(table.count)
      decreases if NextPushes(table.tree, node) <= table.maxHeight then 0 else 1
    {
      if node == NULL {
        r := First();
        return;
      }
      var again;
      r, again := NextOnce(cmp);
      if again {
        r := Next(cmp);
      }
    }

    /** The selected node seen as a focus, and its two neighbours. */
    lemma Here() returns (c: BstCtx, t: Bst)
      requires Ok() && generation == table.generation && node != NULL
      ensures At(c, t) && t.Node? && t.id == node
      ensures DownRight(table.tree, node) == if t.right.Leaf? then 0 else Depth(c) + Spine(t.right)
      ensures DownLeft(table.tree, node) == if t.left.Leaf? then 0 else Depth(c) + RightSpine(t.left)
      ensures Follows(InOrder(table.tree), node, if t.right.Leaf? then Head(After(c)) else Head(InOrder(t.right)))
      ensures Precedes(InOrder(table.tree), node, if t.left.Leaf? then LastOf(Before(c)) else LastOf(InOrder(t.left)))
    {
      c, t := Locate(Top, table.tree, node).0, Locate(Top, table.tree, node).1;
      SitsPlug(table.mem, table.head, c, t);
      FollowsFocus(c, t);
      PathPlug(c, t, node);
      DownPlug(c, t, node);
      DepthHeight(c, t);
      assert Path(t, node) == [];
      NodesIn(t.right, After(c));
      NodesIn(t.left, Before(c));
    }

    /** One attempt at the move, which gives up when the stack is full. */
    method StepNext() returns (r: Ptr, full: bool)
      requires Ok() && generation == table.generation && node != NULL
      modifies this`node, this`height, stack
      ensures height <= stack.Length
      ensures full <==> NextPushes(table.tree, old(node)) > table.maxHeight
      ensures if full then node == old(node) else Ok() && r == node && Follows(InOrder(table.tree), old(node), r)
    {
      ghost var c, t := Here();
      NullIsLeaf(table.mem, t.right);
      full := false;
      if table.mem[node].right != NULL {
        r, full, c, t := EnterRight(c, t);
        if full {
          return;
        }
      } else {
        r, c, t := ClimbNext(c, t);
        if r == NULL {
          node := NULL;
          return;
        }
      }
      Select(r, c, t);
    }

    /** Pushing the node and entering its right subtree. */
    method EnterRight(ghost c0: BstCtx, ghost t0: Bst) returns (x: Ptr, full: bool, ghost c: BstCtx, ghost t: Bst)
      requires At(c0, t0) && t0.Node? && t0.right.Node? && node == t0.id
      modifies this`height, stack
      ensures At(c, t) && t.Node?
      ensures full <==> Depth(c0) + Spine(t0.right) > table.maxHeight
      ensures !full ==> x == t.id && x == Head(InOrder(t0.right))
    {
      if height >= table.maxHeight {
        return NULL, true, c0, t0;
      }
      x := Push(node, true, c0, t0);
      x, full, c, t := DescendLeft(x, Into(c0, t0, true), t0.right);
    }

    /** The popping loop of bst_iterator_next. */
    method ClimbNext(ghost c0: BstCtx, ghost t0: Bst) returns (x: Ptr, ghost c: BstCtx, ghost t: Bst)
      requires At(c0, t0) && t0.Node? && node == t0.id
      modifies this`height
      ensures x == Head(After(c0)) && height <= stack.Length && (x != NULL ==> At(c, t) && t.Node? && t.id == x)
    {
      x, c, t := node, c0, t0;
      while true
        invariant At(c, t) && t.Node? && x == t.id && After(c) == After(c0)
        decreases c
      {
        if height == 0 {
          x := NULL;
          return;
        }
        var y := x;
        x := Pop(c, t);
        c, t := c.up, Fill(c, t);
        if y != table.mem[x].right {
          break;
        }
      }
    }

    /** bst_iterator_prev up to its retry, with a node selected. */
    method PrevOnce(cmp: (Ptr, Ptr) -> int) returns (r: Ptr, again: bool)
      requires Ok() && Comparator(cmp) && Sorted(cmp, InOrder(table.tree)) && node != NULL
      modifies this, stack, table
      ensures table.Valid() && table.count == old(table.count)
      ensures again == (PrevPushes(old(table.tree), old(node)) > table.maxHeight)
      ensures Rebalanced(old(table.tree), old(table.generation), table.tree, table.generation, table.maxHeight, again)
      ensures again ==> node == old(node) && (Reaches(table.tree, node, table.maxHeight) ==> Ok())
      ensures !again ==> Ok() && generation == table.generation && r == node
      ensures !again ==> Precedes(InOrder(table.tree), old(node), r)
    {
      if generation != table.generation {
        Refresh(cmp);
      }
      r, again := StepPrev();
      if again {
        table.Balance();
      }
    }

    /** bst_iterator_prev: the neighbour in the tree as it is now; it ends exactly under this condition. */
    method Prev(cmp: (Ptr, Ptr) -> int) returns (r: Ptr)
      requires Ok() && Comparator(cmp) && Sorted(cmp, InOrder(table.tree))
      requires PrevEnds(table.tree, node, table.maxHeight)
      modifies this, stack, table
      ensures Ok() && generation == table.generation && r == node
      ensures if old(node) == NULL then r == LastOf(InOrder(table.tree))
        else Precedes(InOrder(table.tree), old(node), r)
      ensures Rebalanced(old(table.tree), old(table.generation), table.tree, table.generation, table.maxHeight,
                         PrevPushes(old(table.tree), old(node)) > table.maxHeight)
      ensures table.count == old(table.count)
      decreases if PrevPushes(table.tree, node) <= table.maxHeight then 0 else 1
    {
      if node == NULL {
        r := Last();
        return;
      }
      var again;
      r, again := PrevOnce(cmp);
      if again {
        r := Prev(cmp);
      }
    }

    /** One attempt at the move, which gives up when the stack is full. */
    method StepPrev() returns (r: Ptr, full: bool)
      requires Ok() && generation == table.generation && node != NULL
      modifies this`node, this`height, stack
      ensures height <= stack.Length
      ensures full <==> PrevPushes(table.tree, old(node)) > table.maxHeight
      ensures if full then node == old(node) else Ok() && r == node && Precedes(InOrder(table.tree), old(node), r)
    {
      ghost var c, t := Here();
      NullIsLeaf(table.mem, t.left);
      full := false;
      if table.mem[node].left != NULL {
        r, full, c, t := EnterLeft(c, t);
        if full {
          return;
        }
      } else {
        r, c, t := ClimbPrev(c, t);
        if r == NULL {
          node := NULL;
          return;
        }
      }
      Select(r, c, t);
    }

    /** Pushing the node and entering its left subtree. */
    method EnterLeft(ghost c0: BstCtx, ghost t0: Bst) returns (x: Ptr, full: bool, ghost c: BstCtx, ghost t: Bst)
      requires At(c0, t0) && t0.Node? && t0.left.Node? && node == t0.id
      modifies this`height, stack
      ensures At(c, t) && t.Node?
      ensures full <==> Depth(c0) + RightSpine(t0.left) > table.maxHeight
      ensures !full ==> x == t.id && x == LastOf(InOrder(t0.left))
    {
      if height >= table.maxHeight {
        return NULL, true, c0, t0;
      }
      x := Push(node, false, c0, t0);
      x, full, c, t := DescendRight(x, Into(c0, t0, false), t0.left);
    }

    /** The popping loop of bst_iterator_prev. */
    method ClimbPrev(ghost c0: BstCtx, ghost t0: Bst) returns (x: Ptr, ghost c: BstCtx, ghost t: Bst)
      requires At(c0, t0) && t0.Node? && node == t0.id
      modifies this`height
      ensures x == LastOf(Before(c0)) && height <= stack.Length && (x != NULL ==> At(c, t) && t.Node? && t.id == x)
    {
      x, c, t := node, c0, t0;
      while true
        invariant At(c, t) && t.Node? && x == t.id && Before(c) == Before(c0)
        decreases c
      {
        if height == 0 {
          x := NULL;
          return;
        }
        var y := x;
        x := Pop(c, t);
        c, t := c.up, Fill(c, t);
        if y != table.mem[x].left {
          break;
        }
      }
    }

    /** bst_iterator_find up to its retry. */
    method FindOnce(search: Ptr -> int) returns (r: Ptr, again: bool)
      requires table.Valid() && stack.Length == table.maxHeight && Descending(search, InOrder(table.tree))
      modifies this, stack, table
      ensures table.Valid() && table.count == old(table.count)
      ensures again == (Pushes(search, old(table.tree)) > table.maxHeight)
      ensures Rebalanced(old(table.tree), old(table.generation), table.tree, table.generation, table.maxHeight, again)
      ensures !again ==> Ok() && generation == table.generation && r == node
      ensures !again && r == NULL ==> forall x :: x in Ids(table.tree) ==> search(x) != 0
      ensures !again && r != NULL ==> r in Ids(table.tree) && search(r) == 0
    {
      ghost var c, t;
      var dir;
      r, again, dir, c, t := Trace(search);
      if again {
        table.Balance();
        return;
      }
      if r != NULL {
        Select(r, c, t);
        PlugDistinct(c, t);
        return;
      }
      PlugInOrder(c, t);
      IdsInOrder(table.tree);
      height := 0;
      node := NULL;
    }

    /** bst_iterator_find; it ends exactly under this condition, see `FindAlwaysEnds`. */
    method Find(search: Ptr -> int) returns (r: Ptr)
      requires table.Valid() && stack.Length == table.maxHeight && Descending(search, InOrder(table.tree))
      requires FindEnds(search, table.tree, table.maxHeight)
      modifies this, stack, table
      ensures Ok() && generation == table.generation && r == node
      ensures r == NULL ==> forall x :: x in Ids(table.tree) ==> search(x) != 0
      ensures r != NULL ==> r in Ids(table.tree) && search(r) == 0
      ensures Rebalanced(old(table.tree), old(table.generation), table.tree, table.generation, table.maxHeight,
                         Pushes(search, old(table.tree)) > table.maxHeight)
      ensures table.count == old(table.count)
      decreases if Pushes(search, table.tree) <= table.maxHeight then 0 else 1
    {
      var again;
      r, again := FindOnce(search);
      if again {
        r := Find(search);
      }
    }

    /** The pushing search shared by bst_iterator_find and bst_iterator_insert. */
    method Trace(search: Ptr -> int) returns (p: Ptr, full: bool, dir: bool, ghost c: BstCtx, ghost t: Bst)
      requires table.Valid() && stack.Length == table.maxHeight && Descending(search, InOrder(table.tree))
      modifies this`height, this`generation, stack
      ensures At(c, t) && generation == table.generation && p == Id(t) && (!c.Top? ==> dir == Side(c))
      ensures full <==> Pushes(search, table.tree) > table.maxHeight
      ensures !full && p != NULL ==> t.Node? && search(p) == 0
      ensures !full && p == NULL ==> t.Leaf? && Leads(search, c)
    {
      height := 0;
      generation := table.generation;
      p, full, dir := table.mem[table.head].left, false, false;
      c, t := Top, table.tree;
      while p != NULL && search(p) != 0
        invariant At(c, t) && generation == table.generation && p == Id(t) && (!c.Top? ==> dir == Side(c))
        invariant Leads(search, c)
        decreases t
      {
        NullIsLeaf(table.mem, t);
        if height >= table.maxHeight {
          PushesPlug(search, c, t);
          full := true;
          return;
        }
        Steer(search, c, t);
        dir := search(p) > 0;
        p := Push(p, dir, c, t);
        c, t := Into(c, t, dir), Under(t, dir);
      }
      NullIsLeaf(table.mem, t);
      PushesPlug(search, c, t);
    }

    /** bst_iterator_insert up to its retry. */
    method InsertOnce(n: Ptr, cmp: (Ptr, Ptr) -> int) returns (r: Ptr, again: bool)
      requires table.Valid() && stack.Length == table.maxHeight
      requires n != NULL && n != table.head && n in table.mem
      requires Comparator(cmp) && Sorted(cmp, InOrder(table.tree))
      modifies this, stack, table
      ensures table.Valid() && again == (Pushes((y: Ptr) => cmp(n, y), old(table.tree)) > table.maxHeight)
      ensures again ==> table.count == old(table.count) && n in table.mem
      ensures again ==>
        Rebalanced(old(table.tree), old(table.generation), table.tree, table.generation, table.maxHeight, true)
      ensures !again ==> Ok() && generation == table.generation == old(table.generation) && r == node
      ensures !again ==> Entered(old(table.tree), table.tree, n, cmp, r) && Sorted(cmp, InOrder(table.tree))
      ensures !again ==> KeepsCursors(old(table.tree), table.generation, table.tree, table.generation, table.maxHeight)
    {
      ghost var c, t;
      ComparatorDescends(cmp, n, InOrder(table.tree));
      var dir;
      r, again, dir, c, t := Trace((y: Ptr) => cmp(n, y));
      if again {
        table.Balance();
        return;
      }
      if r != NULL {
        Select(r, c, t);
        PlugDistinct(c, t);
        return;
      }
      InsertionPoint(cmp, c, n);
      Hang(n, dir, c);
      r := n;
    }

    /** A new leaf where the search fell off; the iterator selects it. */
    method Hang(n: Ptr, dir: bool, ghost c: BstCtx)
      requires At(c, Leaf) && generation == table.generation && (!c.Top? ==> dir == Side(c))
      requires n != NULL && n != table.head && n in table.mem && n !in Ids(table.tree)
      modifies this`node, table
      ensures Ok() && generation == table.generation == old(table.generation) && node == n
      ensures table.count == old(table.count) + 1 && InOrder(table.tree) == Before(c) + [n] + After(c)
      ensures KeepsCursors(old(table.tree), table.generation, table.tree, table.generation, table.maxHeight)
    {
      RepCtxInMemory(table.mem, table.head, c, NULL);
      table.Attach(n, if height == 0 then table.head else stack[height - 1], dir, c);
      SitsPlug(table.mem, table.head, c, Node(Leaf, n, (), Leaf));
      Select(n, c, Node(Leaf, n, (), Leaf));
    }

    /** bst_iterator_insert: the iterator ends up on the new node, or on its equal; it ends exactly
        under this condition, see `InsertAlwaysEnds`. */
    method Insert(n: Ptr, cmp: (Ptr, Ptr) -> int) returns (r: Ptr)
      requires table.Valid() && stack.Length == table.maxHeight && InsertEnds(cmp, n, table.tree, table.maxHeight)
      requires n != NULL && n != table.head && n in table.mem
      requires Comparator(cmp) && Sorted(cmp, InOrder(table.tree))
      modifies this, stack, table
      ensures Ok() && generation == table.generation && r == node
      ensures Entered(old(table.tree), table.tree, n, cmp, r) && Sorted(cmp, InOrder(table.tree))
      ensures var pushes := Pushes((y: Ptr) => cmp(n, y), old(table.tree));
        pushes <= table.maxHeight || old(table.count) < Pow2(table.maxHeight + 1) ==>
        KeepsCursors(old(table.tree), old(table.generation), table.tree, table.generation, table.maxHeight)
      decreases if Pushes((y: Ptr) => cmp(n, y), table.tree) <= table.maxHeight then 0 else 1
    {
      var again;
      r, again := InsertOnce(n, cmp);
      if again {
        r := Insert(n, cmp);
      }
    }

    /** While the tree is not too high, a step forward leaves the table alone. */
    method StepOn(cmp: (Ptr, Ptr) -> int) returns (r: Ptr)
      requires Ok() && Comparator(cmp) && Sorted(cmp, InOrder(table.tree)) && node != NULL
      requires table.count < Pow2(table.maxHeight + 1) && Height(table.tree) <= table.maxHeight + 1
      modifies this, stack, table
      ensures Ok() && table.tree == old(table.tree) && table.generation == old(table.generation)
      ensures table.count == old(table.count)
      ensures r == node && Follows(InOrder(table.tree), old(node), r)
    {
      PushesBelow(table.tree, node);
      r := Next(cmp);
    }

    /** Nor does the start of a walk. */
    method StartOn() returns (r: Ptr)
      requires table.Valid() && stack.Length == table.maxHeight && Height(table.tree) <= table.maxHeight + 1
      modifies this, stack, table
      ensures Ok() && table.tree == old(table.tree) && table.generation == old(table.generation)
      ensures table.count == old(table.count)
      ensures r == node && r == Head(InOrder(table.tree))
    {
      PushesBelow(table.tree, NULL);
      r := First();
    }

    /** A walk over such a tree visits the in-order sequence. */
    method Walk(cmp: (Ptr, Ptr) -> int) returns (visited: seq<Ptr>)
      requires Ok() && Comparator(cmp) && Sorted(cmp, InOrder(table.tree))
      requires table.count < Pow2(table.maxHeight + 1) && Height(table.tree) <= table.maxHeight + 1
      modifies this, stack, table
      ensures Ok() && table.tree == old(table.tree) && table.generation == old(table.generation)
      ensures visited == InOrder(table.tree)
    {
      ghost var t, g := table.tree, table.generation;
      WalkOrder(table.mem, t);
      visited := [];
      var n := StartOn();
      while n != NULL
        invariant Ok() && n == node && table.tree == t && table.generation == g
        invariant table.count < Pow2(table.maxHeight + 1)
        invariant Walked(InOrder(t), visited, n)
        decreases |InOrder(t)| - |visited|
      {
        visited := visited + [n];
        n := StepOn(cmp);
        WalkStep(InOrder(t), visited, n);
      }
      WalkEnds(InOrder(t), visited);
    }
  }

  /** `visited` is the beginning of `s`, and `n` comes next. */
  ghost predicate Walked(s: seq<Ptr>, visited: seq<Ptr>, n: Ptr) {
    |visited| <= |s| && visited == s[..|visited|] && n == Head(s[|visited|..])
  }

  lemma WalkEnds(s: seq<Ptr>, visited: seq<Ptr>)
    requires NULL !in s && Walked(s, visited, NULL)
    ensures visited == s
  {
    var r := s[|visited|..];
    assert visited + r == s;
    assert forall x :: x in r ==> x in s;
  }

  /** A subtree that is not empty comes next to the focus on its side. */
  lemma NodesIn(t: Bst, s: seq<Ptr>)
    ensures Head(InOrder(t) + s) == if t.Leaf? then Head(s) else Head(InOrder(t))
    ensures LastOf(s + InOrder(t)) == if t.Leaf? then LastOf(s) else LastOf(InOrder(t))
  {
    assert t.Node? ==> |InOrder(t)| > 0;
    assert InOrder(t) + s == s || t.Node?;
    assert s + InOrder(t) == s || t.Node?;
  }

  lemma WalkOrder(m: Memory, t: Bst)
    requires Rep(m, t) && Distinct(t)
    ensures NoRepeat(InOrder(t)) && NULL !in InOrder(t)
  {
    DistinctInOrder(t);
    RepInMemory(m, t);
    IdsInOrder(t);
  }

  lemma WalkStep(s: seq<Ptr>, visited: seq<Ptr>, n: Ptr)
    requires NoRepeat(s) && visited != [] && Walked(s, visited[..|visited| - 1], visited[|visited| - 1])
    requires visited[|visited| - 1] != NULL
    requires Follows(s, visited[|visited| - 1], n)
    ensures Walked(s, visited, n)
  {
    assert visited == visited[..|visited| - 1] + [visited[|visited| - 1]];
    assert visited == s[..|visited|];
    assert visited + s[|visited|..] == s;
    FollowsLast(visited, s[|visited|..], n);
  }

  /**
   A table made with the height that `fhs` gives for its size, and balanced, as uapi/uapi_server.c
   does it: a walk never has to rebalance.
   */
  method WalkBalanced(table: BstTable, cmp: (Ptr, Ptr) -> int) returns (visited: seq<Ptr>)
    requires table.Valid() && table.maxHeight >= BitLength(table.count)
    requires Comparator(cmp) && Sorted(cmp, InOrder(table.tree))
    modifies table
    ensures table.Valid() && visited == InOrder(table.tree) == old(InOrder(table.tree))
    ensures Height(table.tree) <= table.maxHeight && table.generation == old(table.generation) + 1
  {
    table.Balance();
    BitLengthBounds(table.count);
    Pow2Monotone(BitLength(table.count), table.maxHeight + 1);
    var it := new BstIterator(table);
    visited := it.Walk(cmp);
  }
}
