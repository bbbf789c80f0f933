/**
 Plain search trees as values: how link memory represents a tree, the Day-Stout-Warren
 rebalancing of common/bst.c as functions on trees, and what it does to heights and paths.
 */
module BstShape {
  import opened Trees
  import opened Bits
  import opened Orders

  /** The two links of struct bst_node: bst_link[0] and bst_link[1]. */
  datatype Links = Links(left: Ptr, right: Ptr) {
    function At(dir: bool): Ptr {
      if dir then right else left
    }
    function With(dir: bool, p: Ptr): Links {
      if dir then Links(left, p) else Links(p, right)
    }
  }

  type Memory = map<Ptr, Links>
  type Bst = Tree<()>
  type BstCtx = Ctx<()>

  function SetLink(m: Memory, x: Ptr, dir: bool, p: Ptr): Memory
    requires x in m
  {
    m[x := m[x].With(dir, p)]
  }

  // ---- memory represents a tree ----

  ghost predicate Rep(m: Memory, t: Bst) {
    match t
    case Leaf => true
    case Node(l, x, _, r) => x != NULL && x in m && m[x] == Links(Id(l), Id(r)) && Rep(m, l) && Rep(m, r)
  }

  /** The context `c` hangs below the pseudo-node `head`, whose left link is the tree root. */
  ghost predicate RepCtx(m: Memory, head: Ptr, c: BstCtx, child: Ptr)
    decreases c
  {
    match c
    case Top => head in m && m[head].left == child
    case InLeft(up, x, _, r) =>
      x != NULL && x in m && m[x] == Links(child, Id(r)) && Rep(m, r) && RepCtx(m, head, up, x)
    case InRight(l, x, _, up) =>
      x != NULL && x in m && m[x] == Links(Id(l), child) && Rep(m, l) && RepCtx(m, head, up, x)
  }

  ghost predicate Sits(m: Memory, head: Ptr, c: BstCtx, t: Bst) {
    && Fits(c, t) && head !in Ids(t) && head !in CtxIds(c) && head != NULL
    && Rep(m, t) && RepCtx(m, head, c, Id(t))
  }

  /** The node whose link leads to the hole; the pseudo-node at the top. */
  function Above(head: Ptr, c: BstCtx): Ptr {
    if c.Top? then head else c.id
  }

  function Side(c: BstCtx): bool {
    c.InRight?
  }

  lemma {:induction false} RepFrame(m: Memory, m': Memory, t: Bst)
    requires Rep(m, t) && Agree(m, m', Ids(t))
    ensures Rep(m', t)
    decreases t
  {
    if t.Node? {
      RepFrame(m, m', t.left);
      RepFrame(m, m', t.right);
    }
  }

  lemma {:induction false} RepCtxFrame(m: Memory, m': Memory, head: Ptr, c: BstCtx, child: Ptr)
    requires RepCtx(m, head, c, child) && Agree(m, m', CtxIds(c) + {head})
    ensures RepCtx(m', head, c, child)
    decreases c
  {
    match c
    case Top =>
    case InLeft(up, x, _, r) =>
      RepFrame(m, m', r);
      RepCtxFrame(m, m', head, up, x);
    case InRight(l, x, _, up) =>
      RepFrame(m, m', l);
      RepCtxFrame(m, m', head, up, x);
  }

  /** Writing the link into the hole replaces the focus. */
  lemma RepCtxHung(m: Memory, m': Memory, head: Ptr, c: BstCtx, child: Ptr, child': Ptr)
    requires RepCtx(m, head, c, child) && CtxDistinct(c) && head !in CtxIds(c)
    requires Above(head, c) in m && Above(head, c) in m'
    requires m'[Above(head, c)] == m[Above(head, c)].With(Side(c), child')
    requires Agree(m, m', CtxIds(c) + {head} - {Above(head, c)})
    ensures RepCtx(m', head, c, child')
  {
    match c
    case Top =>
    case InLeft(up, x, _, r) =>
      RepFrame(m, m', r);
      RepCtxFrame(m, m', head, up, x);
    case InRight(l, x, _, up) =>
      RepFrame(m, m', l);
      RepCtxFrame(m, m', head, up, x);
  }

  lemma {:induction false} RepInMemory(m: Memory, t: Bst)
    requires Rep(m, t)
    ensures Ids(t) <= m.Keys && NULL !in Ids(t)
  {
    if t.Node? {
      RepInMemory(m, t.left);
      RepInMemory(m, t.right);
    }
  }

  lemma NullIsLeaf(m: Memory, t: Bst)
    requires Rep(m, t)
    ensures t.Leaf? <==> Id(t) == NULL
  {
  }

  lemma {:induction false} RepCtxInMemory(m: Memory, head: Ptr, c: BstCtx, child: Ptr)
    requires RepCtx(m, head, c, child)
    ensures CtxIds(c) <= m.Keys && NULL !in CtxIds(c) && head in m
    ensures Above(head, c) in m && m[Above(head, c)].At(Side(c)) == child
    decreases c
  {
    match c
    case Top =>
    case InLeft(up, x, _, r) =>
      RepInMemory(m, r);
      RepCtxInMemory(m, head, up, x);
    case InRight(l, x, _, up) =>
      RepInMemory(m, l);
      RepCtxInMemory(m, head, up, x);
  }

  ghost function Fill(c: BstCtx, t: Bst): (p: Bst)
    requires !c.Top?
    ensures p.Node?
  {
    if c.InLeft? then Node(t, c.id, c.data, c.right) else Node(c.left, c.id, c.data, t)
  }

  lemma {:induction false} SitsPlug(m: Memory, head: Ptr, c: BstCtx, t: Bst)
    ensures Sits(m, head, c, t) <==> Sits(m, head, Top, Plug(c, t))
    decreases c
  {
    match c
    case Top =>
    case InLeft(up, x, d, r) =>
      SitsPlug(m, head, up, Node(t, x, d, r));
    case InRight(l, x, d, up) =>
      SitsPlug(m, head, up, Node(l, x, d, t));
  }

  lemma SitsUp(m: Memory, head: Ptr, c: BstCtx, t: Bst)
    requires !c.Top?
    ensures Sits(m, head, c, t) <==> Sits(m, head, c.up, Fill(c, t))
    ensures Plug(c, t) == Plug(c.up, Fill(c, t))
  {
  }

  /** The focus moves down to one side: the context and the subtree there. */
  ghost function Into(c: BstCtx, t: Bst, dir: bool): BstCtx
    requires t.Node?
  {
    if dir then InRight(t.left, t.id, t.data, c) else InLeft(c, t.id, t.data, t.right)
  }

  ghost function Under(t: Bst, dir: bool): Bst
    requires t.Node?
  {
    if dir then t.right else t.left
  }

  lemma SitsDown(m: Memory, head: Ptr, c: BstCtx, t: Bst, dir: bool)
    requires Sits(m, head, c, t) && t.Node?
    ensures Sits(m, head, Into(c, t, dir), Under(t, dir)) && Plug(Into(c, t, dir), Under(t, dir)) == Plug(c, t)
    ensures t.id in m && m[t.id].At(dir) == Id(Under(t, dir))
  {
    SitsUp(m, head, Into(c, t, dir), Under(t, dir));
  }

  lemma PlugSame(c: BstCtx, t: Bst, t': Bst)
    requires SameNodes(t, t')
    ensures SameNodes(Plug(c, t), Plug(c, t'))
  {
    PlugInOrder(c, t);
    PlugInOrder(c, t');
    PlugDistinct(c, t);
    PlugDistinct(c, t');
  }

  // ---- rotations ----

  /** The right child comes up, as in slant_left. */
  ghost function RotatedLeft(t: Bst): Bst
    requires t.Node? && t.right.Node?
  {
    var x := t.right;
    Node(Node(t.left, t.id, t.data, x.left), x.id, x.data, x.right)
  }

  /** The left child comes up, as in one compression step. */
  ghost function RotatedRight(t: Bst): Bst
    requires t.Node? && t.left.Node?
  {
    var x := t.left;
    Node(x.left, x.id, x.data, Node(x.right, t.id, t.data, t.right))
  }

  lemma RotatedLeftInOrder(t: Bst)
    requires t.Node? && t.right.Node?
    ensures InOrder(RotatedLeft(t)) == InOrder(t)
  {
  }

  lemma RotatedRightInOrder(t: Bst)
    requires t.Node? && t.left.Node?
    ensures InOrder(RotatedRight(t)) == InOrder(t)
  {
  }

  lemma RotatedDistinct(t: Bst)
    requires t.Node? && Distinct(t)
    ensures t.right.Node? ==> Distinct(RotatedLeft(t)) && Ids(RotatedLeft(t)) == Ids(t)
    ensures t.left.Node? ==> Distinct(RotatedRight(t)) && Ids(RotatedRight(t)) == Ids(t)
  {
    if t.right.Node? {
      assert Distinct(t.right) && Distinct(RotatedLeft(t).left);
    }
    if t.left.Node? {
      assert Distinct(t.left) && Distinct(RotatedRight(t).right);
    }
  }

  /** The three link writes of a rotation, cell by cell. */
  lemma RotatedLeftSits(m: Memory, m': Memory, head: Ptr, c: BstCtx, t: Bst)
    requires Sits(m, head, c, t) && t.Node? && t.right.Node? && t.id in m && t.right.id in m && Above(head, c) in m
    requires m' ==
      SetLink(SetLink(SetLink(m, t.id, true, Id(t.right.left)), t.right.id, false, t.id),
              Above(head, c), Side(c), t.right.id)
    ensures Sits(m', head, c, RotatedLeft(t))
  {
    assert Rep(m, t.right) && t.right.id in Ids(t.right) && Distinct(t.right);
    RepCtxInMemory(m, head, c, t.id);
    RotatedLeftCells(m, m', head, c, t);
    RotatedDistinct(t);
    RepFrame(m, m', t.left);
    RepFrame(m, m', t.right.left);
    RepFrame(m, m', t.right.right);
    RepCtxHung(m, m', head, c, t.id, t.right.id);
  }

  lemma RotatedLeftCells(m: Memory, m': Memory, head: Ptr, c: BstCtx, t: Bst)
    requires t.Node? && t.right.Node? && t.id in m && t.right.id in m && Above(head, c) in m
    requires t.id != t.right.id && Above(head, c) !in {t.id, t.right.id}
    requires m' ==
      SetLink(SetLink(SetLink(m, t.id, true, Id(t.right.left)), t.right.id, false, t.id),
              Above(head, c), Side(c), t.right.id)
    ensures OnlyIn(m, m', {t.id, t.right.id, Above(head, c)})
    ensures m'[t.id] == m[t.id].(right := Id(t.right.left)) && m'[t.right.id] == m[t.right.id].(left := t.id)
    ensures m'[Above(head, c)] == m[Above(head, c)].With(Side(c), t.right.id)
  {
  }

  /** The three link writes of a rotation, cell by cell. */
  lemma RotatedRightSits(m: Memory, m': Memory, head: Ptr, c: BstCtx, t: Bst)
    requires Sits(m, head, c, t) && t.Node? && t.left.Node? && t.id in m && t.left.id in m && Above(head, c) in m
    requires m' ==
      SetLink(SetLink(SetLink(m, t.id, false, Id(t.left.right)), t.left.id, true, t.id),
              Above(head, c), Side(c), t.left.id)
    ensures Sits(m', head, c, RotatedRight(t))
  {
    assert Rep(m, t.left) && t.left.id in Ids(t.left) && Distinct(t.left);
    RepCtxInMemory(m, head, c, t.id);
    RotatedRightCells(m, m', head, c, t);
    RotatedDistinct(t);
    RepFrame(m, m', t.right);
    RepFrame(m, m', t.left.right);
    RepFrame(m, m', t.left.left);
    RepCtxHung(m, m', head, c, t.id, t.left.id);
  }

  lemma RotatedRightCells(m: Memory, m': Memory, head: Ptr, c: BstCtx, t: Bst)
    requires t.Node? && t.left.Node? && t.id in m && t.left.id in m && Above(head, c) in m
    requires t.id != t.left.id && Above(head, c) !in {t.id, t.left.id}
    requires m' ==
      SetLink(SetLink(SetLink(m, t.id, false, Id(t.left.right)), t.left.id, true, t.id),
              Above(head, c), Side(c), t.left.id)
    ensures OnlyIn(m, m', {t.id, t.left.id, Above(head, c)})
    ensures m'[t.id] == m[t.id].(left := Id(t.left.right)) && m'[t.left.id] == m[t.left.id].(right := t.id)
    ensures m'[Above(head, c)] == m[Above(head, c)].With(Side(c), t.left.id)
  {
  }

  lemma RotatedRightRep(m: Memory, t: Bst)
    requires Rep(m, t) && Distinct(t) && t.Node? && t.left.Node?
    ensures t.left.id in m && t.left.id in Ids(t) && t.left.id != t.id
    ensures m[t.left.id] == Links(Id(t.left.left), Id(t.left.right))
    ensures Rep(SetLink(SetLink(m, t.id, false, Id(t.left.right)), t.left.id, true, t.id), RotatedRight(t))
  {
    assert Rep(m, t.left) && t.left.id in Ids(t.left) && Distinct(t.left);
    var m' := SetLink(SetLink(m, t.id, false, Id(t.left.right)), t.left.id, true, t.id);
    RepFrame(m, m', t.right);
    RepFrame(m, m', t.left.left);
    RepFrame(m, m', t.left.right);
  }

  // ---- rebalancing ----

  /** The number of nodes on the left spine. */
  ghost function Spine(t: Bst): nat {
    if t.Leaf? then 0 else 1 + Spine(t.left)
  }

  /** A left slanted tree: no node has a right child. */
  ghost predicate Vine(t: Bst) {
    t.Node? ==> t.right == Leaf && Vine(t.left)
  }

  /** The context of a left slanted tree below its hole. */
  ghost predicate VineCtx(c: BstCtx) {
    !c.Top? ==> c.InLeft? && c.right == Leaf && VineCtx(c.up)
  }

  lemma {:induction false} PlugVine(c: BstCtx, t: Bst)
    requires VineCtx(c) && Vine(t)
    ensures Vine(Plug(c, t))
    decreases c
  {
    if !c.Top? {
      PlugVine(c.up, Fill(c, t));
    }
  }

  lemma {:induction false} VineSpine(t: Bst)
    requires Vine(t)
    ensures Spine(t) == Size(t)
  {
    if t.Node? {
      VineSpine(t.left);
    }
  }

  /** `k` compression steps down the left spine (slant_left_back). */
  ghost function Compress(t: Bst, k: nat): Bst
    requires 2 * k <= Spine(t)
    decreases k
  {
    if k == 0 then t
    else
      assert Spine(t) == 1 + Spine(t.left);
      var u := RotatedRight(t);
      Node(Compress(u.left, k - 1), u.id, u.data, u.right)
  }

  lemma CompressStep(c: BstCtx, t: Bst, k: nat)
    requires 0 < k && 2 * k <= Spine(t)
    ensures t.Node? && t.left.Node? && 2 * (k - 1) <= Spine(RotatedRight(t).left)
    ensures Plug(Into(c, RotatedRight(t), false), Compress(RotatedRight(t).left, k - 1)) == Plug(c, Compress(t, k))
  {
    assert Spine(t) == 1 + Spine(t.left);
  }

  lemma {:induction false} CompressKeeps(t: Bst, k: nat)
    requires 2 * k <= Spine(t)
    ensures SameNodes(Compress(t, k), t)
    decreases k
  {
    if k > 0 {
      var u := RotatedRight(t);
      CompressKeeps(u.left, k - 1);
      RotatedRightInOrder(t);
      assert Ids(u) == Ids(t);
    }
  }

  /** The top `k` spine nodes, and the tree below them, leave at most height `h` on the right. */
  ghost predicate Fringe(t: Bst, k: nat, h: nat) {
    if k == 0 then Height(t) <= h else t.Node? && Height(t.right) <= h && Fringe(t.left, k - 1, h)
  }

  lemma {:induction false} FringeSpine(t: Bst, k: nat, h: nat)
    requires Fringe(t, k, h)
    ensures k <= Spine(t)
  {
    if k > 0 {
      FringeSpine(t.left, k - 1, h);
    }
  }

  /** A pass over 2k + 1 spine nodes halves their number and costs one level. */
  lemma {:induction false} CompressFringe(t: Bst, k: nat, h: nat)
    requires Fringe(t, 2 * k + 1, h)
    ensures 2 * k <= Spine(t) && Fringe(Compress(t, k), k, h + 1)
    decreases k
  {
    FringeSpine(t, 2 * k + 1, h);
    if k > 0 {
      assert Fringe(t.left, 2 * k, h);
      var u := RotatedRight(t);
      assert Fringe(u.left, 2 * (k - 1) + 1, h);
      CompressFringe(u.left, k - 1, h);
    }
  }

  lemma {:induction false} VineFringe(t: Bst, h: nat)
    requires Vine(t)
    ensures Fringe(t, Size(t), h)
  {
    if t.Node? {
      VineFringe(t.left, h);
    }
  }

  /** The first pass folds `k` nodes of a vine in as leaves of height one. */
  lemma {:induction false} CompressVine(t: Bst, k: nat)
    requires Vine(t) && 2 * k <= Size(t)
    ensures 2 * k <= Spine(t) && Fringe(Compress(t, k), Size(t) - k, if k > 0 then 1 else 0)
    decreases k
  {
    VineSpine(t);
    CompressVineAt(t, k, if k > 0 then 1 else 0);
  }

  lemma {:induction false} CompressVineAt(t: Bst, k: nat, h: nat)
    requires Vine(t) && 2 * k <= Size(t) && Spine(t) == Size(t) && (k > 0 ==> h >= 1)
    ensures Fringe(Compress(t, k), Size(t) - k, h)
    decreases k
  {
    if k == 0 {
      VineFringe(t, h);
    } else {
      assert Vine(t.left);
      var u := RotatedRight(t);
      assert Height(u.right) == 1;
      CompressVineAt(u.left, k - 1, h);
    }
  }

  /** The bottom-level leaves folded in first, and the bits of the node count. */
  lemma BalanceArithmetic(n: nat)
    ensures var p := TopPower(n + 1);
      && p <= n + 1 && 2 * (n + 1 - p) <= n
      && p == Pow2(BitLength(n + 1) - 1)
      && (n > 0 ==> BitLength(n) == BitLength(n + 1) - 1 + if n + 1 - p > 0 then 1 else 0)
  {
    TopPowerBits(n + 1);
    var k := BitLength(n + 1) - 1;
    if n > 0 {
      if n + 1 == TopPower(n + 1) {
        assert k > 0;
        BitLengthUnique(n, k);
      } else {
        BitLengthUnique(n, k + 1);
      }
    }
  }

  /** No tree of n nodes is lower than the bit length of n. */
  lemma HeightAtLeast(t: Bst)
    ensures BitLength(Size(t)) <= Height(t)
  {
    SizeHeight(t);
    BitLengthBounds(Size(t));
    if BitLength(Size(t)) > Height(t) {
      Pow2Monotone(Height(t), BitLength(Size(t)) - 1);
    }
  }

  // ---- paths ----

  /** The nodes above `x`, from the root down: what an iterator keeps on its stack. */
  ghost function Path(t: Bst, x: Ptr): seq<Ptr>
    requires x in Ids(t)
  {
    if x == t.id then []
    else [t.id] + if x in Ids(t.left) then Path(t.left, x) else Path(t.right, x)
  }

  ghost function Ancestors(c: BstCtx): seq<Ptr> {
    if c.Top? then [] else Ancestors(c.up) + [c.id]
  }

  lemma {:induction false} PathPlug(c: BstCtx, t: Bst, x: Ptr)
    requires Fits(c, t) && x in Ids(t)
    ensures x in Ids(Plug(c, t)) && Path(Plug(c, t), x) == Ancestors(c) + Path(t, x)
    decreases c
  {
    if !c.Top? {
      PathPlug(c.up, Fill(c, t), x);
      assert Path(Fill(c, t), x) == [c.id] + Path(t, x);
    }
  }

  /** Nodes outside the focus do not notice what happens to it. */
  lemma {:induction false} PathOutside(c: BstCtx, t: Bst, t': Bst, x: Ptr)
    requires Fits(c, t) && Fits(c, t') && x in CtxIds(c)
    ensures x in Ids(Plug(c, t)) && x in Ids(Plug(c, t')) && Path(Plug(c, t), x) == Path(Plug(c, t'), x)
    decreases c
  {
    var p, p' := Fill(c, t), Fill(c, t');
    if x in CtxIds(c.up) {
      PathOutside(c.up, p, p', x);
    } else {
      PathPlug(c.up, p, x);
      PathPlug(c.up, p', x);
      assert Path(p, x) == Path(p', x);
    }
  }

  lemma {:induction false} PathHeight(t: Bst, x: Ptr)
    requires x in Ids(t)
    ensures |Path(t, x)| < Height(t)
  {
    if x != t.id {
      PathHeight(if x in Ids(t.left) then t.left else t.right, x);
    }
  }

  // ---- removal ----

  ghost function Min(t: Bst): Ptr
    requires t.Node?
  {
    if t.left.Leaf? then t.id else Min(t.left)
  }

  /** The parent of the leftmost node. */
  ghost function MinParent(t: Bst): Ptr
    requires t.Node? && t.left.Node?
  {
    if t.left.left.Leaf? then t.id else MinParent(t.left)
  }

  ghost function DropMin(t: Bst): Bst
    requires t.Node?
  {
    if t.left.Leaf? then t.right else Node(DropMin(t.left), t.id, t.data, t.right)
  }

  /** What bst_remove leaves in the place of the focus. */
  ghost function Spliced(t: Bst): Bst
    requires t.Node?
  {
    if t.right.Leaf? then t.left else Node(t.left, Min(t.right), t.data, DropMin(t.right))
  }

  lemma {:induction false} DropMinKeeps(t: Bst)
    requires t.Node? && Distinct(t)
    ensures InOrder(t) == [Min(t)] + InOrder(DropMin(t))
    ensures Min(t) in Ids(t) && Ids(DropMin(t)) == Ids(t) - {Min(t)} && Distinct(DropMin(t))
  {
    if t.left.Node? {
      DropMinKeeps(t.left);
    }
  }

  lemma SplicedKeeps(t: Bst)
    requires t.Node? && Distinct(t)
    ensures InOrder(Spliced(t)) == InOrder(t.left) + InOrder(t.right)
    ensures Ids(Spliced(t)) == Ids(t) - {t.id} && Distinct(Spliced(t))
  {
    if t.right.Node? {
      DropMinKeeps(t.right);
      SplicedOrder(InOrder(t.left), Min(t.right), InOrder(DropMin(t.right)));
    }
  }

  lemma SplicedOrder(a: seq<Ptr>, x: Ptr, b: seq<Ptr>)
    ensures a + [x] + b == a + ([x] + b)
  {
  }

  lemma SplicedWhole(c: BstCtx, t: Bst)
    requires Fits(c, t) && t.Node?
    ensures Ids(Plug(c, Spliced(t))) == Ids(Plug(c, t)) - {t.id}
    ensures Size(Plug(c, Spliced(t))) == Size(Plug(c, t)) - 1
    ensures exists i :: IsRemoval(InOrder(Plug(c, t)), i, t.id, InOrder(Plug(c, Spliced(t))))
  {
    SplicedKeeps(t);
    PlugDistinct(c, t);
    PlugDistinct(c, Spliced(t));
    PlugInOrder(c, t);
    PlugInOrder(c, Spliced(t));
    IdsInOrder(Plug(c, t));
    IdsInOrder(Plug(c, Spliced(t)));
    SeqRemoval(Before(c), InOrder(t.left), t.id, InOrder(t.right), After(c));
  }

  lemma {:induction false} DropMinPath(t: Bst, x: Ptr)
    requires t.Node? && Distinct(t) && x in Ids(t) && x != Min(t)
    ensures x in Ids(DropMin(t)) && |Path(DropMin(t), x)| <= |Path(t, x)|
  {
    DropMinKeeps(t);
    if t.left.Node? {
      DropMinKeeps(t.left);
      if x in Ids(t.left) {
        DropMinPath(t.left, x);
      }
    }
  }

  /** Removing a node brings no other node further down. */
  lemma SplicedPath(t: Bst, x: Ptr)
    requires t.Node? && Distinct(t) && x in Ids(t) && x != t.id
    ensures x in Ids(Spliced(t)) && |Path(Spliced(t), x)| <= |Path(t, x)|
  {
    SplicedKeeps(t);
    if t.right.Node? && x in Ids(t.right) {
      DropMinKeeps(t.right);
      if x != Min(t.right) {
        DropMinPath(t.right, x);
      }
    }
  }

  lemma {:induction false} MinInMemory(m: Memory, t: Bst)
    requires Rep(m, t) && t.Node? && Distinct(t)
    ensures Min(t) in Ids(t) && Min(t) in m && m[Min(t)].left == NULL
    ensures t.left.Node? ==>
      && MinParent(t) in Ids(t) && MinParent(t) in m && m[MinParent(t)].left == Min(t) && MinParent(t) != Min(t)
      && DropMin(t).Node? && DropMin(t).id == t.id
  {
    if t.left.Node? {
      MinInMemory(m, t.left);
    }
  }

  /** Cutting the leftmost node out of the left spine. */
  lemma {:induction false} DropMinRep(m: Memory, m': Memory, t: Bst)
    requires Rep(m, t) && t.Node? && t.left.Node? && Distinct(t) && Min(t) in m && MinParent(t) in m
    requires MinParent(t) in m'
    requires m'[MinParent(t)] == m[MinParent(t)].(left := m[Min(t)].right)
    requires Agree(m, m', Ids(t) - {MinParent(t), Min(t)})
    ensures Rep(m', DropMin(t))
  {
    MinInMemory(m, t.left);
    RepFrame(m, m', t.right);
    if t.left.left.Leaf? {
      RepFrame(m, m', t.left.right);
    } else {
      MinInMemory(m, t.left.left);
      DropMinRep(m, m', t.left);
    }
  }

  /** The links bst_remove writes when the focus has a right subtree, cell by cell. */
  ghost predicate SpliceCells(m: Memory, m': Memory, head: Ptr, c: BstCtx, t: Bst)
    requires t.Node? && t.right.Node? && Above(head, c) in m && Min(t.right) in m && Min(t.right) in m'
    requires t.right.left.Node? ==> MinParent(t.right) in m
  {
    var y := Min(t.right);
    && m'.Keys == m.Keys
    && m'[y] == Links(Id(t.left), Id(DropMin(t.right)))
    && m'[Above(head, c)] == m[Above(head, c)].With(Side(c), y)
    && (t.right.left.Node? ==> m'[MinParent(t.right)] == m[MinParent(t.right)].(left := m[y].right))
    && OnlyIn(m, m', {y, Above(head, c)} + if t.right.left.Node? then {MinParent(t.right)} else {})
  }

  lemma SplicedRep(m: Memory, m': Memory, head: Ptr, c: BstCtx, t: Bst)
    requires Sits(m, head, c, t) && t.Node? && t.right.Node? && Above(head, c) in m
    requires Min(t.right) in m && Min(t.right) in m' && (t.right.left.Node? ==> MinParent(t.right) in m)
    requires SpliceCells(m, m', head, c, t)
    ensures Rep(m', t.left) && Rep(m', DropMin(t.right)) && Rep(m', Spliced(t))
  {
    MinInMemory(m, t.right);
    RepInMemory(m, t);
    SpliceApart(head, c, t);
    RepFrame(m, m', t.left);
    if t.right.left.Node? {
      DropMinRep(m, m', t.right);
    } else {
      RepFrame(m, m', t.right.right);
    }
  }

  /** The nodes that get new links lie apart from the rest. */
  lemma SpliceApart(head: Ptr, c: BstCtx, t: Bst)
    requires Fits(c, t) && head !in Ids(t) && t.Node? && t.right.Node?
    ensures Above(head, c) !in Ids(t) && Min(t.right) in Ids(t.right) && Min(t.right) !in Ids(t.left)
    ensures t.right.left.Node? ==> MinParent(t.right) in Ids(t.right) && MinParent(t.right) !in Ids(t.left)
  {
    DropMinKeeps(t.right);
    if t.right.left.Node? {
      MinParentIn(t.right);
    }
  }

  lemma {:induction false} MinParentIn(t: Bst)
    requires t.Node? && t.left.Node?
    ensures MinParent(t) in Ids(t)
  {
    if t.left.left.Node? {
      MinParentIn(t.left);
    }
  }

  lemma SplicedSits(m: Memory, m': Memory, head: Ptr, c: BstCtx, t: Bst)
    requires Sits(m, head, c, t) && t.Node? && t.right.Node? && Above(head, c) in m
    requires Min(t.right) in m && Min(t.right) in m' && (t.right.left.Node? ==> MinParent(t.right) in m)
    requires SpliceCells(m, m', head, c, t)
    ensures Sits(m', head, c, Spliced(t))
  {
    SplicedRep(m, m', head, c, t);
    SpliceApart(head, c, t);
    RepCtxInMemory(m, head, c, t.id);
    SplicedKeeps(t);
    RepCtxHung(m, m', head, c, t.id, Min(t.right));
  }

  /** Without a right subtree the left one moves up. */
  lemma LiftedSits(m: Memory, m': Memory, head: Ptr, c: BstCtx, t: Bst)
    requires Sits(m, head, c, t) && t.Node? && t.right.Leaf? && Above(head, c) in m
    requires m' == SetLink(m, Above(head, c), Side(c), Id(t.left))
    ensures Sits(m', head, c, Spliced(t))
  {
    RepFrame(m, m', t.left);
    RepCtxHung(m, m', head, c, t.id, Id(t.left));
  }

  lemma AttachedSits(m: Memory, head: Ptr, c: BstCtx, x: Ptr)
    requires Sits(m, head, c, Leaf) && x != NULL && x != head && x !in CtxIds(c) && x in m && Above(head, c) in m
    ensures var m' := SetLink(m[x := Links(NULL, NULL)], Above(head, c), Side(c), x);
      Sits(m', head, c, Node(Leaf, x, (), Leaf))
  {
    var m' := SetLink(m[x := Links(NULL, NULL)], Above(head, c), Side(c), x);
    RepCtxHung(m, m', head, c, NULL, x);
  }

  // ---- iterators over a changing tree ----

  /** What an iterator remembers: its node, the stack below its height, its generation. */
  datatype Cursor = Cursor(node: Ptr, stack: seq<Ptr>, generation: nat)

  /** The cursor can be used: its node is in the tree, not too deep for the stack, and the stack
      is the path to it unless the tree is of a later generation. */
  ghost predicate Tracks(t: Bst, generation: nat, maxHeight: nat, k: Cursor) {
    && k.generation <= generation
    && (k.node != NULL ==>
          && k.node in Ids(t) && |Path(t, k.node)| <= maxHeight
          && (k.generation == generation ==> k.stack == Path(t, k.node)))
  }

  /** A leaf insertion changes no path, so no generation bump is needed. */
  lemma TracksInsert(c: BstCtx, x: Ptr, generation: nat, maxHeight: nat, k: Cursor)
    requires Fits(c, Node(Leaf, x, (), Leaf))
    requires Tracks(Plug(c, Leaf), generation, maxHeight, k)
    ensures Tracks(Plug(c, Node(Leaf, x, (), Leaf)), generation, maxHeight, k)
  {
    PlugDistinct(c, Leaf);
    if k.node != NULL {
      PathOutside(c, Leaf, Node(Leaf, x, (), Leaf), k.node);
    }
  }

  lemma TracksRemove(c: BstCtx, t: Bst, generation: nat, maxHeight: nat, k: Cursor)
    requires Fits(c, t) && t.Node? && k.node != t.id
    requires Tracks(Plug(c, t), generation, maxHeight, k)
    ensures Tracks(Plug(c, Spliced(t)), generation + 1, maxHeight, k)
  {
    PlugDistinct(c, t);
    SplicedKeeps(t);
    if k.node != NULL {
      if k.node in Ids(t) {
        SplicedPath(t, k.node);
        PathPlug(c, t, k.node);
        PathPlug(c, Spliced(t), k.node);
      } else {
        PathOutside(c, t, Spliced(t), k.node);
      }
    }
  }

  lemma TracksRemoveAll(c: BstCtx, t: Bst, generation: nat, maxHeight: nat)
    requires Fits(c, t) && t.Node?
    ensures forall k :: Tracks(Plug(c, t), generation, maxHeight, k) && k.node != t.id ==>
      Tracks(Plug(c, Spliced(t)), generation + 1, maxHeight, k)
  {
    forall k | Tracks(Plug(c, t), generation, maxHeight, k) && k.node != t.id
      ensures Tracks(Plug(c, Spliced(t)), generation + 1, maxHeight, k)
    {
      TracksRemove(c, t, generation, maxHeight, k);
    }
  }

  lemma TracksBalance(t: Bst, t': Bst, generation: nat, maxHeight: nat, k: Cursor)
    requires Ids(t) == Ids(t') && Height(t') <= maxHeight + 1
    requires Tracks(t, generation, maxHeight, k)
    ensures Tracks(t', generation + 1, maxHeight, k)
  {
    if k.node != NULL {
      PathHeight(t', k.node);
    }
  }

  /** Every iterator that could be used still can. */
  ghost predicate KeepsCursors(t: Bst, generation: nat, t': Bst, generation': nat, maxHeight: nat) {
    forall k :: Tracks(t, generation, maxHeight, k) ==> Tracks(t', generation', maxHeight, k)
  }

  lemma TracksBalanceAll(t: Bst, t': Bst, generation: nat, maxHeight: nat)
    requires Ids(t) == Ids(t') && Height(t') <= maxHeight + 1
    ensures KeepsCursors(t, generation, t', generation + 1, maxHeight)
  {
    forall k | Tracks(t, generation, maxHeight, k)
      ensures Tracks(t', generation + 1, maxHeight, k)
    {
      TracksBalance(t, t', generation, maxHeight, k);
    }
  }

  lemma {:induction false} DepthHeight(c: BstCtx, t: Bst)
    ensures Depth(c) + Height(t) <= Height(Plug(c, t)) && |Ancestors(c)| == Depth(c)
    decreases c
  {
    if !c.Top? {
      DepthHeight(c.up, Fill(c, t));
    }
  }

  /** The link to the focus is not the link to its sibling. */
  lemma SiblingApart(c: BstCtx, t: Bst)
    requires Fits(c, t) && t.Node? && !c.Top?
    ensures c.InLeft? ==> Id(c.right) != t.id || c.right.Leaf?
    ensures c.InRight? ==> Id(c.left) != t.id || c.left.Leaf?
  {
    if c.InLeft? && c.right.Node? {
      assert c.right.id in Ids(c.right);
    }
    if c.InRight? && c.left.Node? {
      assert c.left.id in Ids(c.left);
    }
  }
}
