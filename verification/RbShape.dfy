/**
 Red-black trees as values: how node memory represents a tree, what a well-coloured tree
 is, and the pure facts behind the fix-up loops of common/rb_tree.c.
 */
module RbShape {
  import opened Orders
  import opened Trees

  /** The four fields of struct rb_node; `black` is the colour bit (RB_BLACK is 1). */
  datatype Cell = Cell(parent: Ptr, left: Ptr, right: Ptr, black: bool)

  /** The rb_node fields of every node, linked in a tree or not. */
  type Memory = map<Ptr, Cell>

  function SetParent(m: Memory, x: Ptr, v: Ptr): Memory
    requires x in m
  {
    m[x := m[x].(parent := v)]
  }

  function SetLeft(m: Memory, x: Ptr, v: Ptr): Memory
    requires x in m
  {
    m[x := m[x].(left := v)]
  }

  function SetRight(m: Memory, x: Ptr, v: Ptr): Memory
    requires x in m
  {
    m[x := m[x].(right := v)]
  }

  function SetBlack(m: Memory, x: Ptr, b: bool): Memory
    requires x in m
  {
    m[x := m[x].(black := b)]
  }

  type RbT = Tree<bool>
  type RbCtx = Ctx<bool>

  // ---- memory represents a tree ----

  /** The cells of `t` hold exactly the links and colours of `t`, below parent `par`. */
  ghost predicate Rep(m: Memory, par: Ptr, t: RbT)
    decreases t
  {
    match t
    case Leaf => true
    case Node(l, x, b, r) =>
      x != NULL && x in m && m[x] == Cell(par, Id(l), Id(r), b) && Rep(m, x, l) && Rep(m, x, r)
  }

  /** The cells of context `c` hold its links, with `child` in the hole. */
  ghost predicate RepCtx(m: Memory, root: Ptr, c: RbCtx, child: Ptr)
    decreases c
  {
    match c
    case Top => root == child
    case InLeft(up, x, b, r) =>
      x != NULL && x in m && m[x] == Cell(UpId(up), child, Id(r), b) && Rep(m, x, r) && RepCtx(m, root, up, x)
    case InRight(l, x, b, up) =>
      x != NULL && x in m && m[x] == Cell(UpId(up), Id(l), child, b) && Rep(m, x, l) && RepCtx(m, root, up, x)
  }

  /** Memory represents the tree `Plug(c, t)`, all of whose nodes are distinct. */
  ghost predicate Sits(m: Memory, root: Ptr, c: RbCtx, t: RbT) {
    Fits(c, t) && Rep(m, UpId(c), t) && RepCtx(m, root, c, Id(t))
  }

  lemma {:induction false} RepFrame(m: Memory, m': Memory, par: Ptr, t: RbT)
    requires Rep(m, par, t) && Agree(m, m', Ids(t))
    ensures Rep(m', par, t)
    decreases t
  {
    if t.Node? {
      RepFrame(m, m', t.id, t.left);
      RepFrame(m, m', t.id, t.right);
    }
  }

  /** `t` moved below another parent: only the parent field of its root changed. */
  lemma RepMoved(m: Memory, m': Memory, par: Ptr, par': Ptr, t: RbT)
    requires Rep(m, par, t) && Distinct(t)
    requires t.Node? ==> t.id in m' && m'[t.id] == m[t.id].(parent := par')
    requires Agree(m, m', Ids(t) - {Id(t)})
    ensures Rep(m', par', t)
  {
    if t.Node? {
      RepFrame(m, m', t.id, t.left);
      RepFrame(m, m', t.id, t.right);
    }
  }

  lemma {:induction false} RepCtxFrame(m: Memory, m': Memory, root: Ptr, c: RbCtx, child: Ptr)
    requires RepCtx(m, root, c, child) && Agree(m, m', CtxIds(c))
    ensures RepCtx(m', root, c, child)
    decreases c
  {
    match c
    case Top =>
    case InLeft(up, x, _, r) =>
      RepFrame(m, m', x, r);
      RepCtxFrame(m, m', root, up, x);
    case InRight(l, x, _, up) =>
      RepFrame(m, m', x, l);
      RepCtxFrame(m, m', root, up, x);
  }

  /** The link into the hole of a context, written over with `child`. */
  ghost function Hang(m: Memory, c: RbCtx, child: Ptr): Memory
    requires c.Top? || c.id in m
  {
    match c
    case Top => m
    case InLeft(_, x, _, _) => m[x := m[x].(left := child)]
    case InRight(_, x, _, _) => m[x := m[x].(right := child)]
  }

  lemma RepCtxHung(m: Memory, m': Memory, root: Ptr, root': Ptr, c: RbCtx, child: Ptr, child': Ptr)
    requires RepCtx(m, root, c, child) && CtxDistinct(c)
    requires Agree(Hang(m, c, child'), m', CtxIds(c))
    requires root' == if c.Top? then child' else root
    ensures RepCtx(m', root', c, child')
  {
    match c
    case Top =>
    case InLeft(up, x, _, r) =>
      RepFrame(m, m', x, r);
      RepCtxFrame(m, m', root, up, x);
    case InRight(l, x, _, up) =>
      RepFrame(m, m', x, l);
      RepCtxFrame(m, m', root, up, x);
  }

  lemma {:induction false} RepCtxInMemory(m: Memory, root: Ptr, c: RbCtx, child: Ptr)
    requires RepCtx(m, root, c, child)
    ensures CtxIds(c) <= m.Keys && NULL !in CtxIds(c)
    ensures !c.Top? ==> root in CtxIds(c)
    decreases c
  {
    match c
    case Top =>
    case InLeft(up, x, _, r) =>
      RepInMemory(m, x, r);
      RepCtxInMemory(m, root, up, x);
    case InRight(l, x, _, up) =>
      RepInMemory(m, x, l);
      RepCtxInMemory(m, root, up, x);
  }

  lemma {:induction false} RepInMemory(m: Memory, par: Ptr, t: RbT)
    requires Rep(m, par, t)
    ensures Ids(t) <= m.Keys && NULL !in Ids(t)
    decreases t
  {
    if t.Node? {
      RepInMemory(m, t.id, t.left);
      RepInMemory(m, t.id, t.right);
    }
  }

  lemma NullIsLeaf(m: Memory, par: Ptr, t: RbT)
    requires Rep(m, par, t)
    ensures t.Leaf? <==> Id(t) == NULL
  {
  }

  /** No link of a represented tree leads out of it. */
  lemma {:induction false} LinksInside(m: Memory, par: Ptr, t: RbT)
    requires Rep(m, par, t)
    ensures forall x :: x in Ids(t) ==>
      && x in m && m[x].parent in Ids(t) + {par}
      && m[x].left in Ids(t) + {NULL} && m[x].right in Ids(t) + {NULL}
    decreases t
  {
    if t.Node? {
      LinksInside(m, t.id, t.left);
      LinksInside(m, t.id, t.right);
      assert t.left.Node? ==> t.left.id in Ids(t.left);
      assert t.right.Node? ==> t.right.id in Ids(t.right);
    }
  }

  /** A focused tree is represented exactly when the whole tree is. */
  lemma {:induction false} SitsPlug(m: Memory, root: Ptr, c: RbCtx, t: RbT)
    ensures Sits(m, root, c, t) <==> Sits(m, root, Top, Plug(c, t))
    decreases c
  {
    match c
    case Top =>
    case InLeft(up, x, b, r) =>
      SitsPlug(m, root, up, Node(t, x, b, r));
    case InRight(l, x, b, up) =>
      SitsPlug(m, root, up, Node(l, x, b, t));
  }

  /** The focus one level up: the parent node with `t` put back below it. */
  ghost function Fill(c: RbCtx, t: RbT): (p: RbT)
    requires !c.Top?
    ensures p.Node?
  {
    if c.InLeft? then Node(t, c.id, c.data, c.right) else Node(c.left, c.id, c.data, t)
  }

  lemma SitsUp(m: Memory, root: Ptr, c: RbCtx, t: RbT)
    requires !c.Top?
    ensures Sits(m, root, c, t) <==> Sits(m, root, c.up, Fill(c, t))
    ensures Plug(c, t) == Plug(c.up, Fill(c, t))
  {
  }

  ghost function RotatedLeft(t: RbT): RbT
    requires t.Node? && t.right.Node?
  {
    var x := t.right;
    Node(Node(t.left, t.id, t.data, x.left), x.id, x.data, x.right)
  }

  ghost function RotatedRight(t: RbT): RbT
    requires t.Node? && t.left.Node?
  {
    var x := t.left;
    Node(x.left, x.id, x.data, Node(x.right, t.id, t.data, t.right))
  }

  lemma PlugSame(c: RbCtx, t: RbT, t': RbT)
    requires SameNodes(t, t')
    ensures SameNodes(Plug(c, t), Plug(c, t'))
  {
    PlugInOrder(c, t);
    PlugInOrder(c, t');
    PlugDistinct(c, t);
    PlugDistinct(c, t');
  }

  lemma PlugPainted(c: RbCtx, t: RbT, black: bool)
    requires t.Node?
    ensures SameNodes(Plug(c, t.(data := black)), Plug(c, t))
    ensures t.id in Ids(Plug(c, t))
  {
    PlugSame(c, t.(data := black), t);
    PlugDistinct(c, t);
  }

  lemma PlugRotatedLeft(c: RbCtx, t: RbT)
    requires Fits(c, t) && t.Node? && t.right.Node?
    ensures SameNodes(Plug(c, RotatedLeft(t)), Plug(c, t))
    ensures {t.id, t.right.id, Id(t.right.left), UpId(c)} <= Ids(Plug(c, t)) + {NULL}
  {
    RotatedLeftKeeps(c, t);
    RotatedLeftInOrder(t);
    PlugSame(c, RotatedLeft(t), t);
    PlugDistinct(c, t);
    assert t.right.id in Ids(t.right) && Id(t.right.left) in Ids(t.right.left) + {NULL};
  }

  lemma PlugRotatedRight(c: RbCtx, t: RbT)
    requires Fits(c, t) && t.Node? && t.left.Node?
    ensures SameNodes(Plug(c, RotatedRight(t)), Plug(c, t))
    ensures {t.id, t.left.id, Id(t.left.right), UpId(c)} <= Ids(Plug(c, t)) + {NULL}
  {
    RotatedRightKeeps(c, t);
    RotatedRightInOrder(t);
    PlugSame(c, RotatedRight(t), t);
    PlugDistinct(c, t);
    assert t.left.id in Ids(t.left) && Id(t.left.right) in Ids(t.left.right) + {NULL};
  }

  lemma RotatedLeftKeeps(c: RbCtx, t: RbT)
    requires Fits(c, t) && t.Node? && t.right.Node?
    ensures Ids(RotatedLeft(t)) == Ids(t)
    ensures Fits(c, RotatedLeft(t))
  {
    assert Distinct(t.right);
    assert Distinct(RotatedLeft(t).left);
  }

  lemma RotatedLeftInOrder(t: RbT)
    requires t.Node? && t.right.Node?
    ensures InOrder(RotatedLeft(t)) == InOrder(t)
  {
  }

  lemma RotatedRightKeeps(c: RbCtx, t: RbT)
    requires Fits(c, t) && t.Node? && t.left.Node?
    ensures Ids(RotatedRight(t)) == Ids(t)
    ensures Fits(c, RotatedRight(t))
  {
    assert Distinct(t.left);
    assert Distinct(RotatedRight(t).right);
  }

  lemma RotatedRightInOrder(t: RbT)
    requires t.Node? && t.left.Node?
    ensures InOrder(RotatedRight(t)) == InOrder(t)
  {
  }

  /** Memory after a left rotation at the root of `t`, which hangs in `c`. */
  ghost function LeftRotation(m: Memory, c: RbCtx, t: RbT): Memory
    requires LeftLinked(m, c, t)
  {
    var n, x, y := t.id, t.right.id, Id(t.right.left);
    var m1 := m[n := m[n].(right := y)];
    var m2 := if y == NULL then m1 else m1[y := m1[y].(parent := n)];
    var m3 := m2[x := m2[x].(left := n)];
    var m4 := Hang(m3[n := m3[n].(parent := x)], c, x);
    m4[x := m4[x].(parent := UpId(c))]
  }

  ghost predicate LeftLinked(m: Memory, c: RbCtx, t: RbT) {
    && t.Node? && t.right.Node? && t.id in m && t.right.id in m
    && (t.right.left.Node? ==> t.right.left.id in m) && (c.Top? || c.id in m)
  }

  /** The cells a left rotation writes. */
  ghost predicate LeftRotated(m: Memory, m': Memory, c: RbCtx, t: RbT)
    requires LeftLinked(m, c, t)
  {
    var y := t.right.left;
    && OnlyIn(m, m', {t.id, t.right.id, Id(y), UpId(c)} - {NULL})
    && m'[t.id] == m[t.id].(right := Id(y), parent := t.right.id)
    && m'[t.right.id] == m[t.right.id].(left := t.id, parent := UpId(c))
    && (y.Node? ==> m'[y.id] == m[y.id].(parent := t.id))
    && Agree(Hang(m, c, t.right.id), m', CtxIds(c))
  }

  lemma LeftRotationCells(m: Memory, root: Ptr, c: RbCtx, t: RbT)
    requires Sits(m, root, c, t) && LeftLinked(m, c, t)
    ensures LeftRotated(m, LeftRotation(m, c, t), c, t)
  {
    var y := t.right.left;
    assert Distinct(t.right) && Rep(m, t.id, t.right);
    assert y.Node? ==> y.id in Ids(y) && Rep(m, t.right.id, y);
  }

  lemma LeftRotationRep(m: Memory, m': Memory, c: RbCtx, t: RbT)
    requires Rep(m, UpId(c), t) && Fits(c, t) && LeftLinked(m, c, t) && LeftRotated(m, m', c, t)
    ensures Rep(m', UpId(c), RotatedLeft(t))
  {
    assert Rep(m, t.id, t.right) && Distinct(t.right) && t.right.id in Ids(t.right);
    assert t.right.left.Node? ==> t.right.left.id in Ids(t.right.left);
    RepInMemory(m, UpId(c), t);
    RepFrame(m, m', t.id, t.left);
    RepMoved(m, m', t.right.id, t.id, t.right.left);
    RepFrame(m, m', t.right.id, t.right.right);
  }

  lemma LeftRotationSits(m: Memory, m': Memory, root: Ptr, root': Ptr, c: RbCtx, t: RbT)
    requires Sits(m, root, c, t) && LeftLinked(m, c, t) && LeftRotated(m, m', c, t)
    requires root' == if c.Top? then t.right.id else root
    ensures Sits(m', root', c, RotatedLeft(t)) && OnlyIn(m, m', Ids(Plug(c, t)))
  {
    LeftRotationRep(m, m', c, t);
    RotatedLeftKeeps(c, t);
    assert Distinct(t.right) && t.right.id in Ids(t.right) && t.right.id != NULL;
    RepInMemory(m, UpId(c), t);
    RepCtxHung(m, m', root, root', c, t.id, t.right.id);
    PlugDistinct(c, t);
    LeftRotationInside(c, t);
  }

  lemma LeftRotationInside(c: RbCtx, t: RbT)
    requires t.Node? && t.right.Node?
    ensures {t.id, t.right.id, Id(t.right.left), UpId(c)} - {NULL} <= CtxIds(c) + Ids(t)
  {
    assert t.right.id in Ids(t.right);
    assert t.right.left.Node? ==> t.right.left.id in Ids(t.right.left);
  }

  /** Memory after a right rotation at the root of `t`, which hangs in `c`. */
  ghost function RightRotation(m: Memory, c: RbCtx, t: RbT): Memory
    requires RightLinked(m, c, t)
  {
    var n, x, y := t.id, t.left.id, Id(t.left.right);
    var m1 := m[n := m[n].(left := y)];
    var m2 := if y == NULL then m1 else m1[y := m1[y].(parent := n)];
    var m3 := m2[x := m2[x].(right := n)];
    var m4 := Hang(m3[n := m3[n].(parent := x)], c, x);
    m4[x := m4[x].(parent := UpId(c))]
  }

  ghost predicate RightLinked(m: Memory, c: RbCtx, t: RbT) {
    && t.Node? && t.left.Node? && t.id in m && t.left.id in m
    && (t.left.right.Node? ==> t.left.right.id in m) && (c.Top? || c.id in m)
  }

  /** The cells a right rotation writes. */
  ghost predicate RightRotated(m: Memory, m': Memory, c: RbCtx, t: RbT)
    requires RightLinked(m, c, t)
  {
    var y := t.left.right;
    && OnlyIn(m, m', {t.id, t.left.id, Id(y), UpId(c)} - {NULL})
    && m'[t.id] == m[t.id].(left := Id(y), parent := t.left.id)
    && m'[t.left.id] == m[t.left.id].(right := t.id, parent := UpId(c))
    && (y.Node? ==> m'[y.id] == m[y.id].(parent := t.id))
    && Agree(Hang(m, c, t.left.id), m', CtxIds(c))
  }

  lemma RightRotationCells(m: Memory, root: Ptr, c: RbCtx, t: RbT)
    requires Sits(m, root, c, t) && RightLinked(m, c, t)
    ensures RightRotated(m, RightRotation(m, c, t), c, t)
  {
    var y := t.left.right;
    assert Distinct(t.left) && Rep(m, t.id, t.left);
    assert y.Node? ==> y.id in Ids(y) && Rep(m, t.left.id, y);
  }

  lemma RightRotationRep(m: Memory, m': Memory, c: RbCtx, t: RbT)
    requires Rep(m, UpId(c), t) && Fits(c, t) && RightLinked(m, c, t) && RightRotated(m, m', c, t)
    ensures Rep(m', UpId(c), RotatedRight(t))
  {
    assert Rep(m, t.id, t.left) && Distinct(t.left) && t.left.id in Ids(t.left);
    assert t.left.right.Node? ==> t.left.right.id in Ids(t.left.right);
    RepInMemory(m, UpId(c), t);
    RepFrame(m, m', t.id, t.right);
    RepMoved(m, m', t.left.id, t.id, t.left.right);
    RepFrame(m, m', t.left.id, t.left.left);
  }

  lemma RightRotationSits(m: Memory, m': Memory, root: Ptr, root': Ptr, c: RbCtx, t: RbT)
    requires Sits(m, root, c, t) && RightLinked(m, c, t) && RightRotated(m, m', c, t)
    requires root' == if c.Top? then t.left.id else root
    ensures Sits(m', root', c, RotatedRight(t)) && OnlyIn(m, m', Ids(Plug(c, t)))
  {
    RightRotationRep(m, m', c, t);
    RotatedRightKeeps(c, t);
    assert Distinct(t.left) && t.left.id in Ids(t.left) && t.left.id != NULL;
    RepInMemory(m, UpId(c), t);
    RepCtxHung(m, m', root, root', c, t.id, t.left.id);
    PlugDistinct(c, t);
    RightRotationInside(c, t);
  }

  lemma RightRotationInside(c: RbCtx, t: RbT)
    requires t.Node? && t.left.Node?
    ensures {t.id, t.left.id, Id(t.left.right), UpId(c)} - {NULL} <= CtxIds(c) + Ids(t)
  {
    assert t.left.id in Ids(t.left);
    assert t.left.right.Node? ==> t.left.right.id in Ids(t.left.right);
  }

  lemma PaintedSits(m: Memory, root: Ptr, c: RbCtx, t: RbT, black: bool)
    requires Sits(m, root, c, t) && t.Node? && t.id in m
    ensures Sits(m[t.id := m[t.id].(black := black)], root, c, t.(data := black))
    ensures SameNodes(Plug(c, t.(data := black)), Plug(c, t)) && t.id in Ids(Plug(c, t))
  {
    var m' := m[t.id := m[t.id].(black := black)];
    PlugPainted(c, t, black);
    RepFrame(m, m', t.id, t.left);
    RepFrame(m, m', t.id, t.right);
    RepCtxFrame(m, m', root, c, t.id);
  }

  // ---- colours ----

  ghost predicate IsBlack(t: RbT) {
    t.Leaf? || t.data
  }

  /** Black nodes on the leftmost path; on every path when the tree is `Balanced`. */
  ghost function BlackHeight(t: RbT): nat {
    if t.Leaf? then 0 else BlackHeight(t.left) + if t.data then 1 else 0
  }

  ghost predicate Balanced(t: RbT) {
    t.Node? ==> Balanced(t.left) && Balanced(t.right) && BlackHeight(t.left) == BlackHeight(t.right)
  }

  /** No red node has a red child. */
  ghost predicate NoRedRed(t: RbT) {
    t.Node? ==> NoRedRed(t.left) && NoRedRed(t.right) && (t.data || (IsBlack(t.left) && IsBlack(t.right)))
  }

  ghost predicate RedBlack(t: RbT) {
    IsBlack(t) && Balanced(t) && NoRedRed(t)
  }

  ghost predicate UpBlack(c: RbCtx) {
    c.Top? || c.data
  }

  /** Putting a balanced tree of black height `h` in the hole gives a balanced tree. */
  ghost predicate CtxBalanced(c: RbCtx, h: nat)
    decreases c
  {
    match c
    case Top => true
    case InLeft(up, _, b, r) =>
      Balanced(r) && BlackHeight(r) == h && CtxBalanced(up, h + if b then 1 else 0)
    case InRight(l, _, b, up) =>
      Balanced(l) && BlackHeight(l) == h && CtxBalanced(up, h + if b then 1 else 0)
  }

  ghost predicate CtxNoRedRed(c: RbCtx) {
    match c
    case Top => true
    case InLeft(up, _, b, r) => NoRedRed(r) && CtxNoRedRed(up) && (b || (IsBlack(r) && UpBlack(up)))
    case InRight(l, _, b, up) => NoRedRed(l) && CtxNoRedRed(up) && (b || (IsBlack(l) && UpBlack(up)))
  }

  /** The topmost node of the context, if any, is black. */
  ghost predicate CtxRootBlack(c: RbCtx) {
    !c.Top? ==> CtxRootBlack(c.up) && (c.up.Top? ==> c.data)
  }

  /** A context in which any black tree of black height `h` completes a red-black tree. */
  ghost predicate CtxOk(c: RbCtx, h: nat) {
    CtxBalanced(c, h) && CtxNoRedRed(c) && CtxRootBlack(c)
  }

  /** A red focus whose tree is red-black but for, possibly, a red parent or a red root. */
  ghost predicate RedFocus(c: RbCtx, t: RbT) {
    t.Node? && !t.data && Balanced(t) && NoRedRed(t) && CtxOk(c, BlackHeight(t))
  }

  /** A red focus below a red parent, the only defect of an otherwise red-black tree. */
  ghost predicate RedParent(c: RbCtx, t: RbT) {
    RedFocus(c, t) && !c.Top? && !c.data && !c.up.Top?
  }

  ghost function Uncle(c: RbCtx): RbT
    requires !c.Top? && !c.up.Top?
  {
    if c.up.InLeft? then c.up.right else c.up.left
  }

  /** What the insertion fix-up reads: the grandparent exists, and its links tell the side. */
  lemma GrandparentInMemory(m: Memory, root: Ptr, c: RbCtx, t: RbT)
    requires Sits(m, root, c, t) && RedFocus(c, t) && !UpBlack(c)
    ensures RedParent(c, t) && c.id in m && m[c.id].parent == c.up.id && c.up.id in m
    ensures c.up.InLeft? <==> m[c.up.id].left == c.id
    ensures Id(Uncle(c)) == if c.up.InLeft? then m[c.up.id].right else m[c.up.id].left
    ensures Uncle(c).Node? ==> Uncle(c).id != NULL && Uncle(c).id in m && m[Uncle(c).id].black == Uncle(c).data
  {
    assert RepCtx(m, root, c.up, c.id);
    assert CtxDistinct(c.up);
    assert Uncle(c).Node? ==> Rep(m, c.up.id, Uncle(c)) && Uncle(c).id in Ids(Uncle(c));
  }

  ghost function Black(t: RbT): RbT
    requires t.Node?
  {
    Node(t.left, t.id, true, t.right)
  }

  /** Cases 1A and 1B of the insertion fix-up: parent and uncle black, grandparent red. */
  ghost function PushedUp(c: RbCtx, t: RbT): RbT
    requires RedParent(c, t) && Uncle(c).Node?
  {
    var p, u := Black(Fill(c, t)), Black(Uncle(c));
    if c.up.InLeft? then Node(p, c.up.id, false, u) else Node(u, c.up.id, false, p)
  }

  lemma PushedUpColours(c: RbCtx, t: RbT)
    requires RedParent(c, t) && !IsBlack(Uncle(c))
    ensures RedFocus(c.up.up, PushedUp(c, t))
  {
    assert CtxBalanced(c.up, BlackHeight(t)) && CtxNoRedRed(c.up) && CtxRootBlack(c.up);
    assert Balanced(Uncle(c)) && NoRedRed(Uncle(c));
    var p := Black(Fill(c, t));
    assert Balanced(p) && NoRedRed(p) && BlackHeight(p) == BlackHeight(t) + 1;
  }

  lemma PlugPushedUp(c: RbCtx, t: RbT)
    requires RedParent(c, t) && !IsBlack(Uncle(c))
    ensures SameNodes(Plug(c.up.up, PushedUp(c, t)), Plug(c, t))
  {
    var g, g' := Fill(c.up, Fill(c, t)), PushedUp(c, t);
    assert SameNodes(g'.left, g.left) && SameNodes(g'.right, g.right);
    PlugSame(c.up.up, g', g);
  }

  /** Cases 3A and 3B: parent black, grandparent red, then a rotation at the grandparent. */
  lemma RaisedLeft(c: RbCtx, t: RbT)
    requires RedParent(c, t) && IsBlack(Uncle(c)) && c.up.InLeft?
    ensures var p := if c.InLeft? then Fill(c, t) else RotatedLeft(Fill(c, t));
      Raised(c.up.up, Node(p.left, p.id, true, Node(p.right, c.up.id, false, c.up.right)))
  {
    var h := BlackHeight(t);
    assert CtxBalanced(c.up, h) && CtxNoRedRed(c.up) && CtxRootBlack(c.up);
    var p := if c.InLeft? then Fill(c, t) else RotatedLeft(Fill(c, t));
    assert Calm(p.left, h) && Calm(p.right, h) && Calm(c.up.right, h);
    assert Calm(Node(p.right, c.up.id, false, c.up.right), h);
  }

  lemma RaisedRight(c: RbCtx, t: RbT)
    requires RedParent(c, t) && IsBlack(Uncle(c)) && c.up.InRight?
    ensures var p := if c.InRight? then Fill(c, t) else RotatedRight(Fill(c, t));
      Raised(c.up.up, Node(Node(c.up.left, c.up.id, false, p.left), p.id, true, p.right))
  {
    var h := BlackHeight(t);
    assert CtxBalanced(c.up, h) && CtxNoRedRed(c.up) && CtxRootBlack(c.up);
    var p := if c.InRight? then Fill(c, t) else RotatedRight(Fill(c, t));
    assert Calm(p.left, h) && Calm(p.right, h) && Calm(c.up.left, h);
    assert Calm(Node(c.up.left, c.up.id, false, p.left), h);
  }

  ghost predicate Calm(t: RbT, h: nat) {
    Balanced(t) && NoRedRed(t) && BlackHeight(t) == h
  }

  ghost predicate Raised(c: RbCtx, t: RbT) {
    CtxOk(c, BlackHeight(t)) && RedBlack(t)
  }

  lemma {:induction false} PlugRedBlack(c: RbCtx, t: RbT)
    requires CtxOk(c, BlackHeight(t)) && Balanced(t) && NoRedRed(t)
    requires IsBlack(t) || (UpBlack(c) && !c.Top?)
    ensures RedBlack(Plug(c, t))
    decreases c
  {
    match c
    case Top =>
    case InLeft(up, x, b, r) =>
      PlugRedBlack(up, Node(t, x, b, r));
    case InRight(l, x, b, up) =>
      PlugRedBlack(up, Node(l, x, b, t));
  }

  /** Conversely, every focus of a red-black tree has a well-coloured context. */
  lemma {:induction false} UnplugRedBlack(c: RbCtx, t: RbT)
    requires RedBlack(Plug(c, t))
    ensures CtxOk(c, BlackHeight(t)) && Balanced(t) && NoRedRed(t)
    ensures IsBlack(t) || (UpBlack(c) && !c.Top?)
    decreases c
  {
    match c
    case Top =>
    case InLeft(up, x, b, r) =>
      UnplugRedBlack(up, Node(t, x, b, r));
    case InRight(l, x, b, up) =>
      UnplugRedBlack(up, Node(l, x, b, t));
  }

  // ---- insertion: linking a node ----

  lemma AttachedSits(m: Memory, root: Ptr, c: RbCtx, x: Ptr)
    requires Sits(m, root, c, Leaf) && x != NULL && x !in CtxIds(c) && (c.Top? || c.id in m)
    ensures var m' := Hang(m[x := Cell(UpId(c), NULL, NULL, false)], c, x);
      Sits(m', if c.Top? then x else root, c, Node(Leaf, x, false, Leaf))
  {
    var m' := Hang(m[x := Cell(UpId(c), NULL, NULL, false)], c, x);
    RepCtxHung(m, m', root, if c.Top? then x else root, c, NULL, x);
  }

  lemma AttachedColours(c: RbCtx, x: Ptr)
    requires RedBlack(Plug(c, Leaf))
    ensures RedFocus(c, Node(Leaf, x, false, Leaf))
  {
    UnplugRedBlack(c, Leaf);
  }

  // ---- removal: unlinking a node ----

  /** Memory after `k`, the only child of the focus, takes the place of the focus in `c`. */
  ghost function Bypassed(m: Memory, c: RbCtx, k: RbT): Memory
    requires (c.Top? || c.id in m) && (k.Leaf? || k.id in m)
  {
    Hang(if k.Leaf? then m else m[k.id := m[k.id].(parent := UpId(c))], c, Id(k))
  }

  lemma BypassedSits(m: Memory, root: Ptr, c: RbCtx, t: RbT, k: RbT)
    requires Sits(m, root, c, t) && t.Node?
    requires (t.left == Leaf && k == t.right) || (t.right == Leaf && k == t.left)
    ensures (c.Top? || c.id in m) && (k.Leaf? || k.id in m)
    ensures Sits(Bypassed(m, c, k), if c.Top? then Id(k) else root, c, k)
    ensures t.id in m && t.id !in Ids(k) && t.id !in CtxIds(c) && Bypassed(m, c, k)[t.id] == m[t.id]
  {
    assert k.Node? ==> Rep(m, t.id, k) && k.id in Ids(k);
    RepInMemory(m, t.id, k);
    RepCtxInMemory(m, root, c, t.id);
    var m' := Bypassed(m, c, k);
    RepMoved(m, m', t.id, UpId(c), k);
    RepCtxHung(m, m', root, if c.Top? then Id(k) else root, c, t.id, Id(k));
  }

  /** In `m'` the node `y` has taken over all links of the focus `t` that hangs in `c`. */
  ghost predicate Substitutes(m: Memory, m': Memory, c: RbCtx, t: RbT, y: Ptr) {
    && t.Node? && t.id in m && y in m' && m'[y] == m[t.id]
    && (t.left.Node? ==> t.left.id in m && t.left.id in m' && m'[t.left.id] == m[t.left.id].(parent := y))
    && (t.right.Node? ==> t.right.id in m && t.right.id in m' && m'[t.right.id] == m[t.right.id].(parent := y))
    && Agree(m, m', Ids(t.left) - {Id(t.left)}) && Agree(m, m', Ids(t.right) - {Id(t.right)})
    && (c.Top? || c.id in m) && Agree(Hang(m, c, y), m', CtxIds(c))
  }

  lemma SubstitutedSits(m: Memory, m': Memory, root: Ptr, c: RbCtx, t: RbT, y: Ptr)
    requires Sits(m, root, c, t) && Substitutes(m, m', c, t, y)
    requires y != NULL && y !in Ids(t) && y !in CtxIds(c)
    ensures Sits(m', if c.Top? then y else root, c, Node(t.left, y, t.data, t.right))
  {
    assert t.left.Node? ==> t.left.id in Ids(t.left);
    assert t.right.Node? ==> t.right.id in Ids(t.right);
    RepInMemory(m, UpId(c), t);
    RepMoved(m, m', t.id, y, t.left);
    RepMoved(m, m', t.id, y, t.right);
    RepCtxHung(m, m', root, if c.Top? then y else root, c, t.id, y);
  }

  /** The context `d`, itself placed in the hole of `o`. */
  ghost function Over(d: RbCtx, o: RbCtx): RbCtx {
    match d
    case Top => o
    case InLeft(up, x, b, r) => InLeft(Over(up, o), x, b, r)
    case InRight(l, x, b, up) => InRight(l, x, b, Over(up, o))
  }

  lemma {:induction false} PlugOver(d: RbCtx, o: RbCtx, t: RbT)
    ensures Plug(Over(d, o), t) == Plug(o, Plug(d, t))
    decreases d
  {
    if !d.Top? {
      PlugOver(d.up, o, Fill(d, t));
    }
  }

  lemma {:induction false} OverRenamed(d: RbCtx, l: RbT, x: Ptr, y: Ptr, b: bool, c: RbCtx, h: nat)
    requires CtxOk(Over(d, InRight(l, x, b, c)), h)
    ensures CtxOk(Over(d, InRight(l, y, b, c)), h)
    ensures UpBlack(Over(d, InRight(l, y, b, c))) == UpBlack(Over(d, InRight(l, x, b, c)))
    decreases d
  {
    if !d.Top? {
      OverRenamed(d.up, l, x, y, b, c, h + if d.data then 1 else 0);
    }
  }

  /** Where the leftmost node `s` of the right subtree of the focus `t` sits: below `d`, all of
      whose steps go left, below the right link of `t`. */
  ghost predicate Successor(c: RbCtx, t: RbT, d: RbCtx, s: RbT) {
    && t.Node? && s.Node? && t.left.Node? && t.right == Plug(d, s) && Before(d) == []
    && (d.Top? || d.InLeft?)
  }

  ghost function Outer(c: RbCtx, t: RbT): RbCtx
    requires t.Node?
  {
    InRight(t.left, t.id, t.data, c)
  }

  /** The focus `t` with its successor `s` in its place and removed from below. */
  ghost function Promoted(t: RbT, d: RbCtx, s: RbT): RbT
    requires t.Node? && s.Node?
  {
    Node(t.left, s.id, t.data, Plug(d, s.right))
  }

  lemma PromotedPlug(c: RbCtx, t: RbT, d: RbCtx, s: RbT)
    requires Successor(c, t, d, s)
    ensures Plug(Over(d, Outer(c, Promoted(t, d, s))), s.right) == Plug(c, Promoted(t, d, s))
    ensures Plug(Over(d, Outer(c, t)), s) == Plug(c, t)
    ensures Plug(Over(d, Outer(c, t)), s.right) == Plug(c, Node(t.left, t.id, t.data, Plug(d, s.right)))
  {
    PlugOver(d, Outer(c, Promoted(t, d, s)), s.right);
    PlugOver(d, Outer(c, t), s.right);
    PlugOver(d, Outer(c, t), s);
  }

  lemma PromotedInOrder(c: RbCtx, t: RbT, d: RbCtx, s: RbT)
    requires Successor(c, t, d, s) && s.left == Leaf
    ensures InOrder(Promoted(t, d, s)) == InOrder(t.left) + InOrder(t.right)
  {
    PlugInOrder(d, s);
    PlugInOrder(d, s.right);
    assert InOrder(t.right) == [s.id] + InOrder(Plug(d, s.right));
  }

  /** The nodes involved in the splice, and where they lie. */
  lemma PromotedIds(c: RbCtx, t: RbT, d: RbCtx, s: RbT)
    requires Successor(c, t, d, s) && s.left == Leaf && Fits(c, t)
    ensures Ids(t.right) == CtxIds(d) + {s.id} + Ids(s.right)
    ensures Ids(Plug(d, s.right)) == CtxIds(d) + Ids(s.right)
    ensures s.id !in CtxIds(d) && s.id !in Ids(s.right) && CtxIds(d) !! Ids(s.right)
    ensures t.right.Node? && (d.Top? ==> t.right == s)
    ensures !d.Top? ==> Id(Plug(d, s.right)) == t.right.id && t.right.id in CtxIds(d) && d.id in CtxIds(d)
  {
    PlugDistinct(d, s);
    PlugDistinct(d, s.right);
    if !d.Top? {
      PlugId(d, s, s.right);
    }
  }

  lemma {:induction false} PlugId(d: RbCtx, s: RbT, s': RbT)
    requires !d.Top?
    ensures Plug(d, s).Node? && Plug(d, s').Node? && Plug(d, s).id == Plug(d, s').id && Plug(d, s).id in CtxIds(d)
    decreases d
  {
    if !d.up.Top? {
      PlugId(d.up, Fill(d, s), Fill(d, s'));
    }
  }

  ghost predicate Spliceable(m: Memory, c: RbCtx, t: RbT, d: RbCtx, s: RbT) {
    && t.Node? && s.Node? && (c.Top? || c.id in m)
    && t.id in m && s.id in m && t.left.Node? && t.left.id in m && t.right.Node? && t.right.id in m
    && (s.right.Node? ==> s.right.id in m) && (!d.Top? ==> d.id in m)
  }

  /** Memory after rb_remove relinked the successor `s` (lines 427 to 453 of common/rb_tree.c). */
  ghost function Relinked(m: Memory, c: RbCtx, t: RbT, d: RbCtx, s: RbT): (m': Memory)
    requires Spliceable(m, c, t, d, s)
    ensures m'.Keys == m.Keys
  {
    var n, y, k := t.id, s.id, Id(s.right);
    var m1 := Hang(m, c, y);
    var m2 := SetLeft(SetParent(m1, y, m[n].parent), y, m[n].left);
    var m3 := SetParent(m2, t.left.id, y);
    if d.Top? then m3 else
      var m5 := if s.right.Leaf? then m3 else SetParent(m3, k, d.id);
      var m6 := SetRight(SetLeft(m5, d.id, k), y, m[n].right);
      SetParent(m6, t.right.id, y)
  }

  /** The same with the colours of the two nodes exchanged (lines 455 to 457). */
  ghost function TakenOver(m: Memory, c: RbCtx, t: RbT, d: RbCtx, s: RbT): Memory
    requires Spliceable(m, c, t, d, s)
  {
    var m4 := Relinked(m, c, t, d, s);
    var m8 := m4[s.id := m4[s.id].(black := m4[t.id].black)];
    m8[t.id := m8[t.id].(black := m4[s.id].black)]
  }

  lemma TakenOverAdjacent(m: Memory, root: Ptr, c: RbCtx, t: RbT, d: RbCtx, s: RbT)
    requires Successor(c, t, d, s) && s.left == Leaf && d.Top?
    requires Sits(m, root, c, t) && Sits(m, root, Over(d, Outer(c, t)), s)
    requires Spliceable(m, c, t, d, s)
    ensures Bypassed.requires(m, Over(d, Outer(c, t)), s.right)
    ensures var m1 := Bypassed(m, Over(d, Outer(c, t)), s.right);
      Substitutes(m1, TakenOver(m, c, t, d, s), c, Node(t.left, t.id, t.data, Plug(d, s.right)), s.id)
  {
    PromotedIds(c, t, d, s);
    RepInMemory(m, UpId(c), t);
    assert t.left.id in Ids(t.left) && t.right.id in Ids(t.right);
    assert s.right.Node? ==> s.right.id in Ids(s.right) && Rep(m, s.id, s.right);
  }

  ghost function Touched(t: RbT, d: RbCtx, s: RbT): set<Ptr>
    requires t.Node? && s.Node?
  {
    {t.id, s.id, Id(t.left), Id(t.right), Id(s.right), UpId(d)}
  }

  lemma TakenOverOnly(m: Memory, c: RbCtx, t: RbT, d: RbCtx, s: RbT)
    requires Spliceable(m, c, t, d, s)
    ensures OnlyIn(Hang(m, c, s.id), TakenOver(m, c, t, d, s), Touched(t, d, s))
  {
  }

  /** The cells a far splice writes, given that the nodes involved are distinct. */
  ghost predicate FarCells(m: Memory, m': Memory, c: RbCtx, t: RbT, d: RbCtx, s: RbT)
    requires Spliceable(m, c, t, d, s)
  {
    var n, y, l, r, k := t.id, s.id, t.left.id, t.right.id, Id(s.right);
    && OnlyIn(Hang(m, c, y), m', Touched(t, d, s))
    && m'[y] == Cell(m[n].parent, m[n].left, m[n].right, m[n].black)
    && m'[l] == m[l].(parent := y)
    && (s.right.Node? ==> m'[k] == m[k].(parent := UpId(d)))
    && (d.Top? || d.id == r || m'[d.id] == m[d.id].(left := k))
    && m'[r] == if d.Top? || d.id != r then m[r].(parent := y) else m[r].(parent := y, left := k)
  }

  lemma TakenOverFarCells(m: Memory, c: RbCtx, t: RbT, d: RbCtx, s: RbT)
    requires Spliceable(m, c, t, d, s) && !d.Top?
    requires t.id !in {s.id, t.left.id, t.right.id, Id(s.right), d.id, UpId(c)}
    requires s.id !in {t.left.id, t.right.id, Id(s.right), d.id, UpId(c)}
    requires t.left.id !in {t.right.id, Id(s.right), d.id, UpId(c)}
    requires Id(s.right) !in {t.right.id, d.id} && (Id(s.right) == UpId(c) ==> s.right.Leaf?)
    requires UpId(c) !in {t.right.id, d.id}
    ensures FarCells(m, TakenOver(m, c, t, d, s), c, t, d, s)
  {
    TakenOverOnly(m, c, t, d, s);
  }

  /** Changes inside `t` do not reach the context it hangs in. */
  lemma HangFrame(m: Memory, m1: Memory, m': Memory, c: RbCtx, y: Ptr, s1: set<Ptr>, s2: set<Ptr>)
    requires (c.Top? || (c.id in m && c.id in m1)) && CtxIds(c) <= m.Keys
    requires OnlyIn(m, m1, s1) && s1 !! CtxIds(c)
    requires OnlyIn(Hang(m, c, y), m', s2) && s2 !! CtxIds(c)
    ensures Agree(Hang(m1, c, y), m', CtxIds(c))
  {
    assert !c.Top? ==> c.id in CtxIds(c) && m1[c.id] == m[c.id];
  }

  lemma FarSubtrees(m: Memory, m1: Memory, m': Memory, c: RbCtx, t: RbT, d: RbCtx, s: RbT)
    requires Successor(c, t, d, s) && s.left == Leaf && d.InLeft? && Fits(c, t)
    requires NULL !in Ids(t) + CtxIds(c) && Ids(t) + CtxIds(c) <= m.Keys
    requires Spliceable(m, c, t, d, s) && FarCells(m, m', c, t, d, s)
    requires OnlyIn(m, m1, {d.id, Id(s.right)}) && m1[d.id] == m[d.id].(left := Id(s.right))
    requires s.right.Node? ==> m1[s.right.id] == m[s.right.id].(parent := d.id)
    ensures t.right.Node? && Agree(m1, m', Ids(t) - {t.id, s.id, t.left.id, t.right.id})
  {
    PromotedIds(c, t, d, s);
    assert t.left.id in Ids(t.left) && t.right.id in Ids(t.right);
    forall x | x in Ids(t) && x !in Touched(t, d, s)
      ensures x in m && m'[x] == m[x] && m1[x] == m[x]
    {
      assert x != UpId(c);
    }
  }

  lemma FarSubstitutes(m: Memory, m1: Memory, m': Memory, c: RbCtx, t: RbT, d: RbCtx, s: RbT)
    requires Successor(c, t, d, s) && s.left == Leaf && d.InLeft? && Fits(c, t)
    requires NULL !in Ids(t) + CtxIds(c) && Ids(t) + CtxIds(c) <= m.Keys
    requires Spliceable(m, c, t, d, s) && FarCells(m, m', c, t, d, s)
    requires OnlyIn(m, m1, {d.id, Id(s.right)}) && m1[d.id] == m[d.id].(left := Id(s.right))
    requires s.right.Node? ==> m1[s.right.id] == m[s.right.id].(parent := d.id)
    ensures Substitutes(m1, m', c, Node(t.left, t.id, t.data, Plug(d, s.right)), s.id)
  {
    PromotedIds(c, t, d, s);
    assert t.left.id in Ids(t.left) && t.right.id in Ids(t.right);
    assert s.right.Node? ==> s.right.id in Ids(s.right);
    assert Touched(t, d, s) - {NULL} <= Ids(t);
    HangFrame(m, m1, m', c, s.id, {d.id, Id(s.right)}, Touched(t, d, s));
    FarSubtrees(m, m1, m', c, t, d, s);
  }

  lemma TakenOverReady(m: Memory, root: Ptr, c: RbCtx, t: RbT, d: RbCtx, s: RbT)
    requires Sits(m, root, c, t) && Successor(c, t, d, s) && s.left == Leaf
    ensures Sits(m, root, Over(d, Outer(c, t)), s) && Spliceable(m, c, t, d, s)
    ensures NULL !in Ids(t) + CtxIds(c) && Ids(t) + CtxIds(c) <= m.Keys
  {
    PromotedPlug(c, t, d, s);
    SitsPlug(m, root, c, t);
    SitsPlug(m, root, Over(d, Outer(c, t)), s);
    PromotedIds(c, t, d, s);
    RepInMemory(m, UpId(c), t);
    RepCtxInMemory(m, root, c, t.id);
    assert t.left.id in Ids(t.left) && (s.right.Node? ==> s.right.id in Ids(s.right));
  }

  lemma TakenOverKeeps(m: Memory, c: RbCtx, t: RbT, d: RbCtx, s: RbT)
    requires Fits(c, t) && Successor(c, t, d, s) && s.left == Leaf && Spliceable(m, c, t, d, s)
    requires NULL !in Ids(t) + CtxIds(c)
    ensures OnlyIn(m, TakenOver(m, c, t, d, s), Ids(Plug(c, t)))
    ensures TakenOver(m, c, t, d, s)[t.id] == m[t.id].(black := m[s.id].black)
  {
    TakenOverWrites(m, c, t, d, s);
    TouchedInside(c, t, d, s);
    TakenOverStale(m, c, t, d, s);
  }

  lemma TouchedInside(c: RbCtx, t: RbT, d: RbCtx, s: RbT)
    requires Fits(c, t) && Successor(c, t, d, s) && s.left == Leaf
    requires NULL !in Ids(t) + CtxIds(c)
    ensures t.right.Node? && Written(c, t, d, s) <= Ids(Plug(c, t))
    ensures t.id !in {s.id, Id(t.left), Id(t.right), Id(s.right), UpId(d), UpId(c)}
    ensures s.id !in {t.id, Id(t.left), Id(s.right), UpId(d), UpId(c)}
  {
    PlugDistinct(c, t);
    PromotedIds(c, t, d, s);
    assert t.left.id in Ids(t.left) && (s.right.Node? ==> s.right.id in Ids(s.right));
  }

  lemma TakenOverWrites(m: Memory, c: RbCtx, t: RbT, d: RbCtx, s: RbT)
    requires Spliceable(m, c, t, d, s)
    ensures OnlyIn(m, TakenOver(m, c, t, d, s), Written(c, t, d, s))
  {
  }

  ghost function Written(c: RbCtx, t: RbT, d: RbCtx, s: RbT): set<Ptr>
    requires t.Node? && s.Node? && t.left.Node? && t.right.Node?
  {
    {t.id, s.id, t.left.id, t.right.id} + (if c.Top? then {} else {c.id})
    + (if d.Top? then {} else {d.id}) + if s.right.Leaf? then {} else {s.right.id}
  }

  lemma TakenOverStale(m: Memory, c: RbCtx, t: RbT, d: RbCtx, s: RbT)
    requires Spliceable(m, c, t, d, s)
    requires t.id !in {s.id, Id(t.left), Id(t.right), Id(s.right), UpId(d), UpId(c)}
    requires s.id !in {t.id, Id(t.left), Id(s.right), UpId(d), UpId(c)}
    ensures TakenOver(m, c, t, d, s)[t.id] == m[t.id].(black := m[s.id].black)
  {
  }

  lemma TakenOverFar(m: Memory, m': Memory, c: RbCtx, t: RbT, d: RbCtx, s: RbT)
    requires Fits(c, t) && Successor(c, t, d, s) && s.left == Leaf && !d.Top?
    requires Spliceable(m, c, t, d, s) && NULL !in Ids(t) + CtxIds(c) && Ids(t) + CtxIds(c) <= m.Keys
    requires FarCells(m, m', c, t, d, s)
    ensures var m1 := Bypassed(m, Over(d, Outer(c, t)), s.right);
      Substitutes(m1, m', c, Node(t.left, t.id, t.data, Plug(d, s.right)), s.id)
  {
    FarDistinct(c, t, d, s);
    var m1 := Bypassed(m, Over(d, Outer(c, t)), s.right);
    FarSubstitutes(m, m1, m', c, t, d, s);
  }

  lemma TakenOverSits(m: Memory, root: Ptr, c: RbCtx, t: RbT, d: RbCtx, s: RbT)
    requires Sits(m, root, c, t) && Successor(c, t, d, s) && s.left == Leaf
    requires Spliceable(m, c, t, d, s)
    ensures Sits(TakenOver(m, c, t, d, s), if c.Top? then s.id else root, c, Promoted(t, d, s))
  {
    var o := Over(d, Outer(c, t));
    var m1 := Bypassed(m, o, s.right);
    var t1 := Node(t.left, t.id, t.data, Plug(d, s.right));
    assert Sits(m1, root, c, t1) && Substitutes(m1, TakenOver(m, c, t, d, s), c, t1, s.id) by {
      TakenOverReady(m, root, c, t, d, s);
      if d.Top? {
        TakenOverAdjacent(m, root, c, t, d, s);
      } else {
        FarDistinct(c, t, d, s);
        TakenOverFarCells(m, c, t, d, s);
        TakenOverFar(m, TakenOver(m, c, t, d, s), c, t, d, s);
      }
      BypassedSits(m, root, o, s, s.right);
      PromotedPlug(c, t, d, s);
      SitsPlug(m1, root, o, s.right);
      SitsPlug(m1, root, c, t1);
    }
    PromotedIds(c, t, d, s);
    RepInMemory(m, UpId(c), t);
    SubstitutedSits(m1, TakenOver(m, c, t, d, s), root, c, t1, s.id);
  }

  lemma FarDistinct(c: RbCtx, t: RbT, d: RbCtx, s: RbT)
    requires Fits(c, t) && Successor(c, t, d, s) && s.left == Leaf && !d.Top? && NULL !in Ids(t) + CtxIds(c)
    ensures t.right.Node?
    ensures t.id !in {s.id, t.left.id, t.right.id, Id(s.right), d.id, UpId(c)}
    ensures s.id !in {t.left.id, t.right.id, Id(s.right), d.id, UpId(c)}
    ensures t.left.id !in {t.right.id, Id(s.right), d.id, UpId(c)}
    ensures Id(s.right) !in {t.right.id, d.id} && (Id(s.right) == UpId(c) ==> s.right.Leaf?)
    ensures UpId(c) !in {t.right.id, d.id}
  {
    PromotedIds(c, t, d, s);
    assert t.left.id in Ids(t.left) && (s.right.Node? ==> s.right.id in Ids(s.right));
    assert !c.Top? ==> c.id in CtxIds(c);
  }

  /** What rb_remove reads and relies on when it relinks the successor. */
  ghost predicate SpliceReadable(m: Memory, c: RbCtx, t: RbT, d: RbCtx, s: RbT) {
    && t.Node? && s.Node? && t.id in m && s.id in m
    && m[t.id] == Cell(UpId(c), Id(t.left), Id(t.right), t.data)
    && m[s.id] == Cell(if d.Top? then t.id else d.id, NULL, Id(s.right), s.data)
    && t.id !in {NULL, s.id, Id(t.left), Id(t.right), Id(s.right), UpId(d), UpId(c)}
    && s.id !in {NULL, Id(t.left), Id(s.right), UpId(d), UpId(c)}
    && (c.Top? || (c.id != NULL && c.id in m))
    && (c.InLeft? ==> m[c.id].left == t.id) && (c.InRight? ==> m[c.id].left != t.id)
    && (s.right.Node? ==> s.right.id != NULL) && (!d.Top? ==> d.id != NULL)
  }

  lemma SpliceInMemory(m: Memory, root: Ptr, c: RbCtx, t: RbT, d: RbCtx, s: RbT)
    requires Sits(m, root, c, t) && Successor(c, t, d, s) && s.left == Leaf
    requires Sits(m, root, Over(d, Outer(c, t)), s) && NULL !in Ids(t) + CtxIds(c)
    ensures SpliceReadable(m, c, t, d, s)
  {
    PromotedIds(c, t, d, s);
    assert t.left.id in Ids(t.left) && (s.right.Node? ==> s.right.id in Ids(s.right));
    assert !c.Top? ==> c.id in CtxIds(c);
    assert c.InRight? && c.left.Node? ==> c.left.id in Ids(c.left);
  }

  // ---- removal: colours ----

  /** The focus is one black node short; its root may be red below a red node. */
  ghost predicate Short(c: RbCtx, t: RbT) {
    Balanced(t) && (t.Node? ==> NoRedRed(t.left) && NoRedRed(t.right)) && CtxOk(c, BlackHeight(t) + 1)
  }

  ghost function Sibling(c: RbCtx): RbT
    requires !c.Top?
  {
    if c.InLeft? then c.right else c.left
  }

  /** What the removal fix-up reads: the sibling exists, and `parent->left == node` tells the
      side even when the focus is empty. */
  lemma SiblingInMemory(m: Memory, root: Ptr, c: RbCtx, t: RbT)
    requires Sits(m, root, c, t) && Short(c, t) && !c.Top?
    ensures Sibling(c).Node? && c.id in m && Sibling(c).id in m && Sibling(c).id != NULL
    ensures c.InLeft? <==> m[c.id].left == Id(t)
    ensures Sibling(c).id == if c.InLeft? then m[c.id].right else m[c.id].left
    ensures m[Sibling(c).id] == Cell(c.id, Id(Sibling(c).left), Id(Sibling(c).right), Sibling(c).data)
    ensures Id(t) != root
    ensures t.Node? ==> t.id in m && m[t.id].black == t.data
  {
    assert Rep(m, c.id, Sibling(c));
    RepInMemory(m, c.id, t);
    RepCtxInMemory(m, root, c, Id(t));
    assert t.Node? ==> t.id in Ids(t);
    assert Sibling(c).id in Ids(Sibling(c));
  }

  /** A red sibling has two children, and they are black. */
  lemma RedSiblingNephews(c: RbCtx, t: RbT)
    requires Short(c, t) && !c.Top? && Sibling(c).Node? && !Sibling(c).data
    ensures Sibling(c).left.Node? && Sibling(c).left.data && Sibling(c).right.Node? && Sibling(c).right.data
  {
    var s := Sibling(c);
    assert BlackHeight(s) == BlackHeight(t) + 1;
    assert BlackHeight(s.left) > 0 && BlackHeight(s.right) > 0;
  }

  /** The nephews that exist can be read. */
  lemma NephewsInMemory(m: Memory, root: Ptr, c: RbCtx, t: RbT)
    requires Sits(m, root, c, t) && !c.Top? && Sibling(c).Node?
    ensures var s := Sibling(c);
      && (s.left.Leaf? || (s.left.id != NULL && s.left.id in m && m[s.left.id].black == s.left.data))
      && (s.right.Leaf? || (s.right.id != NULL && s.right.id in m && m[s.right.id].black == s.right.data))
  {
    var s := Sibling(c);
    assert Rep(m, c.id, s);
    assert Rep(m, s.id, s.left) && Rep(m, s.id, s.right);
  }

  ghost predicate FocusReadable(m: Memory, root: Ptr, c: RbCtx, t: RbT) {
    && (t.Node? ==> t.id != NULL && t.id in m && m[t.id].parent == UpId(c) && m[t.id].black == t.data)
    && (c.Top? <==> Id(t) == root)
  }

  lemma FocusInMemory(m: Memory, root: Ptr, c: RbCtx, t: RbT)
    requires Sits(m, root, c, t)
    ensures FocusReadable(m, root, c, t)
  {
    RepInMemory(m, UpId(c), t);
    RepCtxInMemory(m, root, c, Id(t));
  }

  ghost function Blackened(t: RbT): RbT {
    if t.Leaf? then t else Black(t)
  }

  /** A red focus, or the whole tree, makes up for the missing black by turning black. */
  lemma ShortFilled(c: RbCtx, t: RbT)
    requires Short(c, t) && (c.Top? || !IsBlack(t))
    ensures RedBlack(Plug(c, Blackened(t)))
  {
    PlugRedBlack(c, Blackened(t));
  }

  /** Cases 1A and 1B: the parent turns red and moves below the sibling, which turns black. */
  ghost function Lowered(c: RbCtx): RbCtx
    requires !c.Top? && Sibling(c).Node?
  {
    var s := Sibling(c);
    if c.InLeft? then InLeft(InLeft(c.up, s.id, true, s.right), c.id, false, s.left)
    else InRight(s.right, c.id, false, InRight(s.left, s.id, true, c.up))
  }

  lemma LoweredColours(c: RbCtx, t: RbT)
    requires Short(c, t) && !c.Top? && !IsBlack(Sibling(c)) && IsBlack(t)
    ensures c.data && Short(Lowered(c), t) && IsBlack(Sibling(Lowered(c)))
  {
    var s, h := Sibling(c), BlackHeight(t) + 1;
    assert Calm(s, h) && Calm(s.left, h) && Calm(s.right, h);
    assert CtxBalanced(c.up, h + 1) && CtxNoRedRed(c.up) && CtxRootBlack(c.up);
    assert CtxOk(Lowered(c).up, h);
  }

  /** Cases 2A and 2B: a red sibling, and the missing black moves to the parent. */
  lemma PaintedSiblingColours(c: RbCtx, t: RbT)
    requires Short(c, t) && !c.Top? && IsBlack(t) && IsBlack(Sibling(c)) && Sibling(c).Node?
    requires IsBlack(Sibling(c).left) && IsBlack(Sibling(c).right)
    ensures Short(c.up, Fill(RedSibling(c), t))
  {
    var s := Sibling(c);
    assert Calm(s, BlackHeight(t) + 1);
    assert Calm(Node(s.left, s.id, false, s.right), BlackHeight(t));
  }

  ghost function RedSibling(c: RbCtx): (c': RbCtx)
    requires !c.Top? && Sibling(c).Node?
    ensures !c'.Top? && c'.up == c.up && c'.id == c.id
  {
    var s := Sibling(c);
    if c.InLeft? then InLeft(c.up, c.id, c.data, Node(s.left, s.id, false, s.right))
    else InRight(Node(s.left, s.id, false, s.right), c.id, c.data, c.up)
  }

  /** Cases 3A and 3B: the red inner nephew becomes the black sibling with a red outer child. */
  ghost function Straightened(c: RbCtx): (c': RbCtx)
    requires !c.Top? && Sibling(c).Node?
    requires if c.InLeft? then Sibling(c).left.Node? else Sibling(c).right.Node?
  {
    var s := Sibling(c);
    if c.InLeft? then
      var n := s.left;
      InLeft(c.up, c.id, c.data, Node(n.left, n.id, true, Node(n.right, s.id, false, s.right)))
    else
      var n := s.right;
      InRight(Node(Node(s.left, s.id, false, n.left), n.id, true, n.right), c.id, c.data, c.up)
  }

  lemma StraightenedColours(c: RbCtx, t: RbT)
    requires Short(c, t) && !c.Top? && Sibling(c).Node? && Sibling(c).data
    requires if c.InLeft? then IsBlack(Sibling(c).right) && !IsBlack(Sibling(c).left)
             else IsBlack(Sibling(c).left) && !IsBlack(Sibling(c).right)
    ensures Short(Straightened(c), t) && IsBlack(Sibling(Straightened(c)))
  {
    var s, h := Sibling(c), BlackHeight(t);
    assert Calm(s, h + 1) && Calm(s.left, h) && Calm(s.right, h);
    var n := if c.InLeft? then s.left else s.right;
    assert Calm(n.left, h) && Calm(n.right, h);
    assert c.InLeft? ==> Calm(Node(n.right, s.id, false, s.right), h);
    assert c.InRight? ==> Calm(Node(s.left, s.id, false, n.left), h);
    assert Calm(Sibling(Straightened(c)), h + 1);
  }

  /** Parent and sibling with their colours exchanged. */
  ghost function Exchanged(c: RbCtx): (c': RbCtx)
    requires !c.Top? && Sibling(c).Node?
    ensures !c'.Top? && c'.up == c.up && c'.id == c.id
  {
    var s := Sibling(c);
    if c.InLeft? then InLeft(c.up, c.id, s.data, Node(s.left, s.id, c.data, s.right))
    else InRight(Node(s.left, s.id, c.data, s.right), c.id, s.data, c.up)
  }

  /** The context of the sibling, with the focus `t` put back. */
  ghost function Turned(c: RbCtx, t: RbT, black: bool): (c': RbCtx)
    requires !c.Top?
  {
    if c.InLeft? then InRight(t, c.id, black, c.up) else InLeft(c.up, c.id, black, t)
  }

  lemma SitsTurned(m: Memory, root: Ptr, c: RbCtx, t: RbT)
    requires !c.Top? && Sits(m, root, c, t)
    ensures Sits(m, root, Turned(c, t, c.data), Sibling(c))
    ensures Plug(Turned(c, t, c.data), Sibling(c)) == Plug(c, t)
  {
    SitsUp(m, root, c, t);
    SitsUp(m, root, Turned(c, t, c.data), Sibling(c));
  }

  /** Painting the parent of the focus. */
  lemma SitsPaintedUp(m: Memory, root: Ptr, c: RbCtx, t: RbT, black: bool)
    requires !c.Top? && Sits(m, root, c, t) && c.id in m
    ensures Sits(m[c.id := m[c.id].(black := black)], root, c.(data := black), t)
    ensures SameNodes(Plug(c.(data := black), t), Plug(c, t))
  {
    SitsUp(m, root, c, t);
    PaintedSits(m, root, c.up, Fill(c, t), black);
    SitsUp(m[c.id := m[c.id].(black := black)], root, c.(data := black), t);
  }

  lemma ExchangedSits(m: Memory, root: Ptr, c: RbCtx, t: RbT)
    requires Sits(m, root, c, t) && !c.Top? && Sibling(c).Node? && c.id in m && Sibling(c).id in m
    requires c.id != Sibling(c).id
    ensures var s := Sibling(c);
      var m' := m[c.id := m[c.id].(black := s.data)][s.id := m[s.id].(black := c.data)];
      Sits(m', root, Exchanged(c), t)
    ensures SameNodes(Plug(Exchanged(c), t), Plug(c, t))
  {
    var s := Sibling(c);
    var m1 := m[c.id := m[c.id].(black := s.data)];
    SitsPaintedUp(m, root, c, t, s.data);
    var c1 := c.(data := s.data);
    SitsTurned(m1, root, c1, t);
    var cs := Turned(c1, t, s.data);
    PaintedSits(m1, root, cs, s, c.data);
    SitsTurned(m1[s.id := m1[s.id].(black := c.data)], root, cs, s.(data := c.data));
  }

  /** Cases 4A and 4B, where `s` is the sibling and its outer child `o` is red. */
  lemma SettledColours(c: RbCtx, t: RbT)
    requires Short(c, t) && !c.Top? && IsBlack(t) && IsBlack(Sibling(c)) && Sibling(c).Node?
    ensures c.InLeft? && !IsBlack(c.right.right) ==>
      var s := c.right;
      var t' := Node(Node(t, c.id, true, s.left), s.id, c.data, Black(s.right));
      Settled(c.up, t')
    ensures c.InRight? && !IsBlack(c.left.left) ==>
      var s := c.left;
      var t' := Node(Black(s.left), s.id, c.data, Node(s.right, c.id, true, t));
      Settled(c.up, t')
  {
    var s, h := Sibling(c), BlackHeight(t);
    assert Calm(s, h + 1) && Calm(s.left, h) && Calm(s.right, h) && Calm(t, h);
    if c.InLeft? {
      assert Calm(Node(t, c.id, true, s.left), h + 1);
      assert !IsBlack(s.right) ==> Calm(Black(s.right), h + 1);
    } else {
      assert Calm(Node(s.right, c.id, true, t), h + 1);
      assert !IsBlack(s.left) ==> Calm(Black(s.left), h + 1);
    }
  }

  ghost predicate Settled(c: RbCtx, t: RbT) {
    CtxOk(c, BlackHeight(t)) && Balanced(t) && NoRedRed(t) && (IsBlack(t) || (UpBlack(c) && !c.Top?))
  }

  /** `Plug(cc, k)` is `Plug(c, t)` without the node at the focus. */
  ghost predicate Without(c: RbCtx, t: RbT, cc: RbCtx, k: RbT) {
    && t.Node? && Ids(Plug(cc, k)) == Ids(Plug(c, t)) - {t.id}
    && InOrder(Plug(cc, k)) == Before(c) + (InOrder(t.left) + InOrder(t.right)) + After(c)
  }

  lemma WithoutIsRemoval(c: RbCtx, t: RbT, cc: RbCtx, k: RbT)
    requires Without(c, t, cc, k)
    ensures exists i :: IsRemoval(InOrder(Plug(c, t)), i, t.id, InOrder(Plug(cc, k)))
    ensures Size(Plug(cc, k)) == Size(Plug(c, t)) - 1
  {
    PlugInOrder(c, t);
    IdsInOrder(Plug(c, t));
    IdsInOrder(Plug(cc, k));
    SeqRemoval(Before(c), InOrder(t.left), t.id, InOrder(t.right), After(c));
  }

  lemma WithoutOuter(c: RbCtx, t: RbT, k: RbT)
    requires Fits(c, t) && t.Node?
    requires (t.left == Leaf && k == t.right) || (t.right == Leaf && k == t.left)
    ensures Without(c, t, c, k)
  {
    PlugInOrder(c, k);
    PlugDistinct(c, k);
    PlugDistinct(c, t);
    assert InOrder(k) == InOrder(t.left) + InOrder(t.right);
  }

  lemma WithoutInner(c: RbCtx, t: RbT, d: RbCtx, s: RbT)
    requires Fits(c, t) && Successor(c, t, d, s) && s.left == Leaf
    ensures Without(c, t, Over(d, Outer(c, Promoted(t, d, s))), s.right)
    ensures !Over(d, Outer(c, Promoted(t, d, s))).Top?
    ensures UpId(Over(d, Outer(c, Promoted(t, d, s)))) == if d.Top? then s.id else d.id
  {
    PromotedPlug(c, t, d, s);
    PromotedInOrder(c, t, d, s);
    PromotedIds(c, t, d, s);
    PlugInOrder(c, Promoted(t, d, s));
    PlugDistinct(c, Promoted(t, d, s));
    PlugDistinct(c, t);
  }

  lemma LoneChild(t: RbT, k: RbT)
    requires Balanced(t) && NoRedRed(t) && t.Node?
    requires (t.left == Leaf && k == t.right) || (t.right == Leaf && k == t.left)
    ensures Calm(k, 0) && BlackHeight(t) == (if t.data then 1 else 0)
    ensures k.Node? ==> NoRedRed(k.left) && NoRedRed(k.right)
    ensures t.data || IsBlack(k)
  {
  }

  /** Bypassing a black node leaves its context one black short; bypassing a red one is harmless. */
  lemma BypassedColours(c: RbCtx, t: RbT, k: RbT)
    requires RedBlack(Plug(c, t)) && t.Node?
    requires (t.left == Leaf && k == t.right) || (t.right == Leaf && k == t.left)
    ensures if t.data then Short(c, k) else RedBlack(Plug(c, k))
  {
    UnplugRedBlack(c, t);
    LoneChild(t, k);
    if !t.data {
      PlugRedBlack(c, k);
    }
  }

  lemma PromotedColours(c: RbCtx, t: RbT, d: RbCtx, s: RbT)
    requires RedBlack(Plug(c, t)) && Successor(c, t, d, s) && s.left == Leaf
    ensures var cc := Over(d, Outer(c, Promoted(t, d, s)));
      if s.data then Short(cc, s.right) else RedBlack(Plug(cc, s.right))
  {
    var o, cc := Over(d, Outer(c, t)), Over(d, Outer(c, Promoted(t, d, s)));
    PromotedPlug(c, t, d, s);
    UnplugRedBlack(o, s);
    OverRenamed(d, t.left, t.id, s.id, t.data, c, BlackHeight(s));
    if !s.data {
      PlugRedBlack(cc, s.right);
    }
  }

  // ---- height ----

  lemma {:induction false} BlackHeightSize(t: RbT)
    requires Balanced(t)
    ensures Pow2(BlackHeight(t)) <= Size(t) + 1
  {
    if t.Node? {
      BlackHeightSize(t.left);
      BlackHeightSize(t.right);
    }
  }

  lemma {:induction false} HeightBlackHeight(t: RbT)
    requires Balanced(t) && NoRedRed(t)
    ensures Height(t) <= 2 * BlackHeight(t) + if IsBlack(t) then 0 else 1
  {
    if t.Node? {
      HeightBlackHeight(t.left);
      HeightBlackHeight(t.right);
    }
  }

  /** The height of a red-black tree of n nodes is at most 2 * log2(n + 1). */
  lemma RedBlackHeight(t: RbT)
    requires RedBlack(t)
    ensures Pow2(Height(t)) <= (Size(t) + 1) * (Size(t) + 1)
  {
    var k := BlackHeight(t);
    BlackHeightSize(t);
    HeightBlackHeight(t);
    Pow2Monotone(Height(t), k + k);
    Pow2Add(k, k);
    MulMonotone(Pow2(k), Size(t) + 1);
  }

  lemma MulMonotone(a: nat, b: nat)
    requires a <= b
    ensures a * a <= b * b
  {
    assert b * b == a * a + a * (b - a) + (b - a) * b;
    assert a * (b - a) >= 0 && (b - a) * b >= 0;
  }

  // ---- neighbours ----

  lemma FirstFocus(c: RbCtx, t: RbT)
    requires t.Node? && Fits(c, t) && Head(InOrder(Plug(c, t))) == t.id
    ensures Head(InOrder(t)) == t.id
  {
    PlugInOrderNode(c, t);
    PlugDistinct(c, t);
    DistinctInOrder(Plug(c, t));
    var s, a := InOrder(Plug(c, t)), Before(c) + InOrder(t.left);
    assert s[|a|] == t.id;
    assert |a| == 0;
  }

  /** What rb_next relies on when it is given a node that has left the tree: its stale links
      still name the first node. */
  ghost predicate StaleFirst(m: Memory, node: Ptr, s: seq<Ptr>) {
    && node != NULL && node in m && node !in s
    && Head(s) == if m[node].right != NULL then m[node].right else m[node].parent
  }

  /** The first node of a red-black tree is followed by its right child, or else by its parent. */
  lemma {:induction false} MinimumNeighbour(m: Memory, root: Ptr, c: RbCtx, t: RbT)
    requires Sits(m, root, c, t) && t.Node? && Before(c) == [] && RedBlack(Plug(c, t))
    ensures var s := InOrder(t) + After(c);
      && s[0] in m
      && Head(s[1..]) == if m[s[0]].right != NULL then m[s[0]].right else m[s[0]].parent
    decreases t
  {
    var s := InOrder(t) + After(c);
    if t.left.Node? {
      var c' := InLeft(c, t.id, t.data, t.right);
      SitsUp(m, root, c', t.left);
      MinimumNeighbour(m, root, c', t.left);
      assert InOrder(t.left) + After(c') == s;
    } else {
      UnplugRedBlack(c, t);
      LoneChild(t, t.right);
      assert Rep(m, t.id, t.right);
      assert s[1..] == InOrder(t.right) + After(c);
      assert t.right.Node? ==> t.right.left.Leaf? && Head(InOrder(t.right)) == t.right.id;
    }
  }

  lemma RemovedMinimum(m: Memory, root: Ptr, t: RbT, s': seq<Ptr>)
    requires Sits(m, root, Top, t) && RedBlack(t) && t.Node?
    requires IsRemoval(InOrder(t), 0, InOrder(t)[0], s')
    ensures StaleFirst(m, InOrder(t)[0], s')
  {
    MinimumNeighbour(m, root, Top, t);
    DistinctInOrder(t);
    IdsInOrder(t);
    RepInMemory(m, NULL, t);
    assert InOrder(t) + After<bool>(Top) == InOrder(t);
    assert s' == InOrder(t)[1..];
  }

}
