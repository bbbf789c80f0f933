/**
 Binary trees of node addresses, and the zipper (focus plus context) used to follow a
 pointer that walks through such a tree.  Both intrusive trees of the toolkit, the
 red-black tree and the plain search tree, are described by these shapes; `D` is what a
 node carries besides its links (the colour, for a red-black tree).
 */
module Trees {
  /** A node address; `NULL` is the null pointer. */
  type Ptr = nat
  const NULL: Ptr := 0

  datatype Tree<D> = Leaf | Node(left: Tree<D>, id: Ptr, data: D, right: Tree<D>)

  /** A tree with one missing subtree; `up` is the context of the parent node. */
  datatype Ctx<D> =
    | Top
    | InLeft(up: Ctx<D>, id: Ptr, data: D, right: Tree<D>)
    | InRight(left: Tree<D>, id: Ptr, data: D, up: Ctx<D>)

  function Id<D>(t: Tree<D>): Ptr {
    if t.Leaf? then NULL else t.id
  }

  function UpId<D>(c: Ctx<D>): Ptr {
    if c.Top? then NULL else c.id
  }

  function Plug<D>(c: Ctx<D>, t: Tree<D>): Tree<D>
    decreases c
  {
    match c
    case Top => t
    case InLeft(up, x, d, r) => Plug(up, Node(t, x, d, r))
    case InRight(l, x, d, up) => Plug(up, Node(l, x, d, t))
  }

  function InOrder<D>(t: Tree<D>): seq<Ptr> {
    match t
    case Leaf => []
    case Node(l, x, _, r) => InOrder(l) + [x] + InOrder(r)
  }

  /** The nodes a context places before, respectively after, its hole. */
  function Before<D>(c: Ctx<D>): seq<Ptr> {
    match c
    case Top => []
    case InLeft(up, _, _, _) => Before(up)
    case InRight(l, x, _, up) => Before(up) + InOrder(l) + [x]
  }

  function After<D>(c: Ctx<D>): seq<Ptr> {
    match c
    case Top => []
    case InLeft(up, x, _, r) => [x] + InOrder(r) + After(up)
    case InRight(_, _, _, up) => After(up)
  }

  ghost function Ids<D>(t: Tree<D>): set<Ptr> {
    match t
    case Leaf => {}
    case Node(l, x, _, r) => Ids(l) + {x} + Ids(r)
  }

  ghost function CtxIds<D>(c: Ctx<D>): set<Ptr> {
    match c
    case Top => {}
    case InLeft(up, x, _, r) => CtxIds(up) + {x} + Ids(r)
    case InRight(l, x, _, up) => CtxIds(up) + {x} + Ids(l)
  }

  /** No address occurs twice. */
  ghost predicate Distinct<D>(t: Tree<D>) {
    match t
    case Leaf => true
    case Node(l, x, _, r) => Distinct(l) && Distinct(r) && x !in Ids(l) && x !in Ids(r) && Ids(l) !! Ids(r)
  }

  ghost predicate CtxDistinct<D>(c: Ctx<D>) {
    match c
    case Top => true
    case InLeft(up, x, _, r) =>
      CtxDistinct(up) && Distinct(r) && x !in Ids(r) && x !in CtxIds(up) && Ids(r) !! CtxIds(up)
    case InRight(l, x, _, up) =>
      CtxDistinct(up) && Distinct(l) && x !in Ids(l) && x !in CtxIds(up) && Ids(l) !! CtxIds(up)
  }

  ghost predicate Fits<D>(c: Ctx<D>, t: Tree<D>) {
    Distinct(t) && CtxDistinct(c) && Ids(t) !! CtxIds(c)
  }

  function Size<D>(t: Tree<D>): nat {
    if t.Leaf? then 0 else Size(t.left) + 1 + Size(t.right)
  }

  function Height<D>(t: Tree<D>): nat {
    if t.Leaf? then 0 else 1 + Max(Height(t.left), Height(t.right))
  }

  function Max(a: nat, b: nat): nat {
    if a < b then b else a
  }

  function Depth<D>(c: Ctx<D>): nat {
    if c.Top? then 0 else 1 + Depth(c.up)
  }

  function Pow2(k: nat): nat {
    if k == 0 then 1 else 2 * Pow2(k - 1)
  }

  // ---- comparing trees and memories ----

  /** Two trees with the same nodes in the same order. */
  ghost predicate SameNodes<D>(t: Tree<D>, t': Tree<D>) {
    InOrder(t) == InOrder(t') && Ids(t) == Ids(t')
  }

  ghost predicate Agree<C>(m: map<Ptr, C>, m': map<Ptr, C>, s: set<Ptr>) {
    forall x :: x in s && x in m ==> x in m' && m'[x] == m[x]
  }

  /** Nothing outside `s` changed, and no cell appeared or disappeared. */
  ghost predicate OnlyIn<C>(m: map<Ptr, C>, m': map<Ptr, C>, s: set<Ptr>) {
    m'.Keys == m.Keys && forall x :: x in m && x !in s ==> m'[x] == m[x]
  }

  // ---- plugging ----

  lemma {:induction false} PlugInOrder<D>(c: Ctx<D>, t: Tree<D>)
    ensures InOrder(Plug(c, t)) == Before(c) + InOrder(t) + After(c)
    decreases c
  {
    match c
    case Top =>
    case InLeft(up, x, d, r) =>
      PlugInOrder(up, Node(t, x, d, r));
    case InRight(l, x, d, up) =>
      PlugInOrder(up, Node(l, x, d, t));
  }

  lemma Regroup(a: seq<Ptr>, l: seq<Ptr>, x: Ptr, r: seq<Ptr>, b: seq<Ptr>)
    ensures a + (l + [x] + r) + b == (a + l) + [x] + (r + b)
  {
  }

  /** The in-order sequence seen from a node at the focus. */
  lemma PlugInOrderNode<D>(c: Ctx<D>, t: Tree<D>)
    requires t.Node?
    ensures InOrder(Plug(c, t)) == (Before(c) + InOrder(t.left)) + [t.id] + (InOrder(t.right) + After(c))
  {
    PlugInOrder(c, t);
    Regroup(Before(c), InOrder(t.left), t.id, InOrder(t.right), After(c));
  }

  lemma {:induction false} PlugDistinct<D>(c: Ctx<D>, t: Tree<D>)
    ensures Distinct(Plug(c, t)) <==> Fits(c, t)
    ensures Ids(Plug(c, t)) == CtxIds(c) + Ids(t)
    decreases c
  {
    match c
    case Top =>
    case InLeft(up, x, d, r) =>
      PlugDistinct(up, Node(t, x, d, r));
    case InRight(l, x, d, up) =>
      PlugDistinct(up, Node(l, x, d, t));
  }

  lemma {:induction false} IdsInOrder<D>(t: Tree<D>)
    ensures forall x :: x in InOrder(t) <==> x in Ids(t)
    ensures |InOrder(t)| == Size(t)
  {
    match t
    case Leaf =>
    case Node(l, _, _, r) =>
      IdsInOrder(l);
      IdsInOrder(r);
  }

  /** In a tree of distinct nodes the in-order sequence repeats nothing. */
  lemma {:induction false} DistinctInOrder<D>(t: Tree<D>)
    requires Distinct(t)
    ensures forall i, j :: 0 <= i < j < |InOrder(t)| ==> InOrder(t)[i] != InOrder(t)[j]
  {
    match t
    case Leaf =>
    case Node(l, x, _, r) =>
      DistinctInOrder(l);
      DistinctInOrder(r);
      IdsInOrder(l);
      IdsInOrder(r);
      var s, n := InOrder(t), |InOrder(l)|;
      forall i, j | 0 <= i < j < |s|
        ensures s[i] != s[j]
      {
        assert i < n ==> s[i] in InOrder(l);
        assert i > n ==> s[i] == InOrder(r)[i - n - 1];
        assert j > n ==> s[j] == InOrder(r)[j - n - 1] && s[j] in InOrder(r);
      }
  }

  // ---- locating a node ----

  /** The zipper focused on node `x` of the tree `Plug(c, t)`, where `x` lies in `t`. */
  ghost function Locate<D>(c: Ctx<D>, t: Tree<D>, x: Ptr): (z: (Ctx<D>, Tree<D>))
    requires x in Ids(t)
    ensures z.1.Node? && z.1.id == x
    ensures Plug(z.0, z.1) == Plug(c, t)
    decreases t
  {
    if t.id == x then (c, t)
    else if x in Ids(t.left) then Locate(InLeft(c, t.id, t.data, t.right), t.left, x)
    else Locate(InRight(t.left, t.id, t.data, c), t.right, x)
  }

  // ---- size and height ----

  lemma {:induction false} SizeHeight<D>(t: Tree<D>)
    ensures Size(t) < Pow2(Height(t))
  {
    if t.Node? {
      SizeHeight(t.left);
      SizeHeight(t.right);
      Pow2Monotone(Height(t.left), Max(Height(t.left), Height(t.right)));
      Pow2Monotone(Height(t.right), Max(Height(t.left), Height(t.right)));
    }
  }

  lemma {:induction false} Pow2Monotone(a: nat, b: nat)
    requires a <= b
    ensures Pow2(a) <= Pow2(b)
    decreases b
  {
    if a < b {
      Pow2Monotone(a, b - 1);
    }
  }

  lemma Pow2Order(a: nat, b: nat)
    ensures Pow2(a) < Pow2(b) ==> a < b
  {
    if b <= a {
      Pow2Monotone(b, a);
    }
  }

  lemma {:induction false} Pow2Add(a: nat, b: nat)
    ensures Pow2(a + b) == Pow2(a) * Pow2(b)
    decreases b
  {
    if b > 0 {
      Pow2Add(a, b - 1);
      assert a + b - 1 == a + (b - 1);
      assert Pow2(a + b) == 2 * (Pow2(a) * Pow2(b - 1));
    }
  }

  lemma AttachedNodes<D>(c: Ctx<D>, x: Ptr, d: D)
    requires x !in Ids(Plug(c, Leaf))
    ensures var t := Plug(c, Node(Leaf, x, d, Leaf));
      && Ids(t) == Ids(Plug(c, Leaf)) + {x} && Size(t) == Size(Plug(c, Leaf)) + 1
      && InOrder(t) == Before(c) + [x] + After(c) && x !in CtxIds(c)
    ensures Distinct(Plug(c, Leaf)) ==> Fits(c, Node(Leaf, x, d, Leaf))
  {
    var leaf := Node(Leaf, x, d, Leaf);
    PlugDistinct(c, Leaf);
    PlugDistinct(c, leaf);
    PlugInOrder(c, Leaf);
    PlugInOrder(c, leaf);
    assert InOrder(leaf) == [x];
    IdsInOrder(Plug(c, Leaf));
    IdsInOrder(Plug(c, leaf));
  }
}
