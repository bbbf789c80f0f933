/**
 When the iterators of common/bst.c have to rebalance and start again, and exactly when that ends:
 bst_balance as a function of the in-order sequence, and how far each operation fills its stack.
 */
module BstRetries {
  import opened Trees
  import opened Sequences
  import opened Bits
  import opened Orders
  import opened BstShape

  // ---- the balanced tree is a function of the order ----

  /** The left slanted tree of a sequence. */
  ghost function VineOf(s: seq<Ptr>): Bst {
    if s == [] then Leaf else Node(VineOf(s[..|s| - 1]), s[|s| - 1], (), Leaf)
  }

  /** slant_left_back where the spine is long enough, as it always is. */
  ghost function Compressed(t: Bst, k: nat): Bst {
    if 2 * k <= Spine(t) then Compress(t, k) else t
  }

  /** The halving passes of slant_back. */
  ghost function Halved(t: Bst, vine: nat): Bst
    decreases vine
  {
    if vine <= 1 then t else Halved(Compressed(t, vine / 2), vine / 2)
  }

  /** slant_back on a left slanted tree of `n` nodes. */
  ghost function Slanted(t: Bst, n: nat): Bst {
    Halved(Compressed(t, Leaves(n)), n - Leaves(n))
  }

  /** The nodes of the bottom level, which go in first: n + 1 less its highest bit. */
  ghost function Leaves(n: nat): (k: nat)
    ensures k <= n
  {
    TopPowerBits(n + 1);
    n + 1 - TopPower(n + 1)
  }

  /** What bst_balance makes of any tree with the in-order sequence `s`. */
  ghost function Rebuilt(s: seq<Ptr>): Bst {
    Slanted(VineOf(s), |s|)
  }

  /**
   What a call of an iterator does to the table: nothing or, if its stack is too small, one rebalance.
   With fewer than 2^(h+1) nodes no iterator is lost by that.
   */
  ghost predicate Rebalanced(t: Bst, generation: nat, t': Bst, generation': nat, h: nat, again: bool) {
    if again then
      && t' == Rebuilt(InOrder(t)) && SameNodes(t', t) && generation' == generation + 1
      && (Size(t) < Pow2(h + 1) ==> KeepsCursors(t, generation, t', generation', h))
    else t' == t && generation' == generation
  }

  lemma {:induction false} VineIs(t: Bst)
    requires Vine(t)
    ensures t == VineOf(InOrder(t))
  {
    if t.Node? {
      VineIs(t.left);
      var s := InOrder(t);
      assert s == InOrder(t.left) + [t.id];
      assert s[..|s| - 1] == InOrder(t.left);
      assert t.data == ();
    }
  }

  lemma {:induction false} VineOfIs(s: seq<Ptr>)
    ensures Vine(VineOf(s)) && InOrder(VineOf(s)) == s && Size(VineOf(s)) == |s|
  {
    if s != [] {
      VineOfIs(s[..|s| - 1]);
      assert s == s[..|s| - 1] + [s[|s| - 1]];
    }
  }

  lemma CompressedKeeps(t: Bst, k: nat)
    ensures SameNodes(Compressed(t, k), t)
  {
    if 2 * k <= Spine(t) {
      CompressKeeps(t, k);
    }
  }

  lemma {:induction false} HalvedKeeps(t: Bst, vine: nat)
    ensures SameNodes(Halved(t, vine), t)
    decreases vine
  {
    if vine > 1 {
      CompressedKeeps(t, vine / 2);
      HalvedKeeps(Compressed(t, vine / 2), vine / 2);
    }
  }

  /** Halving 2^k - 1 spine nodes takes k - 1 passes, each one level high. */
  lemma {:induction false} HalvedHeight(t: Bst, vine: nat, h: nat, k: nat)
    requires vine + 1 == Pow2(k) && Fringe(t, vine, h)
    ensures Height(Halved(t, vine)) <= h + k
    decreases vine
  {
    if vine > 1 {
      assert vine == 2 * (vine / 2) + 1;
      CompressFringe(t, vine / 2, h);
      HalvedHeight(Compressed(t, vine / 2), vine / 2, h + 1, k - 1);
    } else if vine == 1 {
      assert k == 1 by {
        Pow2Order(k, 2);
      }
      assert Fringe(t.left, 0, h);
    }
  }

  lemma SlantedKeeps(t: Bst, n: nat)
    ensures SameNodes(Slanted(t, n), t) && Size(Slanted(t, n)) == Size(t)
  {
    CompressedKeeps(t, Leaves(n));
    HalvedKeeps(Compressed(t, Leaves(n)), n - Leaves(n));
    IdsInOrder(t);
    IdsInOrder(Slanted(t, n));
  }

  lemma SlantedFringe(t: Bst, n: nat, leaves: nat)
    requires Vine(t) && n == Size(t) && 2 * leaves <= n
    ensures Fringe(Compressed(t, leaves), n - leaves, if leaves > 0 then 1 else 0)
  {
    CompressVine(t, leaves);
  }

  /** The numbers of slant_back: bottom leaves, then a spine of 2^k - 1 nodes. */
  lemma SlantNumbers(n: nat) returns (k: nat)
    ensures 2 * Leaves(n) <= n && n - Leaves(n) + 1 == Pow2(k)
    ensures n > 0 ==> k > 0 && BitLength(n) == k + if Leaves(n) > 0 then 1 else 0
  {
    BalanceArithmetic(n);
    k := BitLength(n + 1) - 1;
  }

  lemma HalvedVine(t: Bst, leaves: nat, k: nat)
    requires Vine(t) && 2 * leaves <= Size(t) && Size(t) - leaves + 1 == Pow2(k)
    ensures Height(Halved(Compressed(t, leaves), Size(t) - leaves)) <= k + if leaves > 0 then 1 else 0
  {
    SlantedFringe(t, Size(t), leaves);
    HalvedHeight(Compressed(t, leaves), Size(t) - leaves, if leaves > 0 then 1 else 0, k);
  }

  lemma SlantedLow(t: Bst)
    requires Vine(t) && t.Node?
    ensures Height(Slanted(t, Size(t))) <= BitLength(Size(t))
  {
    var k := SlantNumbers(Size(t));
    HalvedVine(t, Leaves(Size(t)), k);
  }

  /** One halving pass. */
  lemma HalveStep(t: Bst, vine: nat, h: nat, k: nat)
    requires vine > 1 && vine + 1 == Pow2(k) && Fringe(t, vine, h)
    ensures 2 * (vine / 2) <= Spine(t) && k > 1 && vine / 2 + 1 == Pow2(k - 1)
    ensures Fringe(Compress(t, vine / 2), vine / 2, h + 1) && Halved(t, vine) == Halved(Compress(t, vine / 2), vine / 2)
  {
    assert vine == 2 * (vine / 2) + 1;
    CompressFringe(t, vine / 2, h);
  }

  /** After the last one. */
  lemma HalveEnd(t: Bst, vine: nat, k: nat)
    requires vine <= 1 && vine + 1 == Pow2(k)
    ensures k <= 1 && Halved(t, vine) == t
  {
  }

  /** Both phases of bst_balance, and what they do to iterators. */
  lemma BalancedIs(t: Bst, v: Bst, generation: nat, h: nat)
    requires Vine(v) && SameNodes(v, t) && Size(v) == Size(t)
    ensures var b := Slanted(v, Size(t));
      Rebalanced(t, generation, b, generation + 1, h, true) && Height(b) == BitLength(Size(t))
  {
    VineIs(v);
    IdsInOrder(t);
    SlantedHeight(v);
    if Size(t) < Pow2(h + 1) {
      BitLengthFits(Size(t), h + 1);
      TracksBalanceAll(t, Slanted(v, Size(t)), generation, h);
    }
  }

  lemma SlantedHeight(t: Bst)
    requires Vine(t)
    ensures SameNodes(Slanted(t, Size(t)), t) && Height(Slanted(t, Size(t))) == BitLength(Size(t))
  {
    SlantedKeeps(t, Size(t));
    HeightAtLeast(Slanted(t, Size(t)));
    if t.Node? {
      SlantedLow(t);
    } else {
      assert Slanted(t, 0).Leaf?;
    }
  }

  /** The balanced tree has the same order and the least height, and balancing it again changes nothing. */
  lemma RebuiltIs(s: seq<Ptr>)
    ensures InOrder(Rebuilt(s)) == s && Height(Rebuilt(s)) == BitLength(|s|) && Size(Rebuilt(s)) == |s|
    ensures Rebuilt(InOrder(Rebuilt(s))) == Rebuilt(s)
  {
    VineOfIs(s);
    SlantedHeight(VineOf(s));
    IdsInOrder(Rebuilt(s));
  }

  lemma NoRepeatParts(l: seq<Ptr>, x: Ptr, r: seq<Ptr>)
    requires NoRepeat(l + [x] + r)
    ensures NoRepeat(l) && NoRepeat(r) && x !in l && x !in r && forall y :: y in l ==> y !in r
  {
    var s := l + [x] + r;
    assert s[|l|] == x;
    assert forall i :: 0 <= i < |l| ==> s[i] == l[i];
    assert forall i :: 0 <= i < |r| ==> s[|l| + 1 + i] == r[i];
  }

  lemma {:induction false} NoRepeatDistinct(t: Bst)
    requires NoRepeat(InOrder(t))
    ensures Distinct(t)
  {
    if t.Node? {
      NoRepeatParts(InOrder(t.left), t.id, InOrder(t.right));
      NoRepeatDistinct(t.left);
      NoRepeatDistinct(t.right);
      IdsInOrder(t.left);
      IdsInOrder(t.right);
    }
  }

  // ---- searching with a stack ----

  /** The nodes bst_iterator_find and bst_iterator_insert push, if the stack has room for them. */
  ghost function Pushes(search: Ptr -> int, t: Bst): nat {
    if t.Leaf? || search(t.id) == 0 then 0
    else 1 + if search(t.id) > 0 then Pushes(search, t.right) else Pushes(search, t.left)
  }

  /** The search ends: the stack suffices now, or it does after rebalancing. */
  ghost predicate FindEnds(search: Ptr -> int, t: Bst, h: nat) {
    Pushes(search, t) <= h || Pushes(search, Rebuilt(InOrder(t))) <= h
  }

  /** The search ends within `n` calls, each of which but the last rebalances and starts the next. */
  ghost predicate FindEndsWithin(search: Ptr -> int, t: Bst, h: nat, n: nat)
    decreases n
  {
    n > 0 && (Pushes(search, t) <= h || FindEndsWithin(search, Rebuilt(InOrder(t)), h, n - 1))
  }

  /** Two calls are enough if any number is. */
  lemma FindEndsMeans(search: Ptr -> int, t: Bst, h: nat, n: nat)
    ensures FindEnds(search, t, h) ==> FindEndsWithin(search, t, h, 2)
    ensures FindEndsWithin(search, t, h, n) ==> FindEnds(search, t, h)
  {
    var b := Rebuilt(InOrder(t));
    RebuiltIs(InOrder(t));
    assert FindEndsWithin(search, b, h, 1) <==> Pushes(search, b) <= h;
    if FindEndsWithin(search, t, h, n) && Pushes(search, t) > h {
      StuckStays(search, b, h, n - 1);
    }
  }

  lemma {:induction false} StuckStays(search: Ptr -> int, b: Bst, h: nat, n: nat)
    requires Rebuilt(InOrder(b)) == b
    ensures FindEndsWithin(search, b, h, n) ==> Pushes(search, b) <= h
  {
    if n > 0 {
      StuckStays(search, b, h, n - 1);
    }
  }

  lemma {:induction false} PushesHeight(search: Ptr -> int, t: Bst)
    ensures Pushes(search, t) <= Height(t)
  {
    if t.Node? {
      PushesHeight(search, t.left);
      PushesHeight(search, t.right);
    }
  }

  /** The search leads to the hole of the context. */
  ghost predicate Leads(search: Ptr -> int, c: BstCtx) {
    (forall x :: x in Before(c) ==> search(x) > 0) && (forall x :: x in After(c) ==> search(x) < 0)
  }

  /** A search that leads to the focus pushes the nodes above it first. */
  lemma {:induction false} PushesPlug(search: Ptr -> int, c: BstCtx, t: Bst)
    requires Leads(search, c)
    ensures Pushes(search, Plug(c, t)) == Depth(c) + Pushes(search, t)
    decreases c
  {
    match c
    case Top =>
    case InLeft(up, x, d, r) =>
      assert After(c)[0] == x;
      assert forall y :: y in After(up) ==> y in After(c);
      PushesPlug(search, up, Node(t, x, d, r));
    case InRight(l, x, d, up) =>
      assert Before(c)[|Before(c)| - 1] == x;
      assert forall y :: y in Before(up) ==> y in Before(c);
      PushesPlug(search, up, Node(l, x, d, t));
  }

  /** The way down to a node without a left child at the lowest level. */
  lemma {:induction false} DeepestFocus(c: BstCtx, t: Bst) returns (c': BstCtx, t': Bst)
    requires t.Node?
    ensures Plug(c', t') == Plug(c, t) && t'.Node? && t'.left == Leaf
    ensures Depth(c') + 1 == Depth(c) + Height(t)
    decreases t
  {
    if t.left.Leaf? && t.right.Leaf? {
      c', t' := c, t;
    } else if Height(t.left) < Height(t.right) {
      c', t' := DeepestFocus(InRight(t.left, t.id, t.data, c), t.right);
    } else {
      c', t' := DeepestFocus(InLeft(c, t.id, t.data, t.right), t.left);
    }
  }

  /** `search` is for something that would come before the element `i` of `s`. */
  ghost predicate SeeksGap(search: Ptr -> int, s: seq<Ptr>, i: nat) {
    && (forall j :: 0 <= j < i && j < |s| ==> search(s[j]) > 0)
    && (forall j :: i <= j < |s| ==> search(s[j]) < 0)
  }

  lemma GapSides(search: Ptr -> int, a: seq<Ptr>, x: Ptr, b: seq<Ptr>)
    requires SeeksGap(search, a + [x] + b, |a|)
    ensures search(x) < 0 && (forall y :: y in a ==> search(y) > 0) && (forall y :: y in b ==> search(y) < 0)
  {
    var s := a + [x] + b;
    assert forall j :: 0 <= j < |a| ==> s[j] == a[j];
    assert s[|a|] == x;
    assert forall j :: 0 <= j < |b| ==> s[|a| + 1 + j] == b[j];
  }

  lemma GapPushes(search: Ptr -> int, c: BstCtx, t: Bst)
    requires t.Node? && t.left == Leaf && SeeksGap(search, InOrder(Plug(c, t)), |Before(c)|)
    ensures Pushes(search, Plug(c, t)) == Depth(c) + 1
  {
    var b := InOrder(t.right) + After(c);
    PlugInOrderNode(c, t);
    assert Before(c) + InOrder(t.left) == Before(c);
    GapSides(search, Before(c), t.id, b);
    assert forall x :: x in After(c) ==> x in b;
    PushesPlug(search, c, t);
  }

  /** Every tree has a gap such that a search for it pushes as many nodes as the tree is high. */
  lemma DeepGap(t: Bst) returns (i: nat)
    requires t.Node?
    ensures i <= |InOrder(t)|
    ensures forall search :: SeeksGap(search, InOrder(t), i) ==> Pushes(search, t) == Height(t)
  {
    var c, u := DeepestFocus(Top, t);
    i := |Before(c)|;
    PlugInOrder(c, u);
    forall search | SeeksGap(search, InOrder(t), i)
      ensures Pushes(search, t) == Height(t)
    {
      GapPushes(search, c, u);
    }
  }

  function GapSearch(s: seq<Ptr>, i: nat): Ptr -> int
    requires i <= |s|
  {
    (y: Ptr) => if y in s[..i] then 1 else -1
  }

  lemma GapSearchSeeks(s: seq<Ptr>, i: nat)
    requires NoRepeat(s) && i <= |s|
    ensures SeeksGap(GapSearch(s, i), s, i)
  {
    forall j | i <= j < |s|
      ensures s[j] !in s[..i]
    {
    }
  }

  /** In every tree some search, for something not in it, pushes as many nodes as the tree is high. */
  lemma DeepSearch(t: Bst) returns (search: Ptr -> int)
    requires Distinct(t) && t.Node?
    ensures Descending(search, InOrder(t)) && (forall x :: x in Ids(t) ==> search(x) != 0)
    ensures Pushes(search, t) == Height(t)
  {
    var i := DeepGap(t);
    DistinctInOrder(t);
    IdsInOrder(t);
    search := GapSearch(InOrder(t), i);
    GapSearchSeeks(InOrder(t), i);
  }

  /** Enough nodes for the height `h` make every tree higher than `h`. */
  lemma HigherThan(t: Bst, h: nat)
    requires Size(t) >= Pow2(h)
    ensures Height(t) > h
  {
    SizeHeight(t);
    Pow2Order(h, Height(t));
  }

  lemma SmallFindEnds(search: Ptr -> int, t: Bst, h: nat)
    requires Size(t) < Pow2(h)
    ensures FindEnds(search, t, h)
  {
    var s := InOrder(t);
    IdsInOrder(t);
    RebuiltIs(s);
    PushesHeight(search, Rebuilt(s));
    BitLengthFits(|s|, h);
  }

  /** Searches end on every tree with the order `s` exactly if there are fewer than 2^h nodes. */
  lemma FindAlwaysEnds(s: seq<Ptr>, h: nat)
    requires NoRepeat(s)
    ensures (forall t, search :: InOrder(t) == s && Descending(search, s) ==> FindEnds(search, t, h)) <==> |s| < Pow2(h)
  {
    if |s| < Pow2(h) {
      forall t, search | InOrder(t) == s && Descending(search, s)
        ensures FindEnds(search, t, h)
      {
        IdsInOrder(t);
        SmallFindEnds(search, t, h);
      }
    } else {
      var b := Rebuilt(s);
      RebuiltIs(s);
      NoRepeatDistinct(b);
      HigherThan(b, h);
      var search := DeepSearch(b);
      assert InOrder(b) == s && !FindEnds(search, b, h);
    }
  }

  /** bst_iterator_insert ends. */
  ghost predicate InsertEnds(cmp: (Ptr, Ptr) -> int, n: Ptr, t: Bst, h: nat) {
    FindEnds((y: Ptr) => cmp(n, y), t, h)
  }

  function IndexOf(s: seq<Ptr>, y: Ptr): (i: nat)
    ensures i <= |s| && (i < |s| ==> s[i] == y) && (y in s ==> i < |s|)
  {
    if s == [] || s[0] == y then 0 else 1 + IndexOf(s[1..], y)
  }

  /** Where a node stands when `n` comes before the element `i` of `s`. */
  function Place(s: seq<Ptr>, i: nat, n: Ptr, y: Ptr): int {
    if y == n then 2 * i - 1 else 2 * IndexOf(s, y)
  }

  function PlaceCompare(s: seq<Ptr>, i: nat, n: Ptr): (Ptr, Ptr) -> int {
    (x: Ptr, y: Ptr) => Place(s, i, n, x) - Place(s, i, n, y)
  }

  lemma PlaceSorted(s: seq<Ptr>, i: nat, n: Ptr)
    requires NoRepeat(s) && n !in s && i <= |s|
    ensures Comparator(PlaceCompare(s, i, n)) && Sorted(PlaceCompare(s, i, n), s)
    ensures forall j :: 0 <= j < |s| ==> PlaceCompare(s, i, n)(n, s[j]) == 2 * (i - j) - 1
  {
    forall j | 0 <= j < |s|
      ensures IndexOf(s, s[j]) == j && s[j] != n
    {
      assert s[IndexOf(s, s[j])] == s[j];
    }
  }

  lemma {:induction false} Unused(s: seq<Ptr>) returns (n: Ptr)
    ensures n != NULL && forall x :: x in s ==> x < n
  {
    if s == [] {
      n := 1;
    } else {
      n := Unused(s[1..]);
      n := if s[0] < n then n else s[0] + 1;
      assert s == [s[0]] + s[1..];
    }
  }

  /** In every tree the insertion of some new node pushes as many nodes as the tree is high. */
  lemma DeepInsert(t: Bst) returns (cmp: (Ptr, Ptr) -> int, n: Ptr)
    requires Distinct(t) && t.Node?
    ensures Comparator(cmp) && Sorted(cmp, InOrder(t)) && n !in InOrder(t)
    ensures Pushes((y: Ptr) => cmp(n, y), t) == Height(t)
  {
    var s := InOrder(t);
    var i := DeepGap(t);
    DistinctInOrder(t);
    n := Unused(s);
    cmp := PlaceCompare(s, i, n);
    PlaceSorted(s, i, n);
    assert SeeksGap((y: Ptr) => cmp(n, y), s, i);
  }

  /** Insertions end on every tree with the order `s` exactly if there are fewer than 2^h nodes. */
  lemma InsertAlwaysEnds(s: seq<Ptr>, h: nat)
    requires NoRepeat(s)
    ensures (forall t: Bst, n: Ptr, cmp: (Ptr, Ptr) -> int ::
               InOrder(t) == s && n !in s && Comparator(cmp) && Sorted(cmp, s) ==> InsertEnds(cmp, n, t, h))
            <==> |s| < Pow2(h)
  {
    if |s| < Pow2(h) {
      forall t: Bst, n: Ptr, cmp: (Ptr, Ptr) -> int | InOrder(t) == s && n !in s && Comparator(cmp) && Sorted(cmp, s)
        ensures InsertEnds(cmp, n, t, h)
      {
        IdsInOrder(t);
        SmallFindEnds((y: Ptr) => cmp(n, y), t, h);
      }
    } else {
      InsertStuck(s, h);
    }
  }

  lemma InsertStuck(s: seq<Ptr>, h: nat)
    requires NoRepeat(s) && |s| >= Pow2(h)
    ensures exists t: Bst, n: Ptr, cmp: (Ptr, Ptr) -> int ::
      InOrder(t) == s && n !in s && Comparator(cmp) && Sorted(cmp, s) && !InsertEnds(cmp, n, t, h)
  {
    var b := Rebuilt(s);
    RebuiltIs(s);
    NoRepeatDistinct(b);
    HigherThan(b, h);
    var cmp, n := DeepInsert(b);
    assert InOrder(b) == s && n !in s && !InsertEnds(cmp, n, b, h);
  }

  // ---- walking with a stack ----

  ghost function RightSpine(t: Bst): nat {
    if t.Leaf? then 0 else 1 + RightSpine(t.right)
  }

  /** How far the stack is filled on the way from `x` to its successor below it; 0 if it is not below. */
  ghost function DownRight(t: Bst, x: Ptr): nat
    requires x in Ids(t)
  {
    if x == t.id then Spine(t.right)
    else
      var n := if x in Ids(t.left) then DownRight(t.left, x) else DownRight(t.right, x);
      if n == 0 then 0 else n + 1
  }

  /** The same for the predecessor. */
  ghost function DownLeft(t: Bst, x: Ptr): nat
    requires x in Ids(t)
  {
    if x == t.id then RightSpine(t.left)
    else
      var n := if x in Ids(t.left) then DownLeft(t.left, x) else DownLeft(t.right, x);
      if n == 0 then 0 else n + 1
  }

  /** How far bst_iterator_next fills the stack; with no node selected it starts at the first one. */
  ghost function NextPushes(t: Bst, x: Ptr): nat
    requires x == NULL || x in Ids(t)
  {
    if x == NULL then Spine(t) - (if t.Leaf? then 0 else 1) else DownRight(t, x)
  }

  ghost function PrevPushes(t: Bst, x: Ptr): nat
    requires x == NULL || x in Ids(t)
  {
    if x == NULL then RightSpine(t) - (if t.Leaf? then 0 else 1) else DownLeft(t, x)
  }

  lemma {:induction false} DownPlug(c: BstCtx, t: Bst, x: Ptr)
    requires Fits(c, t) && x in Ids(t)
    ensures x in Ids(Plug(c, t))
    ensures DownRight(Plug(c, t), x) == if DownRight(t, x) == 0 then 0 else Depth(c) + DownRight(t, x)
    ensures DownLeft(Plug(c, t), x) == if DownLeft(t, x) == 0 then 0 else Depth(c) + DownLeft(t, x)
    decreases c
  {
    if !c.Top? {
      DownPlug(c.up, Fill(c, t), x);
    }
  }

  /** The node is not too deep for the stack, as bst_iterator_refresh asserts. */
  ghost predicate Reaches(t: Bst, x: Ptr, h: nat) {
    x == NULL || (x in Ids(t) && |Path(t, x)| <= h)
  }

  /** The step ends: the stack suffices now, or the node can be reached again after rebalancing and it does then. */
  ghost predicate NextEnds(t: Bst, x: Ptr, h: nat)
    requires x == NULL || x in Ids(t)
  {
    NextPushes(t, x) <= h || (var b := Rebuilt(InOrder(t)); Reaches(b, x, h) && NextPushes(b, x) <= h)
  }

  ghost predicate PrevEnds(t: Bst, x: Ptr, h: nat)
    requires x == NULL || x in Ids(t)
  {
    PrevPushes(t, x) <= h || (var b := Rebuilt(InOrder(t)); Reaches(b, x, h) && PrevPushes(b, x) <= h)
  }

  /** The step ends within `n` calls, each of which but the last rebalances, refreshes and starts the next. */
  ghost predicate NextEndsWithin(t: Bst, x: Ptr, h: nat, n: nat)
    requires x == NULL || x in Ids(t)
    decreases n
  {
    n > 0 && (NextPushes(t, x) <= h ||
              (var b := Rebuilt(InOrder(t)); Reaches(b, x, h) && NextEndsWithin(b, x, h, n - 1)))
  }

  ghost predicate PrevEndsWithin(t: Bst, x: Ptr, h: nat, n: nat)
    requires x == NULL || x in Ids(t)
    decreases n
  {
    n > 0 && (PrevPushes(t, x) <= h ||
              (var b := Rebuilt(InOrder(t)); Reaches(b, x, h) && PrevEndsWithin(b, x, h, n - 1)))
  }

  /** Two calls are enough if any number is. */
  lemma NextEndsMeans(t: Bst, x: Ptr, h: nat, n: nat)
    requires x == NULL || x in Ids(t)
    ensures NextEnds(t, x, h) ==> NextEndsWithin(t, x, h, 2)
    ensures NextEndsWithin(t, x, h, n) ==> NextEnds(t, x, h)
  {
    var b := Rebuilt(InOrder(t));
    RebuiltIs(InOrder(t));
    if NextEnds(t, x, h) && NextPushes(t, x) > h {
      assert Reaches(b, x, h) && NextEndsWithin(b, x, h, 1);
    }
    if NextEndsWithin(t, x, h, n) && NextPushes(t, x) > h {
      assert Reaches(b, x, h) && NextEndsWithin(b, x, h, n - 1);
      NextStuck(b, x, h, n - 1);
    }
  }

  lemma {:induction false} NextStuck(b: Bst, x: Ptr, h: nat, n: nat)
    requires Rebuilt(InOrder(b)) == b && (x == NULL || x in Ids(b))
    ensures NextEndsWithin(b, x, h, n) ==> NextPushes(b, x) <= h
  {
    if n > 0 {
      NextStuck(b, x, h, n - 1);
    }
  }

  /** Two calls are enough if any number is. */
  lemma PrevEndsMeans(t: Bst, x: Ptr, h: nat, n: nat)
    requires x == NULL || x in Ids(t)
    ensures PrevEnds(t, x, h) ==> PrevEndsWithin(t, x, h, 2)
    ensures PrevEndsWithin(t, x, h, n) ==> PrevEnds(t, x, h)
  {
    var b := Rebuilt(InOrder(t));
    RebuiltIs(InOrder(t));
    if PrevEnds(t, x, h) && PrevPushes(t, x) > h {
      assert Reaches(b, x, h) && PrevEndsWithin(b, x, h, 1);
    }
    if PrevEndsWithin(t, x, h, n) && PrevPushes(t, x) > h {
      assert Reaches(b, x, h) && PrevEndsWithin(b, x, h, n - 1);
      PrevStuck(b, x, h, n - 1);
    }
  }

  lemma {:induction false} PrevStuck(b: Bst, x: Ptr, h: nat, n: nat)
    requires Rebuilt(InOrder(b)) == b && (x == NULL || x in Ids(b))
    ensures PrevEndsWithin(b, x, h, n) ==> PrevPushes(b, x) <= h
  {
    if n > 0 {
      PrevStuck(b, x, h, n - 1);
    }
  }

  lemma {:induction false} SpineHeight(t: Bst)
    ensures Spine(t) <= Height(t) && RightSpine(t) <= Height(t)
  {
    if t.Node? {
      SpineHeight(t.left);
      SpineHeight(t.right);
    }
  }

  lemma {:induction false} DownHeight(t: Bst, x: Ptr)
    requires x in Ids(t)
    ensures DownRight(t, x) < Height(t) && DownLeft(t, x) < Height(t)
  {
    if x == t.id {
      SpineHeight(t.left);
      SpineHeight(t.right);
    } else {
      DownHeight(if x in Ids(t.left) then t.left else t.right, x);
    }
  }

  lemma PushesBelow(t: Bst, x: Ptr)
    requires x == NULL || x in Ids(t)
    ensures if t.Leaf? then NextPushes(t, x) == PrevPushes(t, x) == 0
            else NextPushes(t, x) < Height(t) && PrevPushes(t, x) < Height(t)
  {
    if x == NULL {
      SpineHeight(t);
    } else {
      DownHeight(t, x);
    }
  }

  lemma SmallStepEnds(t: Bst, x: Ptr, h: nat)
    requires (x == NULL || x in Ids(t)) && Size(t) < Pow2(h + 1)
    ensures NextEnds(t, x, h) && PrevEnds(t, x, h)
  {
    var s := InOrder(t);
    var b := Rebuilt(s);
    IdsInOrder(t);
    RebuiltIs(s);
    IdsInOrder(b);
    BitLengthFits(|s|, h + 1);
    PushesBelow(b, x);
    if x != NULL {
      PathHeight(b, x);
    }
  }

  /** In a tree higher than h + 1 some step to the next node, from a node within reach, fills more than
      h entries. */
  lemma {:induction false} DeepNext(t: Bst, h: nat) returns (x: Ptr)
    requires Distinct(t) && NULL !in Ids(t) && Height(t) > h + 1
    ensures x == NULL ==> Spine(t) > h + 1
    ensures x != NULL ==> x in Ids(t) && DownRight(t, x) > h && |Path(t, x)| <= h
    decreases t
  {
    if Height(t.right) > h {
      if h == 0 {
        return t.id;
      }
      x := DeepNext(t.right, h - 1);
      if x == NULL {
        x := t.id;
      }
    } else if h == 0 {
      assert t.left.Node?;
      x := NULL;
    } else {
      x := DeepNext(t.left, h - 1);
    }
  }

  /** Steps to the next node end on every tree with the order `s`, from every node within reach, exactly
      if there are fewer than 2^(h+1) nodes. */
  lemma NextAlwaysEnds(s: seq<Ptr>, h: nat)
    requires NoRepeat(s) && NULL !in s
    ensures (forall t, x :: InOrder(t) == s && Reaches(t, x, h) ==> NextEnds(t, x, h)) <==> |s| < Pow2(h + 1)
  {
    if |s| < Pow2(h + 1) {
      forall t, x | InOrder(t) == s && Reaches(t, x, h)
        ensures NextEnds(t, x, h)
      {
        IdsInOrder(t);
        SmallStepEnds(t, x, h);
      }
    } else {
      var b := Rebuilt(s);
      RebuiltIs(s);
      IdsInOrder(b);
      NoRepeatDistinct(b);
      HigherThan(b, h + 1);
      var x := DeepNext(b, h);
      assert InOrder(b) == s && Reaches(b, x, h) && !NextEnds(b, x, h);
    }
  }

  /** In a tree higher than h + 1 some step to the previous node, from a node within reach, fills more than
      h entries. */
  lemma {:induction false} DeepPrev(t: Bst, h: nat) returns (x: Ptr)
    requires Distinct(t) && NULL !in Ids(t) && Height(t) > h + 1
    ensures x == NULL ==> RightSpine(t) > h + 1
    ensures x != NULL ==> x in Ids(t) && DownLeft(t, x) > h && |Path(t, x)| <= h
    decreases t
  {
    if Height(t.left) > h {
      if h == 0 {
        return t.id;
      }
      x := DeepPrev(t.left, h - 1);
      if x == NULL {
        x := t.id;
      }
    } else if h == 0 {
      assert t.right.Node?;
      x := NULL;
    } else {
      x := DeepPrev(t.right, h - 1);
    }
  }

  /** Steps to the previous node end on every tree with the order `s`, from every node within reach, exactly
      if there are fewer than 2^(h+1) nodes. */
  lemma PrevAlwaysEnds(s: seq<Ptr>, h: nat)
    requires NoRepeat(s) && NULL !in s
    ensures (forall t, x :: InOrder(t) == s && Reaches(t, x, h) ==> PrevEnds(t, x, h)) <==> |s| < Pow2(h + 1)
  {
    if |s| < Pow2(h + 1) {
      forall t, x | InOrder(t) == s && Reaches(t, x, h)
        ensures PrevEnds(t, x, h)
      {
        IdsInOrder(t);
        SmallStepEnds(t, x, h);
      }
    } else {
      var b := Rebuilt(s);
      RebuiltIs(s);
      IdsInOrder(b);
      NoRepeatDistinct(b);
      HigherThan(b, h + 1);
      var x := DeepPrev(b, h);
      assert InOrder(b) == s && Reaches(b, x, h) && !PrevEnds(b, x, h);
    }
  }

  // ---- one table ----

  lemma TwoNodes()
    ensures Rebuilt([1, 2]) == Node(Leaf, 1, (), Node(Leaf, 2, (), Leaf))
    ensures InOrder(Rebuilt([1, 2])) == [1, 2]
  {
    var v := Node(Node(Leaf, 1, (), Leaf), 2, (), Leaf);
    assert InOrder(v) == [1, 2];
    VineIs(v);
    assert TopPower(3) == 2 && Leaves(2) == 1 && Spine(v) == 2;
    assert Compress(v, 1) == Node(Leaf, 1, (), Node(Leaf, 2, (), Leaf));
    RebuiltIs([1, 2]);
  }

  /** Two nodes and a stack of one entry: a search for something after both goes round for ever. */
  lemma StuckSearch(n: nat)
    ensures Descending((y: Ptr) => 1, [1, 2])
    ensures !FindEndsWithin((y: Ptr) => 1, Rebuilt([1, 2]), 1, n)
  {
    TwoNodes();
    var search, t := (y: Ptr) => 1, Rebuilt([1, 2]);
    assert Pushes(search, t) == 2;
    StuckStays(search, t, 1, n);
  }

  /** Two nodes and no stack: neither the step from the first node nor the one to the last node ends. */
  lemma StuckSteps(n: nat)
    ensures Reaches(Rebuilt([1, 2]), 1, 0) && !NextEndsWithin(Rebuilt([1, 2]), 1, 0, n)
    ensures !PrevEndsWithin(Rebuilt([1, 2]), NULL, 0, n)
  {
    TwoNodes();
    var t := Rebuilt([1, 2]);
    assert Spine(t.right) == 1 && RightSpine(t) == 2;
    NextStuck(t, 1, 0, n);
    PrevStuck(t, NULL, 0, n);
  }

  /** Without a rebalance a tree may be lucky: here 2^2 nodes and a stack of two entries, and every search ends. */
  lemma LuckyTree(search: Ptr -> int)
    requires Descending(search, [1, 2, 3, 4])
    ensures InOrder(VineOf([1, 2, 3, 4])) == [1, 2, 3, 4]
    ensures FindEnds(search, VineOf([1, 2, 3, 4]), 2)
  {
    var s := [1, 2, 3, 4];
    var v := Node(Node(Node(Node(Leaf, 1, (), Leaf), 2, (), Leaf), 3, (), Leaf), 4, (), Leaf);
    assert InOrder(v.left.left) == [1, 2] && InOrder(v.left) == [1, 2, 3] && InOrder(v) == s;
    VineIs(v);
    LuckyBalance(v);
    assert s[0] == 1 && s[1] == 2 && s[2] == 3 && s[3] == 4;
    if search(3) < 0 {
      assert search(4) < 0;
    }
    if search(2) < 0 {
      assert search(3) < 0;
    }
    if search(1) < 0 {
      assert search(2) < 0;
    }
  }

  lemma LuckyBalance(v: Bst)
    requires v == Node(Node(Node(Node(Leaf, 1, (), Leaf), 2, (), Leaf), 3, (), Leaf), 4, (), Leaf)
    ensures Slanted(v, 4) == Node(Node(Leaf, 1, (), Leaf), 2, (), Node(Leaf, 3, (), Node(Leaf, 4, (), Leaf)))
  {
    assert TopPower(5) == 4 by {
      assert TopPower(2) == 2;
    }
    var w := Node(Node(Node(Leaf, 1, (), Leaf), 2, (), Leaf), 3, (), Node(Leaf, 4, (), Leaf));
    assert Spine(v.left.left) == 2 && Spine(v) == 4 && Compress(v, 1) == w;
    assert Spine(w.left) == 2 && Spine(w) == 3;
    assert Compress(w, 1) == Node(Node(Leaf, 1, (), Leaf), 2, (), Node(Leaf, 3, (), Node(Leaf, 4, (), Leaf)));
    assert Halved(w, 3) == Compress(w, 1);
  }
}
