/** Ordered sequences of nodes: comparators, searchers, neighbours, insertion and removal. */
module Orders {
  import opened Trees
  import opened Sequences

  /** The comparator contract of include/rb_tree.h, lines 13 to 18. */
  ghost predicate Comparator(cmp: (Ptr, Ptr) -> int) {
    && (forall x, y :: cmp(x, y) < 0 <==> cmp(y, x) > 0)
    && (forall x, y, z :: cmp(x, y) <= 0 && cmp(y, z) <= 0 ==> cmp(x, z) <= 0)
  }

  ghost predicate Sorted(cmp: (Ptr, Ptr) -> int, s: seq<Ptr>) {
    forall i, j :: 0 <= i < j < |s| ==> cmp(s[i], s[j]) < 0
  }

  /** A searcher bound to an item: positive on the nodes before the item, negative after it. */
  ghost predicate Descending(search: Ptr -> int, s: seq<Ptr>) {
    forall i, j :: 0 <= i < j < |s| ==>
      (search(s[i]) <= 0 ==> search(s[j]) <= 0) && (search(s[i]) < 0 ==> search(s[j]) < 0)
  }

  /** `s'` is `s` with `x` put in at `i`. */
  ghost predicate IsInsertion(s: seq<Ptr>, i: int, x: Ptr, s': seq<Ptr>) {
    0 <= i <= |s| && s' == s[..i] + [x] + s[i..]
  }

  lemma ComparatorDescends(cmp: (Ptr, Ptr) -> int, x: Ptr, s: seq<Ptr>)
    requires Comparator(cmp) && Sorted(cmp, s)
    ensures Descending((y: Ptr) => cmp(x, y), s)
  {
    forall i, j | 0 <= i < j < |s|
      ensures cmp(x, s[i]) <= 0 ==> cmp(x, s[j]) < 0
    {
      assert cmp(x, s[j]) < 0 <==> cmp(s[j], x) > 0;
    }
  }

  lemma SteerSeq(search: Ptr -> int, a: seq<Ptr>, x: Ptr, b: seq<Ptr>)
    requires Descending(search, a + [x] + b)
    ensures search(x) < 0 ==> forall y :: y in b ==> search(y) < 0
    ensures search(x) > 0 ==> forall y :: y in a ==> search(y) > 0
  {
    var s := a + [x] + b;
    assert s[|a|] == x;
    assert forall i :: 0 <= i < |b| ==> s[|a| + 1 + i] == b[i];
    assert forall i :: 0 <= i < |a| ==> s[i] == a[i];
  }

  /** Where the search path leaves the tree, a new node fits the order. */
  lemma InsertedSorted(cmp: (Ptr, Ptr) -> int, a: seq<Ptr>, x: Ptr, b: seq<Ptr>)
    requires Comparator(cmp) && Sorted(cmp, a + b)
    requires (forall y :: y in a ==> cmp(x, y) > 0) && (forall y :: y in b ==> cmp(x, y) < 0)
    ensures Sorted(cmp, a + [x] + b)
    ensures IsInsertion(a + b, |a|, x, a + [x] + b)
  {
    var s, n := a + [x] + b, |a|;
    forall i, j | 0 <= i < j < |s|
      ensures cmp(s[i], s[j]) < 0
    {
      if j < n {
        assert s[i] == (a + b)[i] && s[j] == (a + b)[j];
      } else if i > n {
        assert s[i] == (a + b)[i - 1] && s[j] == (a + b)[j - 1];
      } else if i == n {
        assert s[i] == x && s[j] == b[j - n - 1];
      } else if j == n {
        assert s[j] == x && s[i] == a[i];
      } else {
        assert s[i] == (a + b)[i] && s[j] == (a + b)[j - 1];
      }
    }
    assert (a + b)[..n] == a && (a + b)[n..] == b;
  }

  function Head(s: seq<Ptr>): Ptr {
    if s == [] then NULL else s[0]
  }

  function LastOf(s: seq<Ptr>): Ptr {
    if s == [] then NULL else s[|s| - 1]
  }

  /** `x` occurs in `s` and `y` comes right after it (NULL at the end). */
  ghost predicate Follows(s: seq<Ptr>, x: Ptr, y: Ptr) {
    exists i :: 0 <= i < |s| && s[i] == x && y == Head(s[i + 1..])
  }

  ghost predicate Precedes(s: seq<Ptr>, x: Ptr, y: Ptr) {
    exists i :: 0 <= i < |s| && s[i] == x && y == LastOf(s[..i])
  }

  lemma FollowsSplit(a: seq<Ptr>, x: Ptr, b: seq<Ptr>)
    ensures Follows(a + [x] + b, x, Head(b)) && Precedes(a + [x] + b, x, LastOf(a))
  {
    var s := a + [x] + b;
    assert s[|a|] == x && s[|a| + 1..] == b && s[..|a|] == a;
  }

  /** `s'` is `s` without the entry at `i`, which is `x`. */
  ghost predicate IsRemoval(s: seq<Ptr>, i: int, x: Ptr, s': seq<Ptr>) {
    0 <= i < |s| && s[i] == x && s' == s[..i] + s[i + 1..]
  }

  lemma SeqRemoval(a: seq<Ptr>, l: seq<Ptr>, x: Ptr, r: seq<Ptr>, b: seq<Ptr>)
    ensures IsRemoval(a + (l + [x] + r) + b, |a| + |l|, x, a + (l + r) + b)
  {
    var s, i := a + (l + [x] + r) + b, |a| + |l|;
    assert s[..i] == a + l;
    assert s[i + 1..] == r + b;
  }

  lemma FollowsLast(a: seq<Ptr>, b: seq<Ptr>, r: Ptr)
    requires a != [] && NoRepeat(a + b) && Follows(a + b, a[|a| - 1], r)
    ensures r == Head(b)
  {
    var s, x := a + b, a[|a| - 1];
    var i :| 0 <= i < |s| && s[i] == x && r == Head(s[i + 1..]);
    assert s[|a| - 1] == x && s[|a|..] == b;
  }

  lemma MoveHead(a: seq<Ptr>, b: seq<Ptr>)
    requires b != []
    ensures a + b == (a + [b[0]]) + b[1..]
  {
  }

  lemma DueTail(due: Ptr -> bool, s: seq<Ptr>)
    requires DuePrefix(due, s) && s != []
    ensures DuePrefix(due, s[1..])
  {
    var t := s[1..];
    assert forall i :: 0 <= i < |t| ==> t[i] == s[i + 1];
  }

  lemma NoneDue(due: Ptr -> bool, s: seq<Ptr>)
    requires DuePrefix(due, s) && s != [] && !due(s[0])
    ensures forall x :: x in s ==> !due(x)
  {
  }

  /** The due nodes come first in the order. */
  ghost predicate DuePrefix(due: Ptr -> bool, s: seq<Ptr>) {
    forall i, j :: 0 <= i < j < |s| && due(s[j]) ==> due(s[i])
  }

  lemma FirstRemoved(s: seq<Ptr>, i: int, s': seq<Ptr>)
    requires s != [] && IsRemoval(s, i, s[0], s')
    requires NoRepeat(s)
    ensures s' == s[1..]
  {
  }

  /** The sequences kept by the `expire` loop, whichever way the head of `rest` goes. */
  lemma DueWalk(due: Ptr -> bool, expired: seq<Ptr>, kept: seq<Ptr>, rest: seq<Ptr>)
    requires rest != [] && DuePrefix(due, kept + rest)
    requires kept == [] || forall x :: x in kept + rest ==> !due(x)
    ensures due(rest[0]) ==> kept == [] && kept + rest == rest && [] + rest[1..] == rest[1..]
    ensures due(rest[0]) ==> (expired + [rest[0]]) + rest[1..] == expired + rest
    ensures !due(rest[0]) ==> kept + rest == (kept + [rest[0]]) + rest[1..]
    ensures !due(rest[0]) ==> forall x :: x in kept + rest ==> !due(x)
  {
    assert rest[0] in kept + rest;
    MoveHead(kept, rest);
    MoveHead(expired, rest);
    if kept == [] && !due(rest[0]) {
      assert kept + rest == rest;
      NoneDue(due, rest);
    }
  }

  /** One comparison decides for everything on one side of the focus. */
  lemma Steer<D>(search: Ptr -> int, c: Ctx<D>, t: Tree<D>)
    requires t.Node? && Descending(search, InOrder(Plug(c, t)))
    ensures search(t.id) < 0 ==> forall y :: y in After(InLeft(c, t.id, t.data, t.right)) ==> search(y) < 0
    ensures search(t.id) > 0 ==> forall y :: y in Before(InRight(t.left, t.id, t.data, c)) ==> search(y) > 0
  {
    PlugInOrderNode(c, t);
    SteerSeq(search, Before(c) + InOrder(t.left), t.id, InOrder(t.right) + After(c));
  }

  lemma FollowsFocus<D>(c: Ctx<D>, t: Tree<D>)
    requires t.Node?
    ensures Follows(InOrder(Plug(c, t)), t.id, Head(InOrder(t.right) + After(c)))
    ensures Precedes(InOrder(Plug(c, t)), t.id, LastOf(Before(c) + InOrder(t.left)))
  {
    PlugInOrderNode(c, t);
    FollowsSplit(Before(c) + InOrder(t.left), t.id, InOrder(t.right) + After(c));
  }

  /** What the search loop of rb_insert has established where it falls off the tree. */
  lemma InsertionPoint<D>(cmp: (Ptr, Ptr) -> int, c: Ctx<D>, x: Ptr)
    requires Comparator(cmp) && Sorted(cmp, InOrder(Plug(c, Leaf)))
    requires (forall y :: y in Before(c) ==> cmp(x, y) > 0) && (forall y :: y in After(c) ==> cmp(x, y) < 0)
    ensures Sorted(cmp, Before(c) + [x] + After(c))
    ensures IsInsertion(InOrder(Plug(c, Leaf)), |Before(c)|, x, Before(c) + [x] + After(c))
    ensures x !in Ids(Plug(c, Leaf)) && forall y :: y in Ids(Plug(c, Leaf)) ==> cmp(x, y) != 0
  {
    PlugInOrder(c, Leaf);
    assert InOrder(Plug(c, Leaf)) == Before(c) + After(c);
    IdsInOrder(Plug(c, Leaf));
    InsertedSorted(cmp, Before(c), x, After(c));
    assert cmp(x, x) == 0;
  }

  /** The comparator tells on which side of the focus another node lies. */
  lemma SideOf<D>(cmp: (Ptr, Ptr) -> int, c: Ctx<D>, t: Tree<D>, x: Ptr)
    requires Comparator(cmp) && Sorted(cmp, InOrder(Plug(c, t))) && t.Node? && x in Ids(t) && x != t.id
    ensures if cmp(x, t.id) > 0 then x in Ids(t.right) else x in Ids(t.left)
  {
    PlugInOrderNode(c, t);
    IdsInOrder(t.left);
    IdsInOrder(t.right);
    SideOfSeq(cmp, Before(c), InOrder(t.left), t.id, InOrder(t.right), After(c));
  }

  lemma SideOfSeq(cmp: (Ptr, Ptr) -> int, a: seq<Ptr>, l: seq<Ptr>, x: Ptr, r: seq<Ptr>, b: seq<Ptr>)
    requires Sorted(cmp, (a + l) + [x] + (r + b)) && Comparator(cmp)
    ensures forall y :: y in l ==> cmp(y, x) < 0
    ensures forall y :: y in r ==> cmp(y, x) > 0
  {
    var s, n := (a + l) + [x] + (r + b), |a| + |l|;
    assert s[n] == x;
    assert forall i :: 0 <= i < |l| ==> s[|a| + i] == l[i];
    assert forall i :: 0 <= i < |r| ==> s[n + 1 + i] == r[i];
  }

  lemma RemovalSorted(cmp: (Ptr, Ptr) -> int, s: seq<Ptr>, i: int, x: Ptr, s': seq<Ptr>)
    requires Sorted(cmp, s) && IsRemoval(s, i, x, s')
    ensures Sorted(cmp, s')
  {
    assert forall j :: 0 <= j < |s'| ==> s'[j] == s[if j < i then j else j + 1];
  }
}
