/** The recycle lists of memory-pool/mem_pool.c, threaded through the memory of the free chunks. */
module Recycling {
  import opened Trees

  /** What is stored at chunk addresses, read as `next` links. */
  type Words = map<Ptr, Ptr>

  ghost predicate ListAt(words: Words, head: Ptr, s: seq<Ptr>)
    decreases |s|
  {
    if s == [] then head == NULL
    else head == s[0] && head != NULL && head in words && ListAt(words, words[head], s[1..])
  }

  lemma {:induction false} ListFrame(words: Words, words': Words, head: Ptr, s: seq<Ptr>)
    requires ListAt(words, head, s) && forall x :: x in s && x in words ==> x in words' && words'[x] == words[x]
    ensures ListAt(words', head, s)
    decreases |s|
  {
    if s != [] {
      assert forall x :: x in s[1..] ==> x in s;
      ListFrame(words, words', words[head], s[1..]);
    }
  }

  class RecycleLists {
    /** The `recycle` field of each stock, and the words where free chunks keep their links. */
    var heads: Words
    var words: Words
    ghost var lists: map<Ptr, seq<Ptr>>

    ghost predicate Valid()
      reads this
    {
      heads.Keys == lists.Keys && forall a :: a in lists ==> ListAt(words, heads[a], lists[a])
    }

    constructor ()
      ensures Valid() && lists == map[]
    {
      heads, words, lists := map[], map[], map[];
    }

    /** A new stock has nothing to recycle. */
    method Open(a: Ptr)
      requires Valid()
      modifies this
      ensures Valid() && lists == old(lists)[a := []] && words == old(words)
    {
      heads, lists := heads[a := NULL], lists[a := []];
    }

    method Close(a: Ptr)
      requires Valid()
      modifies this
      ensures Valid() && lists == old(lists) - {a} && words == old(words)
    {
      heads, lists := heads - {a}, lists - {a};
    }

    /** The first chunk leaves the list: its link is the rest. */
    method Take(a: Ptr) returns (p: Ptr)
      requires Valid() && a in lists
      modifies this
      ensures Valid() && words == old(words)
      ensures p == NULL <==> old(lists)[a] == []
      ensures p == NULL ==> lists == old(lists)
      ensures p != NULL ==> p == old(lists)[a][0] && lists == old(lists)[a := old(lists)[a][1..]]
    {
      assert ListAt(words, heads[a], lists[a]);
      p := heads[a];
      if p != NULL {
        heads, lists := heads[a := words[p]], lists[a := lists[a][1..]];
      }
    }

    /** A chunk that is on no list goes in front. */
    method Put(a: Ptr, p: Ptr)
      requires Valid() && a in lists && p != NULL && forall b :: b in lists ==> p !in lists[b]
      modifies this
      ensures Valid() && lists == old(lists)[a := [p] + old(lists)[a]]
    {
      Overwrite(words[p := heads[a]]);
      assert ([p] + lists[a])[1..] == lists[a];
      heads, lists := heads[a := p], lists[a := [p] + lists[a]];
    }

    /** Memory changes, but not in the links of chunks that are on a list. */
    method Overwrite(after: Words)
      requires Valid()
      requires forall b, x :: b in lists && x in lists[b] && x in words ==> x in after && after[x] == words[x]
      modifies this`words
      ensures Valid() && words == after
    {
      forall b | b in lists
        ensures ListAt(after, heads[b], lists[b])
      {
        ListFrame(words, after, heads[b], lists[b]);
      }
      words := after;
    }
  }
}
