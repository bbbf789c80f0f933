/**
 The slab allocator of memory-pool/mem_pool.c.  A stock is one allocation holding a header and
 `chunkCount` chunks; addresses are numbers.  The recycle list threaded through free chunks and the
 two lists of a slot are sequences, head first; the tree of stocks is the red-black tree itself,
 whose nodes are the stocks (the node is the first field of struct mem_stock).
 */
module MemPool {
  import opened Trees
  import opened Sequences
  import opened Orders
  import opened Recycling
  import Rb = RbTrees
  import RbShape

  /** sizeof(struct mem_stock) and sizeof(struct mem_chunk) on a 64-bit machine. */
  const HEADER: nat := 72
  const LINK: nat := 8
  const ALIGN: nat := 8

  datatype Stock = Stock(slot: nat, recycle: seq<Ptr>, recycnt: nat, index: nat)
  datatype Slot = Slot(chunkSize: nat, chunkCount: nat, full: seq<Ptr>, free: seq<Ptr>)

  type Slots = seq<Slot>
  type Stocks = map<Ptr, Stock>

  function StockSize(z: Slot): nat {
    z.chunkCount * z.chunkSize + HEADER
  }

  function ChunkAt(a: Ptr, size: nat, j: nat): Ptr {
    a + HEADER + j * size
  }

  predicate Exhausted(z: Slot, k: Stock) {
    k.index == z.chunkCount && k.recycle == []
  }

  /** No chunk of the stock is handed out. */
  predicate Unused(k: Stock) {
    k.recycnt == k.index
  }

  // ---- what holds between calls ----

  ghost predicate IsChunk(z: Slot, a: Ptr, k: Stock, p: Ptr) {
    exists j :: 0 <= j < k.index && p == ChunkAt(a, z.chunkSize, j)
  }

  ghost predicate StockOk(z: Slot, a: Ptr, k: Stock) {
    && k.index <= z.chunkCount && k.recycnt == |k.recycle| && NoRepeat(k.recycle)
    && forall p :: p in k.recycle ==> IsChunk(z, a, k, p)
  }

  ghost predicate StocksOk(slots: Slots, stocks: Stocks) {
    && (forall i :: 0 <= i < |slots| ==> slots[i].chunkSize >= LINK && slots[i].chunkCount > 0)
    && (forall a :: a in stocks ==> a > 0 && stocks[a].slot < |slots| && StockOk(slots[stocks[a].slot], a, stocks[a]))
  }

  /** Stocks do not overlap. */
  ghost predicate Apart(slots: Slots, stocks: Stocks)
    requires forall a :: a in stocks ==> stocks[a].slot < |slots|
  {
    forall a, b :: a in stocks && b in stocks && a < b ==> a + StockSize(slots[stocks[a].slot]) <= b
  }

  /** A stock is on the full list of its slot exactly when it is exhausted, else on the free list. */
  ghost predicate ListsOk(slots: Slots, stocks: Stocks)
    requires forall a :: a in stocks ==> stocks[a].slot < |slots|
  {
    && (forall i :: 0 <= i < |slots| ==> NoRepeat(slots[i].full) && NoRepeat(slots[i].free))
    && (forall i, a :: 0 <= i < |slots| ==>
          (a in slots[i].full <==> a in stocks && stocks[a].slot == i && Exhausted(slots[i], stocks[a])))
    && (forall i, a :: 0 <= i < |slots| ==>
          (a in slots[i].free <==> a in stocks && stocks[a].slot == i && !Exhausted(slots[i], stocks[a])))
  }

  /** Each slot keeps at most one wholly unused stock. */
  ghost predicate OneSpare(stocks: Stocks) {
    forall a, b :: a in stocks && b in stocks && a != b && Unused(stocks[a]) && Unused(stocks[b]) ==>
      stocks[a].slot != stocks[b].slot
  }

  ghost predicate PoolOk(slots: Slots, stocks: Stocks) {
    StocksOk(slots, stocks) && Apart(slots, stocks) && ListsOk(slots, stocks) && OneSpare(stocks)
  }

  /** `p` is a chunk handed out from stock `a` and not given back. */
  ghost predicate LiveIn(slots: Slots, stocks: Stocks, a: Ptr, p: Ptr) {
    && a in stocks && stocks[a].slot < |slots|
    && IsChunk(slots[stocks[a].slot], a, stocks[a], p) && p !in stocks[a].recycle
  }

  ghost predicate Live(slots: Slots, stocks: Stocks, p: Ptr) {
    exists a :: LiveIn(slots, stocks, a, p)
  }

  /** `p` is a live chunk of a stock of slot `i`. */
  ghost predicate From(slots: Slots, stocks: Stocks, p: Ptr, i: nat) {
    exists a :: LiveIn(slots, stocks, a, p) && stocks[a].slot == i
  }

  // ---- which chunk comes next ----

  /** The one given back last, or else the first that was never handed out. */
  ghost function NextChunk(z: Slot, a: Ptr, k: Stock): Ptr {
    if k.recycle != [] then k.recycle[0] else ChunkAt(a, z.chunkSize, k.index)
  }

  ghost function Taken(k: Stock): (k': Stock)
    requires k.recycle != [] ==> k.recycnt > 0
  {
    if k.recycle != [] then k.(recycle := k.recycle[1..], recycnt := k.recycnt - 1) else k.(index := k.index + 1)
  }

  /** `p` comes from the stock `a`, which is `k` before, of slot `i`, which is `z` before. */
  ghost predicate TookFrom(slots: Slots, stocks: Stocks, i: nat, z: Slot, a: Ptr, k: Stock, p: Ptr,
                           slots': Slots, stocks': Stocks)
    requires i < |slots|
  {
    && (k.recycle != [] ==> k.recycnt > 0) && p == NextChunk(z, a, k) && stocks' == stocks[a := Taken(k)]
    && slots' == slots[i := if Exhausted(z, Taken(k)) then z.(free := Without(z.free, a), full := [a] + z.full) else z]
  }

  /** No other chunk of the stock is handed out. */
  ghost predicate LastLive(slots: Slots, stocks: Stocks, a: Ptr, p: Ptr) {
    forall q :: LiveIn(slots, stocks, a, q) ==> q == p
  }

  /** Another stock of the slot has chunks left. */
  ghost predicate RoomElsewhere(slots: Slots, stocks: Stocks, a: Ptr)
    requires a in stocks && stocks[a].slot < |slots|
  {
    exists b :: b in stocks && b != a && stocks[b].slot == stocks[a].slot
      && !Exhausted(slots[stocks[a].slot], stocks[b])
  }

  /** The first chunk of a new stock. */
  lemma TookNew(slots: Slots, stocks: Stocks, i: nat, a: Ptr, p: Ptr, slots': Slots, stocks': Stocks)
    requires i < |slots|
    requires var z, k := slots[i].(free := [a]), Stock(i, [], 0, 0);
      TookFrom(slots[i := z], stocks[a := k], i, z, a, k, p, slots', stocks')
    ensures TookFrom(slots, stocks, i, slots[i].(free := [a]), a, Stock(i, [], 0, 0), p, slots', stocks')
  {
  }

  // ---- chunks do not overlap ----

  lemma ChunkInside(z: Slot, a: Ptr, j: nat, n: nat)
    requires j < n
    ensures ChunkAt(a, z.chunkSize, j) + z.chunkSize <= ChunkAt(a, z.chunkSize, n)
  {
    assert (j + 1) * z.chunkSize <= n * z.chunkSize by { MulOrder(j + 1, n, z.chunkSize); }
    assert (j + 1) * z.chunkSize == j * z.chunkSize + z.chunkSize;
  }

  lemma MulOrder(a: nat, b: nat, c: nat)
    requires a <= b
    ensures a * c <= b * c
  {
    assert b * c == a * c + (b - a) * c;
    assert (b - a) * c >= 0;
  }

  /** A live chunk lies in its stock, behind the header. */
  lemma LiveInside(slots: Slots, stocks: Stocks, a: Ptr, p: Ptr)
    requires StocksOk(slots, stocks) && LiveIn(slots, stocks, a, p)
    ensures var z := slots[stocks[a].slot];
      a + HEADER <= p && p + z.chunkSize <= a + StockSize(z)
  {
    var z, k := slots[stocks[a].slot], stocks[a];
    var j :| 0 <= j < k.index && p == ChunkAt(a, z.chunkSize, j);
    ChunkInside(z, a, j, z.chunkCount);
  }

  /** Live chunks are pairwise disjoint, within a stock and across stocks. */
  lemma LiveDisjoint(slots: Slots, stocks: Stocks, a: Ptr, p: Ptr, b: Ptr, q: Ptr)
    requires StocksOk(slots, stocks) && Apart(slots, stocks)
    requires LiveIn(slots, stocks, a, p) && LiveIn(slots, stocks, b, q) && p != q
    ensures p + slots[stocks[a].slot].chunkSize <= q || q + slots[stocks[b].slot].chunkSize <= p
  {
    ChunksDisjoint(slots, stocks, a, p, b, q);
  }

  /** Chunks do not overlap, whether they are handed out or recycled. */
  lemma ChunksDisjoint(slots: Slots, stocks: Stocks, a: Ptr, p: Ptr, b: Ptr, q: Ptr)
    requires StocksOk(slots, stocks) && Apart(slots, stocks) && a in stocks && b in stocks && p != q
    requires IsChunk(slots[stocks[a].slot], a, stocks[a], p) && IsChunk(slots[stocks[b].slot], b, stocks[b], q)
    ensures p + slots[stocks[a].slot].chunkSize <= q || q + slots[stocks[b].slot].chunkSize <= p
  {
    if a == b {
      SameStockDisjoint(slots[stocks[a].slot], a, stocks[a], p, q);
    } else {
      ChunkBounds(slots[stocks[a].slot], a, stocks[a], p);
      ChunkBounds(slots[stocks[b].slot], b, stocks[b], q);
    }
  }

  lemma ChunkBounds(z: Slot, a: Ptr, k: Stock, p: Ptr)
    requires k.index <= z.chunkCount && IsChunk(z, a, k, p)
    ensures a + HEADER <= p && p + z.chunkSize <= a + StockSize(z)
  {
    var j :| 0 <= j < k.index && p == ChunkAt(a, z.chunkSize, j);
    ChunkInside(z, a, j, z.chunkCount);
  }

  lemma SameStockDisjoint(z: Slot, a: Ptr, k: Stock, p: Ptr, q: Ptr)
    requires IsChunk(z, a, k, p) && IsChunk(z, a, k, q) && p != q
    ensures p + z.chunkSize <= q || q + z.chunkSize <= p
  {
    var i :| 0 <= i < k.index && p == ChunkAt(a, z.chunkSize, i);
    var j :| 0 <= j < k.index && q == ChunkAt(a, z.chunkSize, j);
    if i < j {
      ChunkInside(z, a, i, j);
    } else {
      ChunkInside(z, a, j, i);
    }
  }

  lemma ChunkInjective(z: Slot, a: Ptr, i: nat, j: nat)
    requires z.chunkSize > 0 && ChunkAt(a, z.chunkSize, i) == ChunkAt(a, z.chunkSize, j)
    ensures i == j
  {
    if i < j {
      ChunkInside(z, a, i, j);
    } else if j < i {
      ChunkInside(z, a, j, i);
    }
  }

  ghost predicate Within(z: Slot, a: Ptr, p: Ptr) {
    a + HEADER <= p < a + StockSize(z)
  }

  lemma ChunkWithin(z: Slot, a: Ptr, k: Stock, p: Ptr)
    requires z.chunkSize > 0 && k.index <= z.chunkCount && IsChunk(z, a, k, p)
    ensures Within(z, a, p)
  {
    var j :| 0 <= j < k.index && p == ChunkAt(a, z.chunkSize, j);
    ChunkInside(z, a, j, z.chunkCount);
  }

  // ---- the steps on values ----

  /** Slots that differ at most in their lists. */
  ghost predicate SameSizes(slots: Slots, slots': Slots) {
    && |slots'| == |slots|
    && forall i :: 0 <= i < |slots| ==>
         slots'[i].chunkSize == slots[i].chunkSize && slots'[i].chunkCount == slots[i].chunkCount
  }

  /** Only stock `a` changed, and only in what it has handed out. */
  ghost predicate OneStock(slots: Slots, stocks: Stocks, slots': Slots, stocks': Stocks, a: Ptr) {
    && SameSizes(slots, slots') && a in stocks && stocks'.Keys == stocks.Keys
    && stocks'[a].slot == stocks[a].slot && stocks[a].slot < |slots|
    && forall b :: b in stocks && b != a ==> stocks'[b] == stocks[b]
  }

  lemma OneStockOk(slots: Slots, stocks: Stocks, slots': Slots, stocks': Stocks, a: Ptr)
    requires StocksOk(slots, stocks) && Apart(slots, stocks) && OneStock(slots, stocks, slots', stocks', a)
    requires StockOk(slots'[stocks[a].slot], a, stocks'[a])
    ensures StocksOk(slots', stocks') && Apart(slots', stocks')
  {
    forall b | b in stocks' && b != a
      ensures StockOk(slots'[stocks'[b].slot], b, stocks'[b])
    {
      var z, z' := slots[stocks[b].slot], slots'[stocks[b].slot];
      assert forall p :: IsChunk(z, b, stocks[b], p) ==> IsChunk(z', b, stocks[b], p);
    }
  }

  /** What is live in the other stocks stays so. */
  lemma OneStockLive(slots: Slots, stocks: Stocks, slots': Slots, stocks': Stocks, a: Ptr, b: Ptr, p: Ptr)
    requires OneStock(slots, stocks, slots', stocks', a) && b != a
    ensures LiveIn(slots', stocks', b, p) <==> LiveIn(slots, stocks, b, p)
  {
    if b in stocks && stocks[b].slot < |slots| {
      var z, z' := slots[stocks[b].slot], slots'[stocks[b].slot];
      assert IsChunk(z, b, stocks[b], p) <==> IsChunk(z', b, stocks[b], p);
    }
  }

  /** The live chunks after `a` handed out (or took back) exactly `p`. */
  ghost predicate LiveChange(slots: Slots, stocks: Stocks, slots': Slots, stocks': Stocks, p: Ptr, now: bool) {
    forall q :: Live(slots', stocks', q) <==> if q == p then now else Live(slots, stocks, q)
  }

  lemma LiveChanged(slots: Slots, stocks: Stocks, slots': Slots, stocks': Stocks, a: Ptr, p: Ptr, now: bool)
    requires StocksOk(slots, stocks) && Apart(slots, stocks) && OneStock(slots, stocks, slots', stocks', a)
    requires Within(slots[stocks[a].slot], a, p)
    requires forall q :: LiveIn(slots', stocks', a, q) <==> if q == p then now else LiveIn(slots, stocks, a, q)
    ensures LiveChange(slots, stocks, slots', stocks', p, now)
  {
    forall q
      ensures Live(slots', stocks', q) <==> if q == p then now else Live(slots, stocks, q)
    {
      if Live(slots', stocks', q) {
        var b :| LiveIn(slots', stocks', b, q);
        if b != a {
          OneStockLive(slots, stocks, slots', stocks', a, b, q);
          ElsewhereNot(slots, stocks, a, b, p, q);
        }
      }
      if Live(slots, stocks, q) && q != p {
        var b :| LiveIn(slots, stocks, b, q);
        if b != a {
          OneStockLive(slots, stocks, slots', stocks', a, b, q);
        }
        assert LiveIn(slots', stocks', b, q);
      }
      if q == p && now {
        assert LiveIn(slots', stocks', a, p);
      }
    }
  }

  lemma ElsewhereNot(slots: Slots, stocks: Stocks, a: Ptr, b: Ptr, p: Ptr, q: Ptr)
    requires StocksOk(slots, stocks) && Apart(slots, stocks) && a in stocks && b != a
    requires Within(slots[stocks[a].slot], a, p) && LiveIn(slots, stocks, b, q)
    ensures q != p
  {
    ChunkWithin(slots[stocks[b].slot], b, stocks[b], q);
  }

  /** Taking the first recycled chunk. */
  lemma RecycledChunk(z: Slot, a: Ptr, k: Stock)
    requires StockOk(z, a, k) && k.recycle != [] && z.chunkSize > 0
    ensures var k' := k.(recycle := k.recycle[1..], recycnt := k.recycnt - 1);
      var p := k.recycle[0];
      && StockOk(z, a, k') && Handed(z, a, k', p) && !Handed(z, a, k, p)
      && forall q :: Handed(z, a, k', q) <==> q == p || Handed(z, a, k, q)
  {
    var k' := k.(recycle := k.recycle[1..], recycnt := k.recycnt - 1);
    var p := k.recycle[0];
    assert k.recycle == [p] + k'.recycle;
    assert forall i :: 0 <= i < |k'.recycle| ==> k'.recycle[i] == k.recycle[i + 1];
    assert forall q :: IsChunk(z, a, k', q) <==> IsChunk(z, a, k, q);
  }

  /** Taking the next chunk that was never handed out. */
  lemma FreshChunk(z: Slot, a: Ptr, k: Stock)
    requires StockOk(z, a, k) && k.index < z.chunkCount && z.chunkSize > 0
    ensures var k' := k.(index := k.index + 1);
      var p := ChunkAt(a, z.chunkSize, k.index);
      && StockOk(z, a, k') && Handed(z, a, k', p) && !Handed(z, a, k, p)
      && forall q :: Handed(z, a, k', q) <==> q == p || Handed(z, a, k, q)
  {
    var k' := k.(index := k.index + 1);
    var p := ChunkAt(a, z.chunkSize, k.index);
    if IsChunk(z, a, k, p) {
      var j :| 0 <= j < k.index && p == ChunkAt(a, z.chunkSize, j);
      ChunkInjective(z, a, j, k.index);
    }
    forall q
      ensures IsChunk(z, a, k', q) <==> q == p || IsChunk(z, a, k, q)
    {
      if IsChunk(z, a, k', q) {
        var j :| 0 <= j < k'.index && q == ChunkAt(a, z.chunkSize, j);
        assert j < k.index || j == k.index;
      }
      if IsChunk(z, a, k, q) {
        var j :| 0 <= j < k.index && q == ChunkAt(a, z.chunkSize, j);
        assert j < k'.index;
      }
      if q == p {
        assert k.index < k'.index;
      }
    }
  }

  /** Giving a live chunk back. */
  lemma ReturnedChunk(z: Slot, a: Ptr, k: Stock, p: Ptr)
    requires StockOk(z, a, k) && IsChunk(z, a, k, p) && p !in k.recycle
    ensures var k' := k.(recycle := [p] + k.recycle, recycnt := k.recycnt + 1);
      && StockOk(z, a, k')
      && forall q :: Handed(z, a, k', q) <==> q != p && Handed(z, a, k, q)
  {
    var k' := k.(recycle := [p] + k.recycle, recycnt := k.recycnt + 1);
    assert forall q :: IsChunk(z, a, k', q) <==> IsChunk(z, a, k, q);
    assert forall q :: q in k'.recycle <==> q == p || q in k.recycle;
  }

  // ---- lists ----

  lemma WithoutKeeps(s: seq<Ptr>, x: Ptr)
    requires NoRepeat(s)
    ensures NoRepeat(Without(s, x)) && forall y :: (y in Without(s, x) <==> y in s && y != x)
    ensures |Without(s, x)| == |s| - if x in s then 1 else 0
  {
    WithoutIs(s, x);
    WithoutNoRepeat(s, x);
  }

  lemma PushFront(s: seq<Ptr>, x: Ptr)
    requires NoRepeat(s) && x !in s
    ensures NoRepeat([x] + s) && forall y :: (y in [x] + s <==> y == x || y in s)
  {
  }

  /** The slot lists after stock `a` changed: moved to the other list if it became exhausted or
      stopped being so. */
  function Relisted(z: Slot, a: Ptr, was: bool, isNow: bool): Slot {
    if was == isNow then z
    else if isNow then z.(free := Without(z.free, a), full := [a] + z.full)
    else z.(full := Without(z.full, a), free := [a] + z.free)
  }

  lemma RelistedOk(slots: Slots, stocks: Stocks, stocks': Stocks, a: Ptr)
    requires StocksOk(slots, stocks) && ListsOk(slots, stocks) && a in stocks
    requires stocks'.Keys == stocks.Keys && stocks'[a].slot == stocks[a].slot
    requires forall b :: b in stocks && b != a ==> stocks'[b] == stocks[b]
    ensures var i := stocks[a].slot;
      ListsOk(slots[i := Relisted(slots[i], a, Exhausted(slots[i], stocks[a]), Exhausted(slots[i], stocks'[a]))],
        stocks')
  {
    var i := stocks[a].slot;
    var z := slots[i];
    WithoutKeeps(z.free, a);
    WithoutKeeps(z.full, a);
    if Exhausted(z, stocks[a]) {
      PushFront(z.free, a);
    } else {
      PushFront(z.full, a);
    }
    var slots' := slots[i := Relisted(z, a, Exhausted(z, stocks[a]), Exhausted(z, stocks'[a]))];
    forall n, b | 0 <= n < |slots'|
      ensures b in slots'[n].full <==> b in stocks' && stocks'[b].slot == n && Exhausted(slots'[n], stocks'[b])
      ensures b in slots'[n].free <==> b in stocks' && stocks'[b].slot == n && !Exhausted(slots'[n], stocks'[b])
    {
      assert b in slots[n].full <==> b in stocks && stocks[b].slot == n && Exhausted(slots[n], stocks[b]);
      assert b in slots[n].free <==> b in stocks && stocks[b].slot == n && !Exhausted(slots[n], stocks[b]);
    }
  }

  // ---- the tree of stocks ----

  function AddrCmp(x: Ptr, y: Ptr): int {
    if x > y then 1 else if x < y then -1 else 0
  }

  /** stock_search for the address `p`. */
  function AddrSearch(slots: Slots, stocks: Stocks, p: Ptr, a: Ptr): int {
    if a !in stocks || stocks[a].slot >= |slots| then 0
    else if p >= a + StockSize(slots[stocks[a].slot]) then 1
    else if p < a + HEADER then -1
    else 0
  }

  lemma AddrSearchDescends(slots: Slots, stocks: Stocks, p: Ptr, s: seq<Ptr>)
    requires StocksOk(slots, stocks) && Apart(slots, stocks) && Sorted(AddrCmp, s)
    requires forall a :: a in s ==> a in stocks
    ensures Descending((a: Ptr) => AddrSearch(slots, stocks, p, a), s)
  {
    var search := (a: Ptr) => AddrSearch(slots, stocks, p, a);
    forall i, j | 0 <= i < j < |s|
      ensures search(s[i]) <= 0 ==> search(s[j]) < 0
    {
      assert AddrCmp(s[i], s[j]) < 0;
      assert s[i] in stocks && s[j] in stocks;
    }
  }

  // ---- the recycle lists in chunk memory ----

  /** The recycle lists of all stocks. */
  ghost function Recycled(stocks: Stocks): map<Ptr, seq<Ptr>> {
    map a | a in stocks :: stocks[a].recycle
  }

  lemma RecycledSet(stocks: Stocks, a: Ptr, k: Stock)
    ensures Recycled(stocks[a := k]) == Recycled(stocks)[a := k.recycle]
  {
  }

  lemma RecycledDrop(stocks: Stocks, a: Ptr)
    ensures Recycled(stocks - {a}) == Recycled(stocks) - {a}
  {
  }

  /** A live chunk is on no recycle list, and the links there are other bytes than its own. */
  lemma NotRecycled(slots: Slots, stocks: Stocks, a: Ptr, p: Ptr)
    requires StocksOk(slots, stocks) && Apart(slots, stocks) && LiveIn(slots, stocks, a, p)
    ensures forall b, x :: b in stocks && x in stocks[b].recycle ==>
      x != p && (x + LINK <= p || p + slots[stocks[a].slot].chunkSize <= x)
  {
    forall b, x | b in stocks && x in stocks[b].recycle
      ensures x != p && (x + LINK <= p || p + slots[stocks[a].slot].chunkSize <= x)
    {
      assert StockOk(slots[stocks[b].slot], b, stocks[b]);
      assert IsChunk(slots[stocks[b].slot], b, stocks[b], x);
      if x == p {
        ChunkBounds(slots[stocks[a].slot], a, stocks[a], p);
        ChunkBounds(slots[stocks[b].slot], b, stocks[b], x);
      } else {
        ChunksDisjoint(slots, stocks, a, p, b, x);
      }
    }
  }

  /** The owner of a chunk may write anything into its bytes; a link elsewhere is eight other bytes. */
  ghost predicate Scribbled(words: Words, words': Words, p: Ptr, size: nat) {
    forall x :: x in words && (x + LINK <= p || p + size <= x) ==> x in words' && words'[x] == words[x]
  }

  class Pool {
    const onrbt: Rb.RbTree
    var slots: Slots
    var stocks: Stocks
    const lists: RecycleLists

    ghost predicate Valid()
      reads this, onrbt, lists
    {
      TreeOk(stocks.Keys) && PoolOk(slots, stocks) && Listed()
    }

    /** The tree holds the given stocks by address. */
    ghost predicate TreeOk(s: set<Ptr>)
      reads this, onrbt
    {
      onrbt.Valid() && Sorted(AddrCmp, InOrder(onrbt.tree)) && Ids(onrbt.tree) == s
    }

    /** The links in free chunks spell out the recycle lists. */
    ghost predicate Listed()
      reads this, lists
    {
      lists.Valid() && lists.lists == Recycled(stocks)
    }

    /** The stock an address belongs to, found through the tree: the one a scan would find. */
    method FindStock(p: Ptr) returns (a: Ptr)
      requires Valid()
      ensures a == NULL ==> forall b :: b in stocks ==> !Within(slots[stocks[b].slot], b, p)
      ensures a != NULL ==> a in stocks && Within(slots[stocks[a].slot], a, p)
      ensures forall b :: b in stocks && Within(slots[stocks[b].slot], b, p) ==> b == a
    {
      IdsInOrder(onrbt.tree);
      AddrSearchDescends(slots, stocks, p, InOrder(onrbt.tree));
      var k, z := stocks, slots;
      a := onrbt.Search((a: Ptr) => AddrSearch(z, k, p, a));
    }

    constructor ()
      ensures Valid() && slots == [] && stocks == map[] && fresh(onrbt) && fresh(lists)
    {
      onrbt := new Rb.RbTree();
      lists := new RecycleLists();
      slots, stocks := [], map[];
    }

    /** stock_alloc: `room` is what posix_memalign returned, if it did not fail. */
    method StockAlloc(i: nat, room: Ptr) returns (ok: bool)
      requires Valid() && i < |slots| && slots[i].free == []
      requires room != NULL ==> RoomFor(slots, stocks, i, room)
      modifies this, onrbt, lists
      ensures Valid() && ok == (room != NULL)
      ensures !ok ==> unchanged(this)
      ensures ok ==>
        && stocks == old(stocks)[room := Stock(i, [], 0, 0)] && room !in old(stocks)
        && slots == old(slots)[i := old(slots)[i].(free := [room])]
      ensures forall p :: Live(slots, stocks, p) <==> Live(old(slots), old(stocks), p)
    {
      if room == NULL {
        return false;
      }
      AddStock(i, room);
      RecycledSet(old(stocks), room, Stock(i, [], 0, 0));
      lists.Open(room);
      EnterTree(room);
      ok := true;
    }

    /** The new stock is the only one on the free list. */
    method AddStock(i: nat, room: Ptr)
      requires PoolOk(slots, stocks) && i < |slots| && slots[i].free == [] && RoomFor(slots, stocks, i, room)
      modifies this`slots, this`stocks
      ensures PoolOk(slots, stocks) && room != NULL && room !in old(stocks)
      ensures stocks == old(stocks)[room := Stock(i, [], 0, 0)]
      ensures slots == old(slots)[i := old(slots)[i].(free := [room])]
      ensures forall p :: Live(slots, stocks, p) <==> Live(old(slots), old(stocks), p)
    {
      NewStockOk(slots, stocks, i, room);
      assert [room] + slots[i].free == [room];
      stocks := stocks[room := Stock(i, [], 0, 0)];
      slots := slots[i := slots[i].(free := [room] + slots[i].free)];
    }

    /** The new stock goes into the tree; no stock has its address, so rb_insert succeeds. */
    method EnterTree(a: Ptr)
      requires TreeOk(Ids(onrbt.tree)) && a != NULL && a !in Ids(onrbt.tree)
      modifies onrbt
      ensures TreeOk(old(Ids(onrbt.tree)) + {a})
    {
      onrbt.Provide(a, RbShape.Cell.Cell(NULL, NULL, NULL, false));
      AddrComparator();
      var r := onrbt.Insert(a, AddrCmp);
    }

    /** chunk_alloc. */
    method ChunkAlloc(i: nat, room: Ptr) returns (p: Ptr)
      requires Valid() && i < |slots|
      requires slots[i].free == [] && room != NULL ==> RoomFor(slots, stocks, i, room)
      modifies this, onrbt, lists
      ensures Valid() && SameSizes(old(slots), slots)
      ensures p == NULL <==> old(slots[i].free) == [] && room == NULL
      ensures p == NULL ==> unchanged(this)
      ensures p != NULL ==>
        && !Live(old(slots), old(stocks), p) && LiveChange(old(slots), old(stocks), slots, stocks, p, true)
        && From(slots, stocks, p, i)
      ensures p != NULL && old(slots)[i].free == [] ==>
        TookFrom(old(slots), old(stocks), i, old(slots)[i].(free := [room]), room, Stock(i, [], 0, 0), p, slots, stocks)
      ensures p != NULL && old(slots)[i].free != [] ==> var a := old(slots)[i].free[0];
        a in old(stocks) && TookFrom(old(slots), old(stocks), i, old(slots)[i], a, old(stocks)[a], p, slots, stocks)
    {
      if slots[i].free == [] {
        p := TakeNew(i, room);
      } else {
        p := TakeChunk(i);
      }
    }

    /** The first chunk of a new stock, if there is room for one. */
    method TakeNew(i: nat, room: Ptr) returns (p: Ptr)
      requires Valid() && i < |slots| && slots[i].free == [] && (room != NULL ==> RoomFor(slots, stocks, i, room))
      modifies this, onrbt, lists
      ensures Valid() && SameSizes(old(slots), slots) && (p == NULL <==> room == NULL)
      ensures p == NULL ==> unchanged(this)
      ensures p != NULL ==>
        && !Live(old(slots), old(stocks), p) && LiveChange(old(slots), old(stocks), slots, stocks, p, true)
        && From(slots, stocks, p, i)
      ensures p != NULL ==>
        TookFrom(old(slots), old(stocks), i, old(slots)[i].(free := [room]), room, Stock(i, [], 0, 0), p, slots, stocks)
    {
      var ok := StockAlloc(i, room);
      if !ok {
        return NULL;
      }
      p := TakeChunk(i);
      TookNew(old(slots), old(stocks), i, room, p, slots, stocks);
    }

    /** Lines 127 to 143: a chunk from the first stock of the free list. */
    method TakeChunk(i: nat) returns (p: Ptr)
      requires Valid() && i < |slots| && slots[i].free != []
      modifies this, lists
      ensures Valid() && SameSizes(old(slots), slots) && p != NULL
      ensures !Live(old(slots), old(stocks), p) && LiveChange(old(slots), old(stocks), slots, stocks, p, true)
      ensures From(slots, stocks, p, i)
      ensures var z := old(slots)[i];
        && z.free[0] in old(stocks)
        && TookFrom(old(slots), old(stocks), i, z, z.free[0], old(stocks)[z.free[0]], p, slots, stocks)
    {
      var a := slots[i].free[0];
      assert a in slots[i].free;
      var k;
      p, k := PopFree(slots[i], a);
      HandOut(i, a, k, p);
    }

    /** Lines 129 to 138: off the recycle list if there is something, else the next fresh chunk. */
    method PopFree(z: Slot, a: Ptr) returns (p: Ptr, k: Stock)
      requires Listed() && a in stocks && StockOk(z, a, stocks[a]) && z.chunkSize > 0 && !Exhausted(z, stocks[a])
      modifies lists
      ensures lists.Valid() && lists.lists == Recycled(stocks[a := k])
      ensures k.slot == stocks[a].slot && p != NULL && StockOk(z, a, k) && Handed(z, a, k, p)
      ensures !Handed(z, a, stocks[a], p)
      ensures forall q :: Handed(z, a, k, q) <==> q == p || Handed(z, a, stocks[a], q)
      ensures stocks[a].recycle != [] ==> stocks[a].recycnt > 0
      ensures p == NextChunk(z, a, stocks[a]) && k == Taken(stocks[a])
    {
      var recycle := lists.Take(a);
      p, k := PickChunk(z, a, stocks[a], recycle);
      RecycledSet(stocks, a, k);
      assert recycle == NULL ==> Recycled(stocks)[a := k.recycle] == Recycled(stocks);
    }

    /** The chunk counts as handed out. */
    method HandOut(i: nat, a: Ptr, k: Stock, ghost p: Ptr)
      requires PoolOk(slots, stocks) && i < |slots| && a in stocks && k.slot == stocks[a].slot == i
      requires !Exhausted(slots[i], stocks[a])
      requires StockOk(slots[i], a, k) && Handed(slots[i], a, k, p) && !Handed(slots[i], a, stocks[a], p)
      requires forall q :: Handed(slots[i], a, k, q) <==> q == p || Handed(slots[i], a, stocks[a], q)
      modifies this`slots, this`stocks
      ensures PoolOk(slots, stocks) && SameSizes(old(slots), slots) && stocks == old(stocks)[a := k]
      ensures slots == old(slots)[i := Relisted(old(slots)[i], a, false, Exhausted(old(slots)[i], k))]
      ensures !Live(old(slots), old(stocks), p) && LiveChange(old(slots), old(stocks), slots, stocks, p, true)
      ensures LiveIn(slots, stocks, a, p)
    {
      TakenOk(slots, stocks, a, k, p);
      TakenLive(slots, stocks, a, k, p);
      Restock(i, a, k);
    }

    /** The stock is written back and moves to the full list if it is exhausted now. */
    method Restock(i: nat, a: Ptr, k: Stock)
      requires i < |slots|
      modifies this`slots, this`stocks
      ensures stocks == old(stocks)[a := k]
      ensures slots == old(slots)[i := Relisted(old(slots)[i], a, false, Exhausted(old(slots)[i], k))]
    {
      stocks := stocks[a := k];
      if k.index == slots[i].chunkCount && k.recycle == [] {
        slots := slots[i := slots[i].(free := Without(slots[i].free, a), full := [a] + slots[i].full)];
      }
    }

    /** stock_slot_init for the next slot of the pool. */
    method SlotInit(chunkCount: nat, chunkSize: nat, room: Ptr) returns (ok: bool)
      requires Valid() && chunkCount > 0
      requires room != NULL ==> RoomFor(slots + [Slot(Rounded(chunkSize), chunkCount, [], [])], stocks, |slots|, room)
      modifies this, onrbt, lists
      ensures Valid() && ok == (room != NULL) && |slots| == |old(slots)| + 1 && slots[..|old(slots)|] == old(slots)
      ensures slots[|old(slots)|].chunkSize == Rounded(chunkSize) && slots[|old(slots)|].chunkCount == chunkCount
      ensures stocks == if ok then old(stocks)[room := Stock(|old(slots)|, [], 0, 0)] else old(stocks)
      ensures forall p :: Live(slots, stocks, p) <==> Live(old(slots), old(stocks), p)
    {
      NewSlotOk(slots, stocks, Slot(Rounded(chunkSize), chunkCount, [], []));
      slots := slots + [Slot(Rounded(chunkSize), chunkCount, [], [])];
      ok := StockAlloc(|slots| - 1, room);
    }

    /**
     mem_pool_alloc.  The index is an int, so the quotient is cut to 32 bits before the guard, and the
     guard lets the index one past the last slot through; only that access is excluded here.
     */
    method PoolAlloc(size: nat, start: nat, diff: nat, room: Ptr) returns (p: Ptr)
      requires Valid() && diff > 0 && Sized(slots, start, diff) && Cut(size, diff) != |slots|
      requires Cut(size, diff) < |slots| && slots[Cut(size, diff)].free == [] && room != NULL ==>
        RoomFor(slots, stocks, Cut(size, diff), room)
      modifies this, onrbt, lists
      ensures Valid() && SameSizes(old(slots), slots) && Sized(slots, start, diff)
      ensures p == NULL <==> Cut(size, diff) > |old(slots)| || (old(slots)[Cut(size, diff)].free == [] && room == NULL)
      ensures p == NULL ==> unchanged(this)
      ensures p != NULL ==> From(slots, stocks, p, Cut(size, diff))
      ensures p != NULL ==> (slots[Cut(size, diff)].chunkSize >= size <==> Served(size, start, diff, |slots|))
      ensures p != NULL ==>
        !Live(old(slots), old(stocks), p) && LiveChange(old(slots), old(stocks), slots, stocks, p, true)
    {
      IndexIs(size, start, diff, |slots|);
      var index := ToInt(size / diff);
      if ToSize(index) > |slots| {
        return NULL;
      }
      p := Serve(index, room);
    }

    /** The allocation under the lock. */
    method Serve(i: nat, room: Ptr) returns (p: Ptr)
      requires Valid() && i < |slots|
      requires slots[i].free == [] && room != NULL ==> RoomFor(slots, stocks, i, room)
      modifies this, onrbt, lists
      ensures Valid() && SameSizes(old(slots), slots)
      ensures p == NULL <==> old(slots[i].free) == [] && room == NULL
      ensures p == NULL ==> unchanged(this)
      ensures p != NULL ==>
        && !Live(old(slots), old(stocks), p) && LiveChange(old(slots), old(stocks), slots, stocks, p, true)
        && From(slots, stocks, p, i)
    {
      p := ChunkAlloc(i, room);
    }

    /** The owner of a live chunk writes to it as it likes: the recycle lists stay what they are. */
    method Scribble(p: Ptr, after: Words, ghost a: Ptr)
      requires Valid() && LiveIn(slots, stocks, a, p)
      requires Scribbled(lists.words, after, p, slots[stocks[a].slot].chunkSize)
      modifies lists
      ensures Valid() && lists.words == after
    {
      NotRecycled(slots, stocks, a, p);
      lists.Overwrite(after);
    }

    /** chunk_free of a live chunk. */
    method ChunkFree(p: Ptr) returns (ghost a: Ptr)
      requires Valid() && Live(slots, stocks, p)
      modifies this, onrbt, lists
      ensures Valid() && SameSizes(old(slots), slots)
      ensures LiveChange(old(slots), old(stocks), slots, stocks, p, false)
      ensures LiveIn(old(slots), old(stocks), a, p)
      ensures a !in stocks <==> LastLive(old(slots), old(stocks), a, p) && RoomElsewhere(old(slots), old(stocks), a)
      ensures a in stocks ==> stocks == old(stocks)[a := Returned(old(stocks)[a], p)]
      ensures a !in stocks ==> stocks == old(stocks) - {a}
    {
      var owner := Owner(p);
      a := owner;
      FreeIn(owner, p);
    }

    method FreeIn(a: Ptr, p: Ptr)
      requires Valid() && LiveIn(slots, stocks, a, p)
      modifies this, onrbt, lists
      ensures Valid() && SameSizes(old(slots), slots)
      ensures LiveChange(old(slots), old(stocks), slots, stocks, p, false)
      ensures var goes := LastLive(old(slots), old(stocks), a, p) && RoomElsewhere(old(slots), old(stocks), a);
        stocks == if goes then old(stocks) - {a} else old(stocks)[a := Returned(old(stocks)[a], p)]
    {
      GiveBack(a, p);
      GoesIf(old(slots), old(stocks), slots, stocks, a, p);
      ghost var mid := stocks;
      assert mid - {a} == old(stocks) - {a};
      Settle(a, old(stocks));
    }

    /** The stock that produced a live chunk. */
    method Owner(p: Ptr) returns (a: Ptr)
      requires Valid() && Live(slots, stocks, p)
      ensures LiveIn(slots, stocks, a, p)
    {
      a := FindStock(p);
      LiveFound(slots, stocks, a, p);
    }

    /** The chunk is free again; the stock may now be one wholly unused stock too many. */
    method GiveBack(a: Ptr, p: Ptr)
      requires Valid() && LiveIn(slots, stocks, a, p)
      modifies this`slots, this`stocks, lists
      ensures TreeOk(stocks.Keys)
      ensures Loose(slots, stocks, a, old(stocks)) && SameSizes(old(slots), slots) && Listed()
      ensures LiveChange(old(slots), old(stocks), slots, stocks, p, false)
      ensures stocks == old(stocks)[a := Returned(old(stocks)[a], p)]
    {
      ReturnedOk(slots, stocks, a, p);
      PushFree(a, p);
      PutBack(a, p);
    }

    /** The chunk goes in front of the recycle list. */
    method PushFree(a: Ptr, p: Ptr)
      requires StocksOk(slots, stocks) && Apart(slots, stocks) && Listed() && LiveIn(slots, stocks, a, p)
      modifies lists
      ensures lists.Valid() && lists.lists == Recycled(stocks[a := Returned(stocks[a], p)])
    {
      LiveInside(slots, stocks, a, p);
      NotRecycled(slots, stocks, a, p);
      RecycledSet(stocks, a, Returned(stocks[a], p));
      lists.Put(a, p);
    }

    /** Lines 158 to 164. */
    method PutBack(a: Ptr, p: Ptr)
      requires a in stocks && stocks[a].slot < |slots|
      modifies this`slots, this`stocks
      ensures var i := old(stocks)[a].slot;
        slots == old(slots)[i := Relisted(old(slots)[i], a, Exhausted(old(slots)[i], old(stocks)[a]), false)]
      ensures stocks == old(stocks)[a := Returned(old(stocks)[a], p)]
    {
      var k, i := stocks[a], stocks[a].slot;
      if Exhausted(slots[i], k) {
        slots := slots[i := slots[i].(full := Without(slots[i].full, a), free := [a] + slots[i].free)];
      }
      stocks := stocks[a := k.(recycnt := k.recycnt + 1, recycle := [p] + k.recycle)];
    }

    /** Lines 167 to 178: a second wholly unused stock is not kept. */
    method Settle(a: Ptr, ghost before: Stocks)
      requires TreeOk(stocks.Keys)
      requires Loose(slots, stocks, a, before) && Listed()
      modifies this, onrbt, lists
      ensures Valid() && SameSizes(old(slots), slots)
      ensures forall q :: Live(slots, stocks, q) <==> Live(old(slots), old(stocks), q)
      ensures stocks ==
        if Unused(old(stocks)[a]) && RoomElsewhere(old(slots), old(stocks), a) then old(stocks) - {a} else old(stocks)
    {
      TwoFree(slots, stocks, a);
      if stocks[a].recycnt == stocks[a].index && |slots[stocks[a].slot].free| >= 2 {
        Release(a, before);
      } else {
        KeptOk(slots, stocks, a, before);
      }
    }

    /** Lines 171 to 174: the stock leaves its list and the tree, and is freed. */
    method Release(a: Ptr, ghost before: Stocks)
      requires TreeOk(stocks.Keys)
      requires Loose(slots, stocks, a, before) && Unused(stocks[a]) && Listed()
      modifies this, onrbt, lists
      ensures Valid() && SameSizes(old(slots), slots) && stocks == old(stocks) - {a}
      ensures forall q :: !LiveIn(old(slots), old(stocks), a, q)
      ensures forall q :: Live(slots, stocks, q) <==> Live(old(slots), old(stocks), q)
    {
      DropStock(a, before);
      RecycledDrop(old(stocks), a);
      lists.Close(a);
      LeaveTree(a);
    }

    /** A stock without live chunks leaves its free list. */
    method DropStock(a: Ptr, ghost before: Stocks)
      requires Loose(slots, stocks, a, before) && Unused(stocks[a])
      modifies this`slots, this`stocks
      ensures PoolOk(slots, stocks) && SameSizes(old(slots), slots) && stocks == old(stocks) - {a}
      ensures forall q :: !LiveIn(old(slots), old(stocks), a, q)
      ensures forall q :: Live(slots, stocks, q) <==> Live(old(slots), old(stocks), q)
    {
      DroppedOk(slots, stocks, a, before);
      DroppedLive(slots, stocks, a);
      var i := stocks[a].slot;
      slots := slots[i := slots[i].(free := Without(slots[i].free, a))];
      stocks := stocks - {a};
    }

    method LeaveTree(a: Ptr)
      requires TreeOk(Ids(onrbt.tree)) && a in Ids(onrbt.tree)
      modifies onrbt
      ensures TreeOk(old(Ids(onrbt.tree)) - {a})
    {
      ghost var s := InOrder(onrbt.tree);
      onrbt.Remove(a);
      ghost var i :| IsRemoval(s, i, a, InOrder(onrbt.tree));
      RemovalSorted(AddrCmp, s, i, a, InOrder(onrbt.tree));
      onrbt.Withdraw(a);
    }

    /** A recycled chunk if there is one, else the next fresh one; the assert(0) is never reached. */
    static method PickChunk(z: Slot, a: Ptr, k0: Stock, recycle: Ptr) returns (p: Ptr, k: Stock)
      requires StockOk(z, a, k0) && z.chunkSize > 0 && !Exhausted(z, k0)
      requires recycle == Head(k0.recycle) && (recycle == NULL <==> k0.recycle == [])
      ensures k.slot == k0.slot && p != NULL && StockOk(z, a, k) && Handed(z, a, k, p) && !Handed(z, a, k0, p)
      ensures forall q :: Handed(z, a, k, q) <==> q == p || Handed(z, a, k0, q)
      ensures recycle != NULL ==> p == recycle && k == k0.(recycle := k0.recycle[1..], recycnt := k0.recycnt - 1)
      ensures recycle == NULL ==> p == ChunkAt(a, z.chunkSize, k0.index) && k == k0.(index := k0.index + 1)
    {
      if recycle != NULL {
        RecycledChunk(z, a, k0);
        p, k := recycle, k0.(recycle := k0.recycle[1..], recycnt := k0.recycnt - 1);
      } else {
        assert k0.index < z.chunkCount;
        FreshChunk(z, a, k0);
        p, k := ChunkAt(a, z.chunkSize, k0.index), k0.(index := k0.index + 1);
      }
    }
  }

  /** chunk_size rounded up to the alignment, and to the room a recycle link needs. */
  function Rounded(size: nat): (r: nat)
    ensures r % ALIGN == 0 && size <= r && LINK <= r && (r < size + ALIGN || r == LINK)
  {
    var n := if size % ALIGN == 0 then size else size + (ALIGN - size % ALIGN);
    if n < LINK then LINK else n
  }

  ghost predicate RoomFor(slots: Slots, stocks: Stocks, i: nat, a: Ptr)
    requires i < |slots|
  {
    && a > 0
    && forall b :: b in stocks && stocks[b].slot < |slots| ==>
         a + StockSize(slots[i]) <= b || b + StockSize(slots[stocks[b].slot]) <= a
  }

  lemma AddrComparator()
    ensures Comparator(AddrCmp)
  {
  }

  lemma NewStockOk(slots: Slots, stocks: Stocks, i: nat, a: Ptr)
    requires PoolOk(slots, stocks) && i < |slots| && slots[i].free == [] && RoomFor(slots, stocks, i, a)
    ensures a !in stocks
    ensures PoolOk(slots[i := slots[i].(free := [a])], stocks[a := Stock(i, [], 0, 0)])
    ensures forall p :: Live(slots[i := slots[i].(free := [a])], stocks[a := Stock(i, [], 0, 0)], p) <==>
      Live(slots, stocks, p)
  {
    var slots', stocks' := slots[i := slots[i].(free := [a])], stocks[a := Stock(i, [], 0, 0)];
    NewStockStocks(slots, stocks, i, a);
    NewStockLists(slots, stocks, i, a);
    forall p
      ensures Live(slots', stocks', p) <==> Live(slots, stocks, p)
    {
      forall b | b != a
        ensures LiveIn(slots', stocks', b, p) <==> LiveIn(slots, stocks, b, p)
      {
        if b in stocks {
          SameChunks(slots[stocks[b].slot], slots'[stocks[b].slot], b, stocks[b]);
        }
      }
      assert !LiveIn(slots', stocks', a, p) && !LiveIn(slots, stocks, a, p);
    }
  }

  /** Which addresses are chunks depends on the sizes only. */
  lemma SameChunks(z: Slot, z': Slot, a: Ptr, k: Stock)
    requires z'.chunkSize == z.chunkSize && z'.chunkCount == z.chunkCount
    ensures forall p :: IsChunk(z', a, k, p) <==> IsChunk(z, a, k, p)
    ensures StockOk(z', a, k) <==> StockOk(z, a, k)
  {
    assert forall p :: IsChunk(z', a, k, p) <==> IsChunk(z, a, k, p);
  }

  lemma NewStockStocks(slots: Slots, stocks: Stocks, i: nat, a: Ptr)
    requires StocksOk(slots, stocks) && Apart(slots, stocks) && i < |slots| && RoomFor(slots, stocks, i, a)
    ensures var slots', stocks' := slots[i := slots[i].(free := [a])], stocks[a := Stock(i, [], 0, 0)];
      a !in stocks && StocksOk(slots', stocks') && Apart(slots', stocks')
  {
    var slots', stocks' := slots[i := slots[i].(free := [a])], stocks[a := Stock(i, [], 0, 0)];
    assert a !in stocks;
    assert forall b :: b in stocks ==> StockSize(slots'[stocks[b].slot]) == StockSize(slots[stocks[b].slot]);
    forall b | b in stocks
      ensures StockOk(slots'[stocks'[b].slot], b, stocks'[b])
    {
      SameChunks(slots[stocks[b].slot], slots'[stocks[b].slot], b, stocks[b]);
    }
  }

  lemma NewStockLists(slots: Slots, stocks: Stocks, i: nat, a: Ptr)
    requires PoolOk(slots, stocks) && i < |slots| && slots[i].free == [] && a !in stocks
    ensures var slots', stocks' := slots[i := slots[i].(free := [a])], stocks[a := Stock(i, [], 0, 0)];
      ListsOk(slots', stocks') && OneSpare(stocks')
  {
    var slots', stocks' := slots[i := slots[i].(free := [a])], stocks[a := Stock(i, [], 0, 0)];
    forall n, b | 0 <= n < |slots'|
      ensures b in slots'[n].full <==> b in stocks' && stocks'[b].slot == n && Exhausted(slots'[n], stocks'[b])
      ensures b in slots'[n].free <==> b in stocks' && stocks'[b].slot == n && !Exhausted(slots'[n], stocks'[b])
    {
      assert b in slots[n].full <==> b in stocks && stocks[b].slot == n && Exhausted(slots[n], stocks[b]);
      assert b in slots[n].free <==> b in stocks && stocks[b].slot == n && !Exhausted(slots[n], stocks[b]);
    }
    forall b | b in stocks && stocks[b].slot == i
      ensures !Unused(stocks[b])
    {
      assert b !in slots[i].free;
      assert Exhausted(slots[i], stocks[b]);
    }
  }

  // ---- counting ----

  ghost function AllChunks(a: Ptr, size: nat, n: nat): set<Ptr> {
    if n == 0 then {} else AllChunks(a, size, n - 1) + {ChunkAt(a, size, n - 1)}
  }

  lemma {:induction false} AllChunksAre(z: Slot, a: Ptr, n: nat)
    requires z.chunkSize > 0
    ensures |AllChunks(a, z.chunkSize, n)| == n
    ensures forall p :: p in AllChunks(a, z.chunkSize, n) <==> exists j :: 0 <= j < n && p == ChunkAt(a, z.chunkSize, j)
  {
    if n > 0 {
      AllChunksAre(z, a, n - 1);
      var q := ChunkAt(a, z.chunkSize, n - 1);
      if q in AllChunks(a, z.chunkSize, n - 1) {
        var j :| 0 <= j < n - 1 && q == ChunkAt(a, z.chunkSize, j);
        ChunkInjective(z, a, j, n - 1);
      }
      forall p
        ensures p in AllChunks(a, z.chunkSize, n) <==> exists j :: 0 <= j < n && p == ChunkAt(a, z.chunkSize, j)
      {
        if exists j :: 0 <= j < n && p == ChunkAt(a, z.chunkSize, j) {
          var j :| 0 <= j < n && p == ChunkAt(a, z.chunkSize, j);
          assert j < n - 1 || p == q;
        }
      }
    }
  }

  ghost function Elements(s: seq<Ptr>): set<Ptr> {
    set p | p in s
  }

  lemma {:induction false} ElementsCount(s: seq<Ptr>)
    requires NoRepeat(s)
    ensures |Elements(s)| == |s|
  {
    if s != [] {
      var t := s[..|s| - 1];
      ElementsCount(t);
      assert Elements(s) == Elements(t) + {s[|s| - 1]};
    }
  }

  ghost function LiveOf(z: Slot, a: Ptr, k: Stock): set<Ptr> {
    AllChunks(a, z.chunkSize, k.index) - Elements(k.recycle)
  }

  /** The live chunks of a stock number index - recycnt. */
  lemma LiveCount(z: Slot, a: Ptr, k: Stock)
    requires StockOk(z, a, k) && z.chunkSize > 0
    ensures forall p :: p in LiveOf(z, a, k) <==> IsChunk(z, a, k, p) && p !in k.recycle
    ensures |LiveOf(z, a, k)| == k.index - k.recycnt
  {
    AllChunksAre(z, a, k.index);
    ElementsCount(k.recycle);
    assert Elements(k.recycle) <= AllChunks(a, z.chunkSize, k.index);
  }

  /** A stock is wholly unused exactly when none of its chunks is live. */
  lemma UnusedMeansNoneLive(z: Slot, a: Ptr, k: Stock)
    requires StockOk(z, a, k) && z.chunkSize > 0
    ensures k.recycnt <= k.index
    ensures Unused(k) <==> forall p :: !(IsChunk(z, a, k, p) && p !in k.recycle)
  {
    LiveCount(z, a, k);
    if forall p :: !(IsChunk(z, a, k, p) && p !in k.recycle) {
      assert LiveOf(z, a, k) == {};
    }
    if Unused(k) {
      assert LiveOf(z, a, k) == {};
    }
  }

  /** And exhausted exactly when all its chunks are. */
  lemma ExhaustedMeansAllLive(z: Slot, a: Ptr, k: Stock)
    requires StockOk(z, a, k) && z.chunkSize > 0
    ensures Exhausted(z, k) <==> |LiveOf(z, a, k)| == z.chunkCount
  {
    LiveCount(z, a, k);
  }

  lemma TakenOk(slots: Slots, stocks: Stocks, a: Ptr, k: Stock, p: Ptr)
    requires PoolOk(slots, stocks) && a in stocks && k.slot == stocks[a].slot
    requires !Exhausted(slots[k.slot], stocks[a])
    requires StockOk(slots[k.slot], a, k) && Handed(slots[k.slot], a, k, p)
    ensures var z := slots[k.slot];
      var slots', stocks' := slots[k.slot := Relisted(z, a, false, Exhausted(z, k))], stocks[a := k];
      PoolOk(slots', stocks') && OneStock(slots, stocks, slots', stocks', a)
  {
    var z := slots[k.slot];
    var slots', stocks' := slots[k.slot := Relisted(z, a, false, Exhausted(z, k))], stocks[a := k];
    SameChunks(z, slots'[k.slot], a, k);
    OneStockOk(slots, stocks, slots', stocks', a);
    RelistedOk(slots, stocks, stocks', a);
    UnusedMeansNoneLive(z, a, k);
  }

  lemma TakenLive(slots: Slots, stocks: Stocks, a: Ptr, k: Stock, p: Ptr)
    requires StocksOk(slots, stocks) && Apart(slots, stocks) && a in stocks && k.slot == stocks[a].slot
    requires var z := slots[k.slot];
      && StockOk(z, a, k) && Handed(z, a, k, p) && !Handed(z, a, stocks[a], p)
      && forall q :: Handed(z, a, k, q) <==> q == p || Handed(z, a, stocks[a], q)
    ensures var z := slots[k.slot];
      var slots', stocks' := slots[k.slot := Relisted(z, a, false, Exhausted(z, k))], stocks[a := k];
      LiveIn(slots', stocks', a, p) && LiveChange(slots, stocks, slots', stocks', p, true) && !Live(slots, stocks, p)
  {
    var z := slots[k.slot];
    var slots', stocks' := slots[k.slot := Relisted(z, a, false, Exhausted(z, k))], stocks[a := k];
    SameChunks(z, slots'[k.slot], a, k);
    ChunkWithin(z, a, k, p);
    HandedLive(slots, stocks, slots', stocks', a);
    assert Handed(z, a, k, p);
    LiveChanged(slots, stocks, slots', stocks', a, p, true);
    NotLiveElsewhere(slots, stocks, a, p);
  }

  lemma HandedLive(slots: Slots, stocks: Stocks, slots': Slots, stocks': Stocks, a: Ptr)
    requires OneStock(slots, stocks, slots', stocks', a)
    ensures forall q :: LiveIn(slots, stocks, a, q) <==> Handed(slots[stocks[a].slot], a, stocks[a], q)
    ensures forall q :: LiveIn(slots', stocks', a, q) <==> Handed(slots[stocks[a].slot], a, stocks'[a], q)
  {
    SameChunks(slots[stocks[a].slot], slots'[stocks[a].slot], a, stocks'[a]);
  }

  lemma NotLiveElsewhere(slots: Slots, stocks: Stocks, a: Ptr, p: Ptr)
    requires StocksOk(slots, stocks) && Apart(slots, stocks) && a in stocks
    requires Within(slots[stocks[a].slot], a, p) && !LiveIn(slots, stocks, a, p)
    ensures !Live(slots, stocks, p)
  {
    if Live(slots, stocks, p) {
      var b :| LiveIn(slots, stocks, b, p);
      ElsewhereNot(slots, stocks, a, b, p, p);
    }
  }

  ghost predicate Handed(z: Slot, a: Ptr, k: Stock, p: Ptr) {
    IsChunk(z, a, k, p) && p !in k.recycle
  }

  // ---- giving back ----

  lemma LiveFound(slots: Slots, stocks: Stocks, a: Ptr, p: Ptr)
    requires StocksOk(slots, stocks) && Live(slots, stocks, p)
    requires forall b :: b in stocks && Within(slots[stocks[b].slot], b, p) ==> b == a
    ensures LiveIn(slots, stocks, a, p)
  {
    var b :| LiveIn(slots, stocks, b, p);
    ChunkWithin(slots[stocks[b].slot], b, stocks[b], p);
  }

  function Returned(k: Stock, p: Ptr): Stock {
    k.(recycnt := k.recycnt + 1, recycle := [p] + k.recycle)
  }

  /** The stock is unused then exactly if that was its last live chunk. */
  lemma GivenBack(slots: Slots, stocks: Stocks, a: Ptr, p: Ptr)
    requires StocksOk(slots, stocks) && LiveIn(slots, stocks, a, p)
    ensures Unused(Returned(stocks[a], p)) <==> LastLive(slots, stocks, a, p)
  {
    var z, k := slots[stocks[a].slot], Returned(stocks[a], p);
    ReturnedChunk(z, a, stocks[a], p);
    UnusedMeansNoneLive(z, a, k);
    if Unused(k) {
      forall q | LiveIn(slots, stocks, a, q)
        ensures q == p
      {
        assert Handed(z, a, stocks[a], q) && !Handed(z, a, k, q);
      }
    }
    if LastLive(slots, stocks, a, p) {
      forall q
        ensures !(IsChunk(z, a, k, q) && q !in k.recycle)
      {
        assert Handed(z, a, k, q) <==> q != p && Handed(z, a, stocks[a], q);
        assert LiveIn(slots, stocks, a, q) <==> Handed(z, a, stocks[a], q);
      }
    }
  }

  /** After the chunk is back: whether its stock goes, in terms of the pool before. */
  lemma GoesIf(slots: Slots, stocks: Stocks, slots': Slots, stocks': Stocks, a: Ptr, p: Ptr)
    requires StocksOk(slots, stocks) && LiveIn(slots, stocks, a, p)
    requires SameSizes(slots, slots') && stocks' == stocks[a := Returned(stocks[a], p)]
    ensures Unused(stocks'[a]) && RoomElsewhere(slots', stocks', a) <==>
      LastLive(slots, stocks, a, p) && RoomElsewhere(slots, stocks, a)
  {
    GivenBack(slots, stocks, a, p);
    ElsewhereSame(slots, stocks, slots', stocks', a);
  }

  lemma ElsewhereSame(slots: Slots, stocks: Stocks, slots': Slots, stocks': Stocks, a: Ptr)
    requires OneStock(slots, stocks, slots', stocks', a)
    ensures RoomElsewhere(slots', stocks', a) <==> RoomElsewhere(slots, stocks, a)
  {
    var i := stocks[a].slot;
    assert forall b :: b in stocks && b != a ==> Exhausted(slots'[i], stocks'[b]) == Exhausted(slots[i], stocks[b]);
  }

  lemma TwoFree(slots: Slots, stocks: Stocks, a: Ptr)
    requires StocksOk(slots, stocks) && ListsOk(slots, stocks) && a in stocks
    requires !Exhausted(slots[stocks[a].slot], stocks[a])
    ensures |slots[stocks[a].slot].free| >= 2 <==> RoomElsewhere(slots, stocks, a)
  {
    var i := stocks[a].slot;
    assert a in slots[i].free;
    if |slots[i].free| >= 2 {
      assert slots[i].free[0] != slots[i].free[1];
      var b := if slots[i].free[0] == a then slots[i].free[1] else slots[i].free[0];
      assert b in slots[i].free;
      assert b in stocks && b != a && stocks[b].slot == i && !Exhausted(slots[i], stocks[b]);
    }
    if RoomElsewhere(slots, stocks, a) {
      var b :| b in stocks && b != a && stocks[b].slot == i && !Exhausted(slots[i], stocks[b]);
      assert b in slots[i].free;
      var j :| 0 <= j < |slots[i].free| && slots[i].free[j] == a;
      var k :| 0 <= k < |slots[i].free| && slots[i].free[k] == b;
      assert j != k;
    }
  }

  /** All is well but that stock `a`, different in `before`, may be one wholly unused stock too many. */
  ghost predicate Loose(slots: Slots, stocks: Stocks, a: Ptr, before: Stocks) {
    && StocksOk(slots, stocks) && Apart(slots, stocks) && ListsOk(slots, stocks) && OneSpare(before)
    && a in stocks && before.Keys == stocks.Keys && before[a].slot == stocks[a].slot
    && !Exhausted(slots[stocks[a].slot], stocks[a])
    && forall b :: b in stocks && b != a ==> stocks[b] == before[b]
  }

  lemma ReturnedOk(slots: Slots, stocks: Stocks, a: Ptr, p: Ptr)
    requires PoolOk(slots, stocks) && LiveIn(slots, stocks, a, p)
    ensures var i, k := stocks[a].slot, Returned(stocks[a], p);
      var slots', stocks' := slots[i := Relisted(slots[i], a, Exhausted(slots[i], stocks[a]), false)], stocks[a := k];
      && Loose(slots', stocks', a, stocks) && SameSizes(slots, slots')
      && LiveChange(slots, stocks, slots', stocks', p, false)
  {
    var i, k := stocks[a].slot, Returned(stocks[a], p);
    var z := slots[i];
    var slots', stocks' := slots[i := Relisted(z, a, Exhausted(z, stocks[a]), false)], stocks[a := k];
    ReturnedChunk(z, a, stocks[a], p);
    SameChunks(z, slots'[i], a, k);
    OneStockOk(slots, stocks, slots', stocks', a);
    RelistedOk(slots, stocks, stocks', a);
    HandedLive(slots, stocks, slots', stocks', a);
    ChunkWithin(z, a, stocks[a], p);
    LiveChanged(slots, stocks, slots', stocks', a, p, false);
  }

  /** Kept in the free list, the stock is the only wholly unused one of its slot, or not unused. */
  lemma KeptOk(slots: Slots, stocks: Stocks, a: Ptr, before: Stocks)
    requires StocksOk(slots, stocks) && Apart(slots, stocks) && ListsOk(slots, stocks) && OneSpare(before)
    requires a in stocks && before.Keys == stocks.Keys && before[a].slot == stocks[a].slot
    requires forall b :: b in stocks && b != a ==> stocks[b] == before[b]
    requires Unused(stocks[a]) ==> |slots[stocks[a].slot].free| < 2
    requires !Exhausted(slots[stocks[a].slot], stocks[a])
    ensures PoolOk(slots, stocks)
  {
    var i := stocks[a].slot;
    if Unused(stocks[a]) {
      forall b | b in stocks && b != a && stocks[b].slot == i
        ensures !Unused(stocks[b])
      {
        assert a in slots[i].free;
        OnlyOne(slots[i].free, a, b);
        assert Exhausted(slots[i], stocks[b]);
      }
    }
  }

  lemma OnlyOne(s: seq<Ptr>, a: Ptr, b: Ptr)
    requires |s| < 2 && a in s && a != b
    ensures b !in s
  {
  }

  lemma DroppedOk(slots: Slots, stocks: Stocks, a: Ptr, before: Stocks)
    requires StocksOk(slots, stocks) && Apart(slots, stocks) && ListsOk(slots, stocks) && OneSpare(before)
    requires a in stocks && before.Keys == stocks.Keys && !Exhausted(slots[stocks[a].slot], stocks[a])
    requires forall b :: b in stocks && b != a ==> stocks[b] == before[b]
    ensures var i := stocks[a].slot;
      PoolOk(slots[i := slots[i].(free := Without(slots[i].free, a))], stocks - {a})
  {
    DroppedStocks(slots, stocks, a);
    DroppedLists(slots, stocks, a);
  }

  lemma DroppedStocks(slots: Slots, stocks: Stocks, a: Ptr)
    requires StocksOk(slots, stocks) && Apart(slots, stocks) && a in stocks
    ensures var i := stocks[a].slot;
      var slots', stocks' := slots[i := slots[i].(free := Without(slots[i].free, a))], stocks - {a};
      StocksOk(slots', stocks') && Apart(slots', stocks')
  {
    var i := stocks[a].slot;
    var slots', stocks' := slots[i := slots[i].(free := Without(slots[i].free, a))], stocks - {a};
    forall b | b in stocks'
      ensures StockOk(slots'[stocks'[b].slot], b, stocks'[b])
    {
      SameChunks(slots[stocks[b].slot], slots'[stocks[b].slot], b, stocks[b]);
    }
  }

  lemma DroppedLists(slots: Slots, stocks: Stocks, a: Ptr)
    requires StocksOk(slots, stocks) && ListsOk(slots, stocks) && a in stocks
    requires !Exhausted(slots[stocks[a].slot], stocks[a])
    ensures var i := stocks[a].slot;
      ListsOk(slots[i := slots[i].(free := Without(slots[i].free, a))], stocks - {a})
  {
    var i := stocks[a].slot;
    WithoutKeeps(slots[i].free, a);
    var slots', stocks' := slots[i := slots[i].(free := Without(slots[i].free, a))], stocks - {a};
    forall n, b | 0 <= n < |slots'|
      ensures b in slots'[n].full <==> b in stocks' && stocks'[b].slot == n && Exhausted(slots'[n], stocks'[b])
      ensures b in slots'[n].free <==> b in stocks' && stocks'[b].slot == n && !Exhausted(slots'[n], stocks'[b])
    {
      assert b in slots[n].full <==> b in stocks && stocks[b].slot == n && Exhausted(slots[n], stocks[b]);
      assert b in slots[n].free <==> b in stocks && stocks[b].slot == n && !Exhausted(slots[n], stocks[b]);
    }
  }

  /** A released stock has no live chunk. */
  lemma DroppedLive(slots: Slots, stocks: Stocks, a: Ptr)
    requires StocksOk(slots, stocks) && a in stocks && Unused(stocks[a])
    ensures forall q :: !LiveIn(slots, stocks, a, q)
    ensures var i := stocks[a].slot;
      var slots', stocks' := slots[i := slots[i].(free := Without(slots[i].free, a))], stocks - {a};
      forall q :: Live(slots', stocks', q) <==> Live(slots, stocks, q)
  {
    var i := stocks[a].slot;
    var slots', stocks' := slots[i := slots[i].(free := Without(slots[i].free, a))], stocks - {a};
    UnusedMeansNoneLive(slots[i], a, stocks[a]);
    forall q
      ensures !LiveIn(slots, stocks, a, q)
      ensures Live(slots', stocks', q) <==> Live(slots, stocks, q)
    {
      forall b | b != a
        ensures LiveIn(slots', stocks', b, q) <==> LiveIn(slots, stocks, b, q)
      {
        if b in stocks {
          SameChunks(slots[stocks[b].slot], slots'[stocks[b].slot], b, stocks[b]);
        }
      }
    }
  }

  lemma NewSlotOk(slots: Slots, stocks: Stocks, z: Slot)
    requires PoolOk(slots, stocks) && z.chunkSize >= LINK && z.chunkCount > 0 && z.full == [] && z.free == []
    ensures PoolOk(slots + [z], stocks)
    ensures forall q :: Live(slots + [z], stocks, q) <==> Live(slots, stocks, q)
  {
    forall q
      ensures Live(slots + [z], stocks, q) <==> Live(slots, stocks, q)
    {
      assert forall b :: LiveIn(slots + [z], stocks, b, q) <==> LiveIn(slots, stocks, b, q);
    }
  }

  // ---- which slot serves a size ----

  /** The size of slot `i` before rounding. */
  function SlotSize(start: nat, diff: nat, i: nat): nat {
    start + i * diff
  }

  /** The slots of mem_pool_create: slot i serves chunks of start + i * diff bytes, rounded up. */
  ghost predicate Sized(slots: Slots, start: nat, diff: nat) {
    |slots| < 0x8000_0000 && forall i :: 0 <= i < |slots| ==> slots[i].chunkSize == Rounded(SlotSize(start, diff, i))
  }

  /** The conversion of a size_t to an int: the low 32 bits, read as a signed number. */
  function ToInt(n: nat): int {
    var w := n % 0x1_0000_0000;
    if w < 0x8000_0000 then w else w - 0x1_0000_0000
  }

  /** The conversion of an int to a size_t, where it is compared with one. */
  function ToSize(i: int): int {
    if i < 0 then i + 0x1_0000_0000 * 0x1_0000_0000 else i
  }

  datatype Choice = TooLarge | PastEnd | Use(slot: nat)

  /** What mem_pool_alloc does for a size: refuse it, index past the slots, or use a slot. */
  function Chosen(size: nat, diff: nat, count: nat): Choice
    requires diff > 0
  {
    var index := ToInt(size / diff);
    if ToSize(index) > count then TooLarge else if 0 <= index < count then Use(index) else PastEnd
  }

  /** The size is refused, or a chunk of the slot is large enough for it. */
  predicate Served(size: nat, start: nat, diff: nat, count: nat)
    requires diff > 0
  {
    var c := Chosen(size, diff, count);
    c.TooLarge? || (c.Use? && Rounded(SlotSize(start, diff, c.slot)) >= size)
  }

  /** The quotient, cut to 32 bits. */
  function Cut(size: nat, diff: nat): nat
    requires diff > 0
  {
    size / diff % 0x1_0000_0000
  }

  /** The guard and the index in its terms. */
  lemma IndexIs(size: nat, start: nat, diff: nat, count: nat)
    requires diff > 0 && count < 0x8000_0000
    ensures ToSize(ToInt(size / diff)) > count <==> Cut(size, diff) > count
    ensures Cut(size, diff) <= count ==> ToInt(size / diff) == Cut(size, diff)
    ensures Cut(size, diff) < count ==>
      (Served(size, start, diff, count) <==> Rounded(SlotSize(start, diff, Cut(size, diff))) >= size)
  {
  }

  /** The guard admits exactly the sizes whose quotient, cut to 32 bits, is the number of slots. */
  lemma GuardAdmits(size: nat, diff: nat, count: nat)
    requires diff > 0 && count < 0x8000_0000
    ensures Chosen(size, diff, count).PastEnd? <==> Cut(size, diff) == count
    ensures Chosen(size, diff, count).Use? <==> Cut(size, diff) < count
  {
  }

  /**
   A size is served exactly if its quotient q, cut to w, is above the number of slots, or below it with
   the bytes cut off, and the remainder, within the slot's first size and its rounding.
   */
  lemma ServedExactly(size: nat, start: nat, diff: nat, count: nat)
    requires diff > 0 && count < 0x8000_0000
    ensures var q, w := size / diff, size / diff % 0x1_0000_0000;
      Served(size, start, diff, count) <==>
        w > count || (w < count && (q - w) * diff + size % diff <= Rounded(start + w * diff) - w * diff)
  {
    var q, w := size / diff, size / diff % 0x1_0000_0000;
    assert size == q * diff + size % diff;
    assert (q - w) * diff == q * diff - w * diff;
  }

  /** With diff <= start + 1 every size below the end of the slots is served, and only a cut quotient can spoil it. */
  lemma ServedUncut(size: nat, start: nat, diff: nat, count: nat)
    requires 0 < diff <= start + 1 && count < 0x8000_0000 && size / diff < 0x1_0000_0000 && size / diff != count
    ensures Served(size, start, diff, count)
  {
    var q := size / diff;
    assert q % 0x1_0000_0000 == q;
    assert size == q * diff + size % diff;
    ServedExactly(size, start, diff, count);
  }

  /** One slot too far: with 4 slots 64 bytes apart, 256 bytes index slots[4]. */
  lemma PastTheSlots()
    ensures Chosen(256, 64, 4) == PastEnd
  {
  }

  /** A quotient of 2^32 is cut to 0, and a chunk of the smallest slot is handed out for it. */
  lemma CutQuotient()
    ensures Chosen(0x1_0000_0000 * 64, 64, 4) == Use(0) && !Served(0x1_0000_0000 * 64, 64, 64, 4)
  {
  }

  /** With slots further apart than the first size, 60 bytes are served with 8. */
  lemma WideSteps()
    ensures Chosen(60, 64, 4) == Use(0) && Rounded(8) == 8 && !Served(60, 8, 64, 4)
  {
  }
}
