/**
 Subscriptions of ipc/ipc_server.c: a peer with a mask of topics owns one node per set bit, and a
 synchronised peer's nodes hang in the buckets of its bits.
 */
module Topics {
  import opened Trees
  import opened Bits
  import opened Sequences

  /** The number of bits of an unsigned long, and of buckets. */
  const WORD: nat := 64

  /** `nodes[j]` is the `sevr` field of node j: NULL until the peer synchronises. */
  datatype Peer = Peer(mask: nat, identity: int, nodes: seq<Ptr>)

  /** The node `peer->node[index]`, as it is linked in a bucket. */
  datatype IpcNode = IpcNode(peer: Ptr, index: nat)

  type Peers = map<Ptr, Peer>

  function NodeFor(peers: Peers, p: Ptr, i: nat): IpcNode
    requires p in peers
  {
    IpcNode(p, Rank(peers[p].mask, i))
  }

  /** The nodes of the peers in `order` that subscribe to bit `i`. */
  function Bucket(peers: Peers, order: seq<Ptr>, i: nat): seq<IpcNode>
    requires forall p :: p in order ==> p in peers
  {
    if order == [] then []
    else
      var p := order[|order| - 1];
      Bucket(peers, order[..|order| - 1], i) + if Bit(peers[p].mask, i) then [NodeFor(peers, p, i)] else []
  }

  /** The synchronised peers that subscribe to bit `i`, oldest first. */
  function Subscribers(peers: Peers, order: seq<Ptr>, i: nat): seq<Ptr>
    requires forall p :: p in order ==> p in peers
  {
    if order == [] then []
    else
      var p := order[|order| - 1];
      Subscribers(peers, order[..|order| - 1], i) + if Bit(peers[p].mask, i) then [p] else []
  }

  lemma BucketLast(peers: Peers, order: seq<Ptr>, q: Ptr, i: nat)
    requires q in peers && forall p :: p in order ==> p in peers
    ensures forall p :: p in order + [q] ==> p in peers
    ensures Bucket(peers, order + [q], i) ==
      Bucket(peers, order, i) + if Bit(peers[q].mask, i) then [NodeFor(peers, q, i)] else []
  {
    assert (order + [q])[..|order|] == order;
  }

  /** A peer that has gone leaves the bucket to the others; only its node of that bit was there. */
  lemma {:induction false} BucketWithout(peers: Peers, order: seq<Ptr>, p: Ptr, i: nat)
    requires forall q :: q in order ==> q in peers
    requires p in peers
    ensures forall q :: q in Without(order, p) ==> q in order
    ensures Bucket(peers, Without(order, p), i) ==
            if Bit(peers[p].mask, i) then Without(Bucket(peers, order, i), NodeFor(peers, p, i))
            else Bucket(peers, order, i)
  {
    WithoutIs(order, p);
    if order != [] {
      var n := |order| - 1;
      var q := order[n];
      WithoutIs(order[..n], p);
      BucketWithout(peers, order[..n], p, i);
      if Bit(peers[q].mask, i) {
        WithoutLast(Bucket(peers, order[..n], i), NodeFor(peers, q, i), NodeFor(peers, p, i));
      } else {
        assert Bucket(peers, order, i) == Bucket(peers, order[..n], i);
      }
      if q != p {
        BucketLast(peers, Without(order[..n], p), q, i);
      }
    }
  }

  /** Only peers of the order are in a bucket, each with the node of that bit. */
  lemma {:induction false} InBucket(peers: Peers, order: seq<Ptr>, i: nat, x: IpcNode)
    requires forall q :: q in order ==> q in peers
    ensures x in Bucket(peers, order, i) <==>
      x.peer in order && Bit(peers[x.peer].mask, i) && x == NodeFor(peers, x.peer, i)
  {
    if order != [] {
      InBucket(peers, order[..|order| - 1], i, x);
    }
  }

  /** The bucket names the subscribers. */
  lemma {:induction false} BucketPeers(peers: Peers, order: seq<Ptr>, i: nat)
    requires forall q :: q in order ==> q in peers
    ensures |Bucket(peers, order, i)| == |Subscribers(peers, order, i)|
    ensures forall k :: 0 <= k < |Bucket(peers, order, i)| ==>
      Bucket(peers, order, i)[k].peer == Subscribers(peers, order, i)[k]
    ensures forall x :: x in Bucket(peers, order, i) ==> x.peer in order
  {
    if order != [] {
      BucketPeers(peers, order[..|order| - 1], i);
    }
  }

  /** Changing a peer outside the order changes no bucket, nor does changing what is not its mask. */
  lemma {:induction false} BucketFrame(peers: Peers, peers': Peers, order: seq<Ptr>, i: nat)
    requires forall q :: q in order ==> q in peers && q in peers' && peers'[q].mask == peers[q].mask
    ensures Bucket(peers', order, i) == Bucket(peers, order, i)
  {
    if order != [] {
      BucketFrame(peers, peers', order[..|order| - 1], i);
    }
  }

  /** Exactly the subscribers of bit `i`, in the order in which they synchronised. */
  lemma {:induction false} SubscribersAre(peers: Peers, order: seq<Ptr>, i: nat)
    requires forall q :: q in order ==> q in peers
    ensures forall p :: p in Subscribers(peers, order, i) <==> p in order && Bit(peers[p].mask, i)
    ensures NoRepeat(order) ==> NoRepeat(Subscribers(peers, order, i))
    ensures forall j, k :: 0 <= j < k < |Subscribers(peers, order, i)| ==>
      Earlier(order, Subscribers(peers, order, i)[j], Subscribers(peers, order, i)[k])
  {
    if order != [] {
      var n := |order| - 1;
      assert order == order[..n] + [order[n]];
      SubscribersAre(peers, order[..n], i);
      assert NoRepeat(order) ==> order[n] !in order[..n];
      EarlierLast(order[..n], order[n], Subscribers(peers, order[..n], i), Subscribers(peers, order, i));
    }
  }

  /** `p` stands before `q` in the list. */
  ghost predicate Earlier(s: seq<Ptr>, p: Ptr, q: Ptr) {
    exists a, b :: 0 <= a < b < |s| && s[a] == p && s[b] == q
  }

  lemma EarlierOn(s: seq<Ptr>, t: seq<Ptr>, p: Ptr, q: Ptr)
    requires Earlier(s, p, q)
    ensures Earlier(s + t, p, q)
  {
    var a, b :| 0 <= a < b < |s| && s[a] == p && s[b] == q;
    assert (s + t)[a] == p && (s + t)[b] == q;
  }

  lemma EarlierLast(o: seq<Ptr>, q: Ptr, s: seq<Ptr>, t: seq<Ptr>)
    requires (forall p :: p in s ==> p in o) && (t == s || t == s + [q])
    requires forall j, k :: 0 <= j < k < |s| ==> Earlier(o, s[j], s[k])
    ensures forall j, k :: 0 <= j < k < |t| ==> Earlier(o + [q], t[j], t[k])
  {
    forall j, k | 0 <= j < k < |t|
      ensures Earlier(o + [q], t[j], t[k])
    {
      if k < |s| {
        EarlierOn(o, [q], s[j], s[k]);
      } else {
        assert s[j] in s;
        var a :| 0 <= a < |o| && o[a] == s[j];
        assert (o + [q])[a] == t[j] && (o + [q])[|o|] == t[k];
      }
    }
  }

  lemma SomebodyIn(s: seq<Ptr>)
    requires s != []
    ensures exists p :: p in s
  {
    assert s[0] in s;
  }

  /** A node hangs in one bucket only. */
  lemma OneBucket(peers: Peers, order: seq<Ptr>, x: IpcNode, i: nat, k: nat)
    requires forall q :: q in order ==> q in peers
    requires x in Bucket(peers, order, i) && x in Bucket(peers, order, k)
    ensures i == k
  {
    InBucket(peers, order, i, x);
    InBucket(peers, order, k, x);
    if i < k {
      RankMonotone(peers[x.peer].mask, i, k);
    } else if k < i {
      RankMonotone(peers[x.peer].mask, k, i);
    }
  }

  /** `node[bit_count(mask & (topic - 1))]` is the peer's one node in the bucket of the topic. */
  lemma NodeOfTopic(peers: Peers, order: seq<Ptr>, p: Ptr, i: nat)
    requires forall q :: q in order ==> q in peers
    requires p in order && Bit(peers[p].mask, i)
    ensures Pow2(i) > 0
    ensures forall x :: x in Bucket(peers, order, i) && x.peer == p <==>
      x == IpcNode(p, Ones(And(peers[p].mask, Pow2(i) - 1)))
    ensures Ones(And(peers[p].mask, Pow2(i) - 1)) < Ones(peers[p].mask)
  {
    LowOnes(peers[p].mask, i);
    RankBelow(peers[p].mask, i);
    forall x
      ensures x in Bucket(peers, order, i) <==>
        x.peer in order && Bit(peers[x.peer].mask, i) && x == NodeFor(peers, x.peer, i)
    {
      InBucket(peers, order, i, x);
    }
  }

  /** topic_check. */
  predicate TopicCheck(topic: nat) {
    topic == 0 || And(topic, topic - 1) == 0
  }

  /** The bucket for a topic: that of its one bit, and bucket 0 for no bit at all. */
  ghost predicate Names(topic: nat, i: nat) {
    topic == Pow2(i) || (topic == 0 && i == 0)
  }

  /** topic_check accepts exactly the topics of at most one bit, and that is their bucket. */
  lemma TopicCheckIs(topic: nat)
    ensures TopicCheck(topic) <==> exists i: nat :: Names(topic, i)
    ensures forall i: nat :: Names(topic, i) ==> i == TopicBit(topic)
  {
    if topic == 0 {
      assert Names(0, 0);
      forall i: nat
        ensures Pow2(i) > 0
      {
        PowerClear(i);
      }
    } else {
      SingleBit(topic);
      forall i: nat | topic == Pow2(i)
        ensures i == TopicBit(topic)
      {
        PowerClear(i);
        BitLengthUnique(topic, i + 1);
      }
      if i: nat :| topic == Pow2(i) {
        assert Names(topic, i);
      }
    }
  }

  /** The bucket of a topic: its bit, and bit 0 for the empty topic. */
  function TopicBit(topic: nat): nat {
    if topic == 0 then 0 else assert BitLength(topic) > 0; BitLength(topic) - 1
  }

  lemma TopicFits(topic: nat)
    requires TopicCheck(topic) && topic < Pow2(WORD)
    ensures TopicBit(topic) < WORD && (topic > 0 ==> topic == Pow2(TopicBit(topic)))
  {
    if topic > 0 {
      SinglePower(topic);
      BitLengthFits(topic, WORD);
    }
  }

  lemma TopicIndex(mask: nat, topic: nat)
    requires TopicCheck(topic) && And(mask, topic) != 0
    ensures topic > 0 && topic == Pow2(TopicBit(topic)) && Bit(mask, TopicBit(topic))
    ensures Ones(And(mask, topic - 1)) < Ones(mask)
  {
    AndZero(mask);
    SinglePower(topic);
    AndPower(mask, TopicBit(topic));
    LowOnes(mask, TopicBit(topic));
    RankBelow(mask, TopicBit(topic));
  }

  const BROADCAST: int := 0x7FFFFFFF

  /** The first peer of a list with the identity `to`. */
  function FirstNamed(peers: Peers, s: seq<Ptr>, to: int): seq<Ptr>
    requires forall p :: p in s ==> p in peers
  {
    if s == [] then [] else if peers[s[0]].identity == to then [s[0]] else FirstNamed(peers, s[1..], to)
  }

  lemma {:induction false} FirstNamedFrom(peers: Peers, s: seq<Ptr>, to: int, k: nat)
    requires k <= |s| && (forall p :: p in s ==> p in peers)
    requires forall j :: 0 <= j < k ==> peers[s[j]].identity != to
    ensures k == |s| ==> FirstNamed(peers, s, to) == []
    ensures k < |s| && peers[s[k]].identity == to ==> FirstNamed(peers, s, to) == [s[k]]
    decreases k
  {
    if k > 0 {
      assert forall p :: p in s[1..] ==> p in s;
      FirstNamedFrom(peers, s[1..], to, k - 1);
    }
  }

  class Broker {
    var peers: Peers
    /** core->node_hb: no buckets until the first peer. */
    var buckets: seq<seq<IpcNode>>
    /** The synchronised peers, in the order in which they did. */
    ghost var order: seq<Ptr>

    ghost predicate Valid()
      reads this
    {
      && (forall p :: p in order ==> p in peers) && NoRepeat(order)
      && (buckets == [] || |buckets| == WORD) && (peers != map[] ==> |buckets| == WORD)
      && (forall p :: p in peers ==> PeerOk(p, peers[p], p in order))
      && forall i :: 0 <= i < |buckets| ==> buckets[i] == Bucket(peers, order, i)
    }

    /** All nodes of a peer are set, or none is. */
    static ghost predicate PeerOk(p: Ptr, x: Peer, synced: bool) {
      && p != NULL && 0 < x.mask < Pow2(WORD) && |x.nodes| == Ones(x.mask)
      && forall j :: 0 <= j < |x.nodes| ==> x.nodes[j] == if synced then p else NULL
    }

    constructor ()
      ensures Valid() && peers == map[] && order == []
    {
      peers, buckets, order := map[], [], [];
    }

    /** ipc_server_register and ipc_peer_create: a mask of no topic is refused. */
    method Register(p: Ptr, mask: nat, identity: int) returns (ok: bool)
      requires Valid() && p != NULL && p !in peers && mask < Pow2(WORD)
      modifies this
      ensures Valid() && order == old(order) && ok == (mask != 0)
      ensures if ok then peers.Keys == old(peers.Keys) + {p} && peers[p].mask == mask && peers[p].identity == identity
        else peers == old(peers)
      ensures forall q :: q in old(peers) ==> peers[q] == old(peers[q])
    {
      if mask == 0 {
        return false;
      }
      var n := BitCount(mask);
      EnsureBuckets();
      var x := Peer(mask, identity, seq(n, _ => NULL));
      AddPeer(p, x);
      ok := true;
    }

    /** The new peer is linked nowhere yet. */
    method AddPeer(p: Ptr, x: Peer)
      requires Valid() && |buckets| == WORD && p !in peers && PeerOk(p, x, false)
      modifies this`peers
      ensures Valid() && peers == old(peers)[p := x]
    {
      BucketsFrame(peers, peers[p := x], order, buckets);
      peers := peers[p := x];
    }

    /** node_hash_bucket_init, for the first peer. */
    method EnsureBuckets()
      requires Valid()
      modifies this`buckets
      ensures Valid() && |buckets| == WORD
    {
      if buckets == [] {
        buckets := seq(WORD, _ => []);
        assert forall q :: q !in order;
      }
    }

    static lemma BucketsFrame(peers: Peers, peers': Peers, order: seq<Ptr>, buckets: seq<seq<IpcNode>>)
      requires forall q :: q in order ==> q in peers && q in peers' && peers'[q].mask == peers[q].mask
      requires forall i :: 0 <= i < |buckets| ==> buckets[i] == Bucket(peers, order, i)
      ensures forall i :: 0 <= i < |buckets| ==> buckets[i] == Bucket(peers', order, i)
    {
      forall i | 0 <= i < |buckets|
        ensures buckets[i] == Bucket(peers', order, i)
      {
        BucketFrame(peers, peers', order, i);
      }
    }

    /** One node: set its `sevr`, and link it at the end of a bucket. */
    method LinkNode(p: Ptr, i: nat, j: nat)
      requires p in peers && j < |peers[p].nodes| && i < |buckets|
      modifies this
      ensures order == old(order)
      ensures peers == old(peers)[p := old(peers[p]).(nodes := old(peers[p].nodes)[j := p])]
      ensures buckets == old(buckets)[i := old(buckets[i]) + [IpcNode(p, j)]]
    {
      peers := peers[p := peers[p].(nodes := peers[p].nodes[j := p])];
      buckets := buckets[i := buckets[i] + [IpcNode(p, j)]];
    }

    /** ipc_peer_node_init, when the peer's SYNC arrives. */
    method Sync(p: Ptr)
      requires Valid() && p in peers && p !in order
      modifies this
      ensures Valid() && order == old(order) + [p]
      ensures peers.Keys == old(peers.Keys)
      ensures forall q :: q in peers ==>
        peers[q].mask == old(peers[q].mask) && peers[q].identity == old(peers[q].identity)
    {
      LinkingStart(peers, order, p, buckets);
      LinkNodes(p);
      order := order + [p];
    }

    /** Its loop over the bits of the mask. */
    method LinkNodes(p: Ptr)
      requires p in peers && (forall q :: q in order ==> q in peers) && Linking(peers, order, p, 0, peers, buckets)
      modifies this
      ensures order == old(order) && p in peers && peers == old(peers)[p := old(peers[p]).(nodes := peers[p].nodes)]
      ensures |peers[p].nodes| == Ones(peers[p].mask)
      ensures forall k :: 0 <= k < |peers[p].nodes| ==> peers[p].nodes[k] == p
      ensures |buckets| == WORD && (forall q :: q in order + [p] ==> q in peers)
      ensures forall k :: 0 <= k < WORD ==> buckets[k] == Bucket(peers, order + [p], k)
    {
      ghost var order0, peers0 := order, peers;
      var i, j, mask := 0, 0, peers[p].mask;
      while mask != 0
        invariant p in peers && order == order0 && mask == Shift(peers0[p].mask, i) && j == Rank(peers0[p].mask, i)
        invariant Linking(peers0, order0, p, i, peers, buckets)
        decreases mask
      {
        LinkingBit(peers0, order0, p, i, peers, buckets);
        if mask % 2 == 1 {
          LinkNode(p, i, j);
        }
        ShiftBit(peers0[p].mask, i);
        RankStep(peers0[p].mask, i);
        j := j + mask % 2;
        mask, i := mask / 2, i + 1;
      }
      LinkingEnd(peers0, order0, p, i, peers, buckets);
    }

    static lemma LinkingStart(peers: Peers, order: seq<Ptr>, p: Ptr, buckets: seq<seq<IpcNode>>)
      requires p in peers && (forall q :: q in order ==> q in peers) && PeerOk(p, peers[p], false)
      requires |buckets| == WORD && forall i :: 0 <= i < |buckets| ==> buckets[i] == Bucket(peers, order, i)
      ensures Linking(peers, order, p, 0, peers, buckets)
    {
      assert peers == peers[p := peers[p].(nodes := peers[p].nodes)];
    }

    /** The nodes of `p` for the bits below `i` are linked. */
    static ghost predicate Linking(peers0: Peers, order: seq<Ptr>, p: Ptr, i: nat, peers: Peers,
      buckets: seq<seq<IpcNode>>)
      requires p in peers0 && forall q :: q in order ==> q in peers0
    {
      && p in peers && |buckets| == WORD && peers0[p].mask < Pow2(WORD)
      && peers == peers0[p := peers0[p].(nodes := peers[p].nodes)]
      && |peers[p].nodes| == Ones(peers0[p].mask) && Rank(peers0[p].mask, i) <= |peers[p].nodes|
      && (forall k :: 0 <= k < Rank(peers0[p].mask, i) ==> peers[p].nodes[k] == p)
      && (forall k :: 0 <= k < WORD ==> buckets[k] == Linked(peers0, order, p, k, i))
    }

    /** A bit that is not set needs nothing; a set one needs its node. */
    static lemma LinkingBit(peers0: Peers, order: seq<Ptr>, p: Ptr, i: nat, peers: Peers, buckets: seq<seq<IpcNode>>)
      requires p in peers0 && (forall q :: q in order ==> q in peers0) && Linking(peers0, order, p, i, peers, buckets)
      ensures !Bit(peers0[p].mask, i) ==> Linking(peers0, order, p, i + 1, peers, buckets)
      ensures Bit(peers0[p].mask, i) == (Shift(peers0[p].mask, i) % 2 == 1)
      ensures Bit(peers0[p].mask, i) ==>
        var j := Rank(peers0[p].mask, i);
        && i < WORD && j < |peers[p].nodes|
        && Linking(peers0, order, p, i + 1, peers[p := peers[p].(nodes := peers[p].nodes[j := p])],
                   buckets[i := buckets[i] + [IpcNode(p, j)]])
    {
      var m := peers0[p].mask;
      ShiftBit(m, i);
      RankStep(m, i);
      RankBelow(m, i);
      if Bit(m, i) {
        BitFits(m, i, WORD);
      }
    }

    static lemma LinkingEnd(peers0: Peers, order: seq<Ptr>, p: Ptr, i: nat, peers: Peers, buckets: seq<seq<IpcNode>>)
      requires p in peers0 && (forall q :: q in order ==> q in peers0) && Linking(peers0, order, p, i, peers, buckets)
      requires Shift(peers0[p].mask, i) == 0
      ensures forall k :: 0 <= k < |peers[p].nodes| ==> peers[p].nodes[k] == p
      ensures forall q :: q in order + [p] ==> q in peers
      ensures forall k :: 0 <= k < WORD ==> buckets[k] == Bucket(peers, order + [p], k)
    {
      RankAll(peers0[p].mask, i);
      forall k | 0 <= k < WORD
        ensures buckets[k] == Bucket(peers, order + [p], k)
      {
        LinkedAll(peers0, order, p, k, i);
        BucketFrame(peers0, peers, order + [p], k);
      }
    }

    /** A bucket while the nodes of `p` for the bits below `i` are linked. */
    static ghost function Linked(peers: Peers, order: seq<Ptr>, p: Ptr, k: nat, i: nat): seq<IpcNode>
      requires p in peers && forall q :: q in order ==> q in peers
    {
      Bucket(peers, order, k) + if k < i && Bit(peers[p].mask, k) then [NodeFor(peers, p, k)] else []
    }

    static lemma LinkedAll(peers: Peers, order: seq<Ptr>, p: Ptr, k: nat, i: nat)
      requires p in peers && (forall q :: q in order ==> q in peers) && Shift(peers[p].mask, i) == 0
      ensures forall q :: q in order + [p] ==> q in peers
      ensures Linked(peers, order, p, k, i) == Bucket(peers, order + [p], k)
    {
      if k >= i {
        ShiftZero(peers[p].mask, i, k);
      }
      BucketLast(peers, order, p, k);
    }

    /** ipc_release for a subscriber: unlink each node that was linked, then forget the peer. */
    method Release(p: Ptr)
      requires Valid() && p in peers
      modifies this
      ensures Valid() && peers == old(peers) - {p} && order == Without(old(order), p)
    {
      ghost var peers0, order0, mask := peers, order, peers[p].mask;
      var n := BitCount(peers[p].mask);
      var j := 0;
      while j < n
        invariant 0 <= j <= n && peers == peers0 && order == order0 && |buckets| == WORD
        invariant forall k :: 0 <= k < WORD ==> buckets[k] == Unlinked(peers0, order0, p, k, j)
      {
        if peers[p].nodes[j] != NULL {
          var b := buckets;
          buckets := seq(WORD, k requires 0 <= k < |b| => Without(b[k], IpcNode(p, j)));
        }
        forall k | 0 <= k < WORD
          ensures buckets[k] == Unlinked(peers0, order0, p, k, j + 1)
        {
          UnlinkStep(peers0, order0, p, k, j);
        }
        j := j + 1;
      }
      order := Without(order, p);
      peers := peers - {p};
      WithoutIs(order0, p);
      WithoutNoRepeat(order0, p);
      forall k | 0 <= k < WORD
        ensures buckets[k] == Bucket(peers, order, k)
      {
        RankBelow(mask, k);
        BucketWithout(peers0, order0, p, k);
        BucketFrame(peers0, peers, order, k);
      }
    }

    /** A bucket once the first `j` nodes of `p` are unlinked. */
    static ghost function Unlinked(peers: Peers, order: seq<Ptr>, p: Ptr, k: nat, j: nat): seq<IpcNode>
      requires p in peers && forall q :: q in order ==> q in peers
    {
      if Bit(peers[p].mask, k) && Rank(peers[p].mask, k) < j then Without(Bucket(peers, order, k), NodeFor(peers, p, k))
      else Bucket(peers, order, k)
    }

    /** Node `j` hangs in one bucket, if its peer is synchronised, and is taken out of that one. */
    static lemma UnlinkStep(peers: Peers, order: seq<Ptr>, p: Ptr, k: nat, j: nat)
      requires p in peers && forall q :: q in order ==> q in peers
      ensures Unlinked(peers, order, p, k, j + 1) == Without(Unlinked(peers, order, p, k, j), IpcNode(p, j))
      ensures p !in order ==> Unlinked(peers, order, p, k, j + 1) == Unlinked(peers, order, p, k, j)
    {
      var x := IpcNode(p, j);
      var b := Bucket(peers, order, k);
      InBucket(peers, order, k, x);
      InBucket(peers, order, k, NodeFor(peers, p, k));
      WithoutIs(b, NodeFor(peers, p, k));
      if x !in b {
        WithoutAbsent(b, x);
      }
      if x !in Unlinked(peers, order, p, k, j) {
        WithoutAbsent(Unlinked(peers, order, p, k, j), x);
      }
    }

    /** msg_broadcast: one report to each node of a bucket. */
    method Broadcast(i: nat) returns (sent: seq<Ptr>)
      requires Valid() && i < |buckets|
      ensures sent == Subscribers(peers, order, i)
    {
      var b := buckets[i];
      BucketPeers(peers, order, i);
      sent := [];
      var k := 0;
      while k < |b|
        invariant 0 <= k <= |b| && sent == Subscribers(peers, order, i)[..k]
      {
        sent := sent + [b[k].peer];
        k := k + 1;
      }
    }

    /** msg_unicast: a report to the first node whose peer has the identity. */
    method Unicast(i: nat, to: int) returns (sent: seq<Ptr>)
      requires Valid() && i < |buckets|
      ensures (forall p :: p in Subscribers(peers, order, i) ==> p in peers)
      ensures sent == FirstNamed(peers, Subscribers(peers, order, i), to)
    {
      var b := buckets[i];
      BucketPeers(peers, order, i);
      SubscribersAre(peers, order, i);
      ghost var all := Subscribers(peers, order, i);
      var k := 0;
      while k < |b|
        invariant 0 <= k <= |b|
        invariant forall j :: 0 <= j < k ==> peers[all[j]].identity != to
      {
        assert all[k] in all;
        if peers[b[k].peer].identity == to {
          FirstNamedFrom(peers, all, to, k);
          return [b[k].peer];
        }
        k := k + 1;
      }
      FirstNamedFrom(peers, all, to, k);
      return [];
    }

    /** ipc_broker_publish, with `pass` for what the filter hook says; `sent` is who gets the message. */
    method Publish(to: int, topic: nat, pass: bool) returns (ok: bool, sent: seq<Ptr>)
      requires Valid() && topic < Pow2(WORD)
      ensures ok <==> pass && exists i: nat :: Names(topic, i)
      ensures !ok ==> sent == []
      ensures forall i: nat :: ok && Names(topic, i) ==>
        && (forall p :: p in Subscribers(peers, order, i) ==> p in peers)
        && sent == if to == BROADCAST then Subscribers(peers, order, i)
                   else FirstNamed(peers, Subscribers(peers, order, i), to)
    {
      TopicCheckIs(topic);
      if !(topic == 0 || And(topic, topic - 1) == 0) || !pass {
        return false, [];
      }
      TopicFits(topic);
      ok := true;
      if buckets == [] {
        assert forall q :: q !in order;
        if order != [] {
          SomebodyIn(order);
        }
        return true, [];
      }
      var i := BitIndex(topic);
      sent := Dispatch(i, to);
    }

    /** The last lines of it. */
    method Dispatch(i: nat, to: int) returns (sent: seq<Ptr>)
      requires Valid() && i < |buckets|
      ensures (forall p :: p in Subscribers(peers, order, i) ==> p in peers)
      ensures sent == if to == BROADCAST then Subscribers(peers, order, i)
                      else FirstNamed(peers, Subscribers(peers, order, i), to)
    {
      SubscribersAre(peers, order, i);
      if to == BROADCAST {
        sent := Broadcast(i);
      } else {
        sent := Unicast(i, to);
      }
    }

    /** ipc_server_notify: a message to one peer, which must have asked for the topic and be synchronised. */
    method Notify(p: Ptr, topic: nat) returns (ok: bool)
      requires Valid() && p in peers && topic < Pow2(WORD)
      ensures ok <==> OneOf(peers[p].mask, topic) && p in order
    {
      OneOfIs(peers[p].mask, topic);
      if !(topic == 0 || And(topic, topic - 1) == 0) || And(peers[p].mask, topic) == 0 {
        return false;
      }
      TopicIndex(peers[p].mask, topic);
      var j := BitCount(And(peers[p].mask, topic - 1));
      ok := peers[p].nodes[j] != NULL;
    }
  }
}
