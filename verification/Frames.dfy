/**
 The byte format of IPC messages (struct ipc_msg and struct ipc_notify in ipc/ipc_common.h) on a
 little-endian machine, and what a stream of such messages means.
 */
module Frames {
  import opened Trees
  import opened Bits
  import opened Sequences

  type Byte = b: nat | b < 256
  type Bytes = seq<Byte>

  /** sizeof(struct ipc_msg) and sizeof(struct ipc_notify); both are packed. */
  const HDRLEN: nat := 12
  const NOTIFYLEN: nat := 20
  /** The upper half of IPC_MSG_TOKEN, and IPC_SDK_MSG_NOTIFY. */
  const TOKEN: nat := 0x56CE
  const NOTIFY: nat := 0xFF05

  // ---- numbers ----

  /** The number stored in bytes, lowest byte first. */
  function Num(s: Bytes): nat {
    if s == [] then 0 else s[0] + 256 * Num(s[1..])
  }

  /** The lowest `k` bytes of `n`. */
  function Put(n: nat, k: nat): (s: Bytes)
    ensures |s| == k
  {
    if k == 0 then [] else [n % 256] + Put(n / 256, k - 1)
  }

  function Pow256(k: nat): nat {
    if k == 0 then 1 else 256 * Pow256(k - 1)
  }

  lemma {:induction false} PutNum(n: nat, k: nat)
    requires n < Pow256(k)
    ensures Num(Put(n, k)) == n
  {
    if k > 0 {
      PutNum(n / 256, k - 1);
      assert Put(n, k)[1..] == Put(n / 256, k - 1);
    }
  }

  /** A field of two, or of four, bytes at `i`. */
  function Short(s: Bytes, i: nat): nat
    requires i + 2 <= |s|
  {
    var low: nat, high: nat := s[i], s[i + 1];
    low + 256 * high
  }

  function Word(s: Bytes, i: nat): nat
    requires i + 4 <= |s|
  {
    Short(s, i) + 0x10000 * Short(s, i + 2)
  }

  lemma FieldNum(s: Bytes, i: nat)
    ensures i + 2 <= |s| ==> Short(s, i) == Num(s[i..i + 2])
    ensures i + 4 <= |s| ==> Word(s, i) == Num(s[i..i + 4])
  {
    if i + 2 <= |s| {
      var t := s[i..i + 2];
      assert t[1..][1..] == [];
      assert Num(t[1..]) == t[1] + 256 * Num(t[1..][1..]);
    }
    if i + 4 <= |s| {
      var t := s[i..i + 4];
      assert t[1..][1..][1..][1..] == [];
      assert Num(t[1..][1..][1..]) == t[3] + 256 * Num(t[1..][1..][1..][1..]);
      assert Num(t[1..][1..]) == t[2] + 256 * Num(t[1..][1..][1..]);
      assert Num(t[1..]) == t[1] + 256 * Num(t[1..][1..]);
    }
  }

  // ---- one message ----

  function FrameLen(s: Bytes): nat
    requires |s| >= HDRLEN
  {
    HDRLEN + Short(s, 10)
  }

  /** A whole message stands at the front of `s`. */
  predicate Complete(s: Bytes) {
    |s| >= HDRLEN && |s| >= FrameLen(s)
  }

  function MsgId(s: Bytes): nat
    requires |s| >= HDRLEN
  {
    Word(s, 4)
  }

  /** `msg_id & 0xFFFF0000` is the token. */
  predicate Friendly(s: Bytes)
    requires |s| >= HDRLEN
  {
    MsgId(s) / 0x10000 == TOKEN
  }

  /** The message with the token taken off its id. */
  function Strip(s: Bytes): (r: Bytes)
    requires |s| >= HDRLEN
    ensures |r| == |s|
  {
    s[..4] + Put(MsgId(s) % 0x10000, 4) + s[8..]
  }

  lemma StripKeeps(s: Bytes)
    requires |s| >= HDRLEN
    ensures |Strip(s)| == |s| && MsgId(Strip(s)) == MsgId(s) % 0x10000
    ensures Strip(s)[..4] == s[..4] && Strip(s)[8..] == s[8..]
  {
    assert Pow256(4) == 0x1_0000_0000 by {
      assert Pow256(2) == 0x10000;
    }
    PutNum(MsgId(s) % 0x10000, 4);
    assert Strip(s)[4..8] == Put(MsgId(s) % 0x10000, 4);
    FieldNum(Strip(s), 4);
  }

  // ---- a stream ----

  /** The messages of a stream, cut where their length fields say. */
  function Messages(s: Bytes): seq<Bytes>
    decreases |s|
  {
    if Complete(s) then [s[..FrameLen(s)]] + Messages(s[FrameLen(s)..]) else []
  }

  /** What follows the last whole message. */
  function Rest(s: Bytes): Bytes
    decreases |s|
  {
    if Complete(s) then Rest(s[FrameLen(s)..]) else s
  }

  /** What follows the unfriendly messages at the front. */
  function Skip(s: Bytes): Bytes
    decreases |s|
  {
    if Complete(s) && !Friendly(s) then Skip(s[FrameLen(s)..]) else s
  }

  /** Messages do not depend on how the stream was cut when it arrived. */
  lemma {:induction false} MessagesSplit(s: Bytes, t: Bytes)
    ensures Messages(s + t) == Messages(s) + Messages(Rest(s) + t)
    ensures Rest(s + t) == Rest(Rest(s) + t)
    decreases |s|
  {
    if Complete(s) {
      var n := FrameLen(s);
      HeaderSame(s, t);
      assert (s + t)[..n] == s[..n];
      assert (s + t)[n..] == s[n..] + t;
      MessagesSplit(s[n..], t);
    }
  }

  lemma HeaderSame(s: Bytes, t: Bytes)
    requires |s| >= HDRLEN
    ensures FrameLen(s + t) == FrameLen(s) && Friendly(s + t) == Friendly(s)
  {
    assert forall i :: 0 <= i < HDRLEN ==> (s + t)[i] == s[i];
  }

  /** Cutting into messages loses no byte. */
  lemma {:induction false} MessagesWhole(s: Bytes)
    ensures Joined(Messages(s)) + Rest(s) == s
    decreases |s|
  {
    if Complete(s) {
      var n := FrameLen(s);
      MessagesWhole(s[n..]);
      Rejoin(s, n, Messages(s[n..]), Rest(s[n..]));
    }
  }

  lemma Rejoin(s: Bytes, n: nat, ms: seq<Bytes>, rest: Bytes)
    requires n <= |s| && Joined(ms) + rest == s[n..]
    ensures Joined([s[..n]] + ms) + rest == s
  {
    var a := s[..n];
    assert ([a] + ms)[1..] == ms;
    assert (a + Joined(ms)) + rest == a + (Joined(ms) + rest);
  }

  // ---- notifications ----

  /** One call of the subscriber's handler. */
  datatype Call = Call(msgId: nat, data: Bytes, dataLen: nat)

  /** topic_isset and topic_check. */
  predicate Wanted(mask: nat, topic: nat) {
    And(mask, topic) != 0 && (topic == 0 || And(topic, topic - 1) == 0)
  }

  /** The two tests accept exactly the topics that are one bit of the mask. */
  lemma WantedIs(mask: nat, topic: nat)
    ensures Wanted(mask, topic) <==> OneOf(mask, topic)
  {
    OneOfIs(mask, topic);
  }

  predicate IsNotify(m: Bytes) {
    |m| >= HDRLEN + NOTIFYLEN && MsgId(m) == NOTIFY
  }

  /** The handler calls for one stripped notify message, whose payload is a struct ipc_notify. */
  ghost function Handled(mask: nat, m: Bytes): seq<Call>
    requires |m| >= HDRLEN + NOTIFYLEN
  {
    var p := m[HDRLEN..];
    if OneOf(mask, Num(p[4..12])) then [Call(Num(p[12..16]), p[20..], Num(p[16..20]))] else []
  }

  /** A message the subscriber expects: unfriendly, or a notification. */
  predicate Expected(m: Bytes)
    requires |m| >= HDRLEN
  {
    Friendly(m) ==> IsNotify(Strip(m))
  }

  /** Every message of the stream is expected, and fits a buffer of `size` bytes. */
  predicate Proper(size: nat, s: Bytes)
    decreases |s|
  {
    |s| >= HDRLEN ==>
      && FrameLen(s) <= size
      && (Complete(s) ==> Expected(s[..FrameLen(s)]) && Proper(size, s[FrameLen(s)..]))
  }

  /** What the subscriber should do for one message as it is sent. */
  ghost function CallsFor(mask: nat, m: Bytes): seq<Call> {
    if |m| >= HDRLEN && Friendly(m) && IsNotify(Strip(m)) then Handled(mask, Strip(m)) else []
  }

  ghost function Calls(mask: nat, ms: seq<Bytes>): seq<Call> {
    if ms == [] then [] else CallsFor(mask, ms[0]) + Calls(mask, ms[1..])
  }

  lemma CallsFirst(mask: nat, m: Bytes, ms: seq<Bytes>)
    ensures Calls(mask, [m] + ms) == CallsFor(mask, m) + Calls(mask, ms)
  {
    assert ([m] + ms)[1..] == ms;
  }

  lemma {:induction false} CallsConcat(mask: nat, a: seq<Bytes>, b: seq<Bytes>)
    ensures Calls(mask, a + b) == Calls(mask, a) + Calls(mask, b)
  {
    if a == [] {
      assert a + b == b;
    } else {
      var m, ms := a[0], a[1..];
      CallsConcat(mask, ms, b);
      CallsFirst(mask, m, ms);
      CallsFirst(mask, m, ms + b);
      Front(a, b);
      Grouped(CallsFor(mask, m), Calls(mask, ms), Calls(mask, b));
    }
  }

  lemma Front(a: seq<Bytes>, b: seq<Bytes>)
    requires a != []
    ensures a == [a[0]] + a[1..] && a + b == [a[0]] + (a[1..] + b)
  {
  }

  lemma Grouped(x: seq<Call>, y: seq<Call>, z: seq<Call>)
    ensures x + (y + z) == (x + y) + z
  {
  }

  /** Unfriendly messages cause no call. */
  lemma {:induction false} SkipSilent(mask: nat, size: nat, s: Bytes)
    requires Proper(size, s)
    ensures Calls(mask, Messages(s)) == Calls(mask, Messages(Skip(s))) && Rest(s) == Rest(Skip(s))
    ensures Proper(size, Skip(s))
    decreases |s|
  {
    if Complete(s) && !Friendly(s) {
      var n := FrameLen(s);
      SkipSilent(mask, size, s[n..]);
      HeaderSame(s[..n], s[n..]);
      assert s[..n] + s[n..] == s;
      assert Messages(s)[1..] == Messages(s[n..]);
    }
  }

  /** The first friendly message causes its calls, then the rest follows. */
  lemma TakeOne(mask: nat, size: nat, s: Bytes)
    requires Proper(size, s) && Complete(s) && Friendly(s)
    ensures var n := FrameLen(s);
      && IsNotify(Strip(s[..n])) && FrameLen(Strip(s[..n])) == |Strip(s[..n])| == n
      && Proper(size, s[n..]) && Rest(s) == Rest(s[n..])
      && Calls(mask, Messages(s)) == Handled(mask, Strip(s[..n])) + Calls(mask, Messages(s[n..]))
  {
    var n := FrameLen(s);
    HeaderSame(s[..n], s[n..]);
    assert s[..n] + s[n..] == s;
    assert Messages(s)[1..] == Messages(s[n..]);
    StripKeeps(s[..n]);
    assert Strip(s[..n])[10] == Strip(s[..n])[8..][2] == s[10] && Strip(s[..n])[11] == Strip(s[..n])[8..][3] == s[11];
  }

  /** A proper stream is proper at every moment of its arrival, seen from the unread part. */
  lemma {:induction false} ProperSplit(size: nat, s: Bytes, t: Bytes)
    requires Proper(size, s + t)
    ensures Proper(size, s) && Proper(size, Rest(s) + t)
    decreases |s|
  {
    if |s| >= HDRLEN {
      HeaderSame(s, t);
      if Complete(s) {
        var n := FrameLen(s);
        assert (s + t)[..n] == s[..n];
        assert (s + t)[n..] == s[n..] + t;
        ProperSplit(size, s[n..], t);
      }
    }
  }

  /** An unfinished message leaves room in the buffer. */
  lemma {:induction false} RestSmall(size: nat, s: Bytes)
    requires Proper(size, s) && size >= HDRLEN
    ensures |Rest(s)| < size && !Complete(Rest(s))
    decreases |s|
  {
    if Complete(s) {
      RestSmall(size, s[FrameLen(s)..]);
    }
  }

  // ---- what a server sends ----

  datatype Note = Note(from: nat, flags: nat, to: nat, topic: nat, msgId: nat, data: Bytes)

  /** A notification whose fields fit their widths and whose message fits a buffer. */
  predicate Sendable(size: nat, n: Note) {
    && n.from < 0x1_0000_0000 && n.flags < 0x10000 && n.to < 0x1_0000_0000
    && n.topic < 0x1_0000_0000 * 0x1_0000_0000 && n.msgId < 0x1_0000_0000
    && NOTIFYLEN + |n.data| < 0x10000 && HDRLEN + NOTIFYLEN + |n.data| <= size
  }

  /** ipc_notify_pack followed by send_msg, which puts the token on. */
  function Sent(n: Note): Bytes {
    Put(n.from, 4) + Put(TOKEN * 0x10000 + NOTIFY, 4) + Put(n.flags, 2) + Put(NOTIFYLEN + |n.data|, 2)
    + (Put(n.to, 4) + Put(n.topic, 8) + Put(n.msgId, 4) + Put(|n.data|, 4) + n.data)
  }

  function AllSent(ns: seq<Note>): Bytes {
    if ns == [] then [] else Sent(ns[0]) + AllSent(ns[1..])
  }

  /** The calls a subscriber is owed. */
  ghost function OwedFor(mask: nat, n: Note): seq<Call> {
    if OneOf(mask, n.topic) then [Call(n.msgId, n.data, |n.data|)] else []
  }

  ghost function Owed(mask: nat, ns: seq<Note>): seq<Call> {
    if ns == [] then [] else OwedFor(mask, ns[0]) + Owed(mask, ns[1..])
  }

  lemma Widths()
    ensures Pow256(2) == 0x10000 && Pow256(4) == 0x1_0000_0000
    ensures Pow256(8) == 0x1_0000_0000 * 0x1_0000_0000
  {
    assert Pow256(2) == 0x10000;
    assert Pow256(4) == 0x1_0000_0000;
    assert Pow256(6) == 0x1_0000_0000 * 0x10000;
  }

  lemma SentHeader(size: nat, n: Note)
    requires Sendable(size, n)
    ensures var m := Sent(n);
      |m| == HDRLEN + NOTIFYLEN + |n.data| && FrameLen(m) == |m| && Friendly(m) && MsgId(m) % 0x10000 == NOTIFY
  {
    var m := Sent(n);
    Widths();
    PutNum(TOKEN * 0x10000 + NOTIFY, 4);
    PutNum(NOTIFYLEN + |n.data|, 2);
    assert m[4..8] == Put(TOKEN * 0x10000 + NOTIFY, 4);
    assert m[10..12] == Put(NOTIFYLEN + |n.data|, 2);
    FieldNum(m, 4);
    FieldNum(m, 10);
  }

  lemma SentHandled(mask: nat, size: nat, n: Note)
    requires Sendable(size, n)
    ensures |Sent(n)| >= HDRLEN + NOTIFYLEN && IsNotify(Strip(Sent(n)))
    ensures Handled(mask, Strip(Sent(n))) == OwedFor(mask, n)
  {
    var m := Sent(n);
    SentHeader(size, n);
    StripKeeps(m);
    var p := Strip(m)[HDRLEN..];
    assert p == m[8..][4..];
    assert p == Put(n.to, 4) + Put(n.topic, 8) + Put(n.msgId, 4) + Put(|n.data|, 4) + n.data;
    Widths();
    PutNum(n.topic, 8);
    PutNum(n.msgId, 4);
    PutNum(|n.data|, 4);
    assert p[4..12] == Put(n.topic, 8);
    assert p[12..16] == Put(n.msgId, 4);
    assert p[16..20] == Put(|n.data|, 4);
    assert p[20..] == n.data;
  }

  /** What is sent is proper, is cut where it was joined, and owes exactly the calls for the notes. */
  lemma {:induction false} SentReceived(mask: nat, size: nat, ns: seq<Note>)
    requires forall n :: n in ns ==> Sendable(size, n)
    ensures Proper(size, AllSent(ns)) && Rest(AllSent(ns)) == []
    ensures Calls(mask, Messages(AllSent(ns))) == Owed(mask, ns)
  {
    if ns != [] {
      var m, t := Sent(ns[0]), AllSent(ns[1..]);
      SentReceived(mask, size, ns[1..]);
      SentHeader(size, ns[0]);
      SentHandled(mask, size, ns[0]);
      HeaderSame(m, t);
      assert (m + t)[..|m|] == m && (m + t)[|m|..] == t;
      TakeOne(mask, size, m + t);
    }
  }
}
