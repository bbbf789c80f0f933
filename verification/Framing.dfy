/**
 Stream reassembly in a fixed buffer: find_msg of ipc/ipc_base.c, and the subscriber of
 ipc/ipc_client.c that receives, cuts and delivers notifications.
 */
module Framing {
  import opened Frames

  /** `msg + at` is an aligned address where the message `m` lies. */
  ghost predicate Holds(msg: array?<Byte>, at: nat, m: Bytes)
    reads msg
  {
    msg != null && at + |m| <= msg.Length && msg[at..at + |m|] == m && at % 4 == 0
  }

  /** A field of two bytes, read where it lies. */
  function ShortAt(a: array<Byte>, i: nat): nat
    reads a
    requires i + 2 <= a.Length
  {
    var low: nat, high: nat := a[i], a[i + 1];
    low + 256 * high
  }

  lemma Slices(s: Bytes, a: nat, b: nat, c: nat, d: nat)
    requires a <= b <= |s| && c <= d <= b - a
    ensures s[a..b][c..d] == s[a + c..a + d]
  {
    var p, q := s[a..b][c..d], s[a + c..a + d];
    assert forall i :: 0 <= i < d - c ==> p[i] == q[i];
  }

  lemma SameSlice(s: Bytes, t: Bytes, a: nat, b: nat)
    requires a <= b <= |s| == |t| && forall i :: a <= i < b ==> s[i] == t[i]
    ensures s[a..b] == t[a..b]
  {
  }

  lemma SkipOne(s: Bytes)
    requires Complete(s) && !Friendly(s)
    ensures Skip(s) == Skip(s[FrameLen(s)..])
  {
  }

  class IpcBuf {
    var head: nat
    var tail: nat
    const size: nat
    const data: array<Byte>

    ghost predicate Valid()
      reads this
    {
      data.Length == size && size >= HDRLEN && size % 4 == 0 && head <= tail <= size
    }

    /** The bytes received and not yet consumed. */
    ghost function Pending(): Bytes
      reads this, data
      requires Valid()
    {
      data[head..tail]
    }

    /** alloc_buf: room for a header and `payload` bytes, rounded up to the alignment. */
    constructor (payload: nat)
      ensures Valid() && fresh(data) && Pending() == [] && head == 0
      ensures HDRLEN + payload <= size < HDRLEN + payload + 4
    {
      var n := payload + HDRLEN;
      var align := n % 4;
      if align != 0 {
        n := n + (4 - align);
      }
      head, tail, size := 0, 0, n;
      data := new Byte[n](_ => 0);
    }

    predicate Full()
      reads this
    {
      tail >= size
    }

    method Reset()
      requires Valid()
      modifies this
      ensures Valid() && Pending() == [] && head == tail == 0
    {
      head, tail := 0, 0;
    }

    /** The length of the whole message at the head, or 0 if there is none. */
    method Ahead() returns (n: nat)
      requires Valid()
      ensures n == if Complete(Pending()) then FrameLen(Pending()) else 0
    {
      var left := tail - head;
      if left < HDRLEN {
        return 0;
      }
      n := HDRLEN + ShortAt(data, head + 10);
      if left < n {
        return 0;
      }
    }

    /** `friendly`: takes the token off in place, if it is there. */
    method TakeToken(ghost n: nat) returns (ok: bool)
      requires Valid() && HDRLEN <= n <= tail - head
      modifies data
      ensures ok == Friendly(old(Pending()))
      ensures ok ==> data[head..head + n] == Strip(old(Pending())[..n]) && data[head + n..tail] == old(Pending())[n..]
      ensures !ok ==> data[..] == old(data[..]) && Pending() == old(Pending())
    {
      ghost var s, m := Pending(), data[head..head + n];
      var id := ShortAt(data, head + 4) + 0x10000 * ShortAt(data, head + 6);
      assert s[..n] == m;
      assert ShortAt(data, head + 4) == Short(s, 4) && ShortAt(data, head + 6) == Short(s, 6);
      assert MsgId(m) == id;
      ok := id / 0x10000 == TOKEN;
      if ok {
        var w := Put(id % 0x10000, 4);
        forall i | 0 <= i < 4 {
          data[head + 4 + i] := w[i];
        }
        assert data[head..head + n] == m[..4] + w + m[8..];
      }
    }

    /** The copy to the start of the buffer, as memmove does it. */
    method MoveDown(n: nat)
      requires Valid() && n <= tail - head
      modifies data
      ensures data[..n] == old(data[head..head + n])
      ensures forall i :: n <= i < size ==> data[i] == old(data[i])
    {
      forall i | 0 <= i < n {
        data[i] := data[head + i];
      }
    }

    /** The lines after __move: an unfinished message is moved down when the buffer is full. */
    method Compact()
      requires Valid()
      modifies this, data
      ensures Valid() && Pending() == old(Pending())
      ensures if old(Full()) && old(head) > 0 then head == 0 && !Full() else head == old(head) && tail == old(tail)
    {
      var left := tail - head;
      if Full() && head > 0 {
        MoveDown(left);
        head, tail := 0, left;
      }
    }

    /**
     find_msg.  `msg` and `at` say where the message found lies: in the buffer, or in `clone`.  The
     first friendly message is returned without its token; what follows it stays pending.
     */
    method FindMsg(clone: array?<Byte>) returns (msg: array?<Byte>, at: nat)
      requires Valid() && (clone != null ==> clone.Length >= size && clone != data)
      modifies this, data, clone
      ensures Valid()
      ensures var r := Skip(old(Pending()));
        if Complete(r) then
          && Holds(msg, at, Strip(r[..FrameLen(r)])) && (msg == data || msg == clone)
          && Pending() == r[FrameLen(r)..] && tail == old(tail)
        else
          && msg == null && Pending() == r
          && (r == [] ==> head == tail == old(tail))
          && (r != [] && Full() ==> head == 0)
    {
      msg, at := null, 0;
      while tail - head > 0
        invariant Valid() && tail == old(tail)
        invariant Skip(Pending()) == Skip(old(Pending()))
      {
        ghost var s := Pending();
        var n := Ahead();
        if n == 0 {
          Compact();
          return;
        }
        var ok := TakeToken(n);
        if ok {
          msg, at := Place(clone, n);
          return;
        }
        SkipOne(s);
        PassOver(n);
      }
    }

    /** What recv does with the free room. */
    method Append(chunk: Bytes)
      requires Valid() && |chunk| <= size - tail
      modifies this`tail, data
      ensures Valid() && Pending() == old(Pending()) + chunk
    {
      ghost var was := data[..];
      forall i | 0 <= i < |chunk| {
        data[tail + i] := chunk[i];
      }
      SameSlice(data[..], was, head, tail);
      assert data[tail..tail + |chunk|] == chunk;
      assert data[head..tail + |chunk|] == data[head..tail] + data[tail..tail + |chunk|];
      tail := tail + |chunk|;
    }

    method PassOver(n: nat)
      requires Valid() && n <= tail - head
      modifies this`head
      ensures Valid() && Pending() == old(Pending())[n..]
    {
      Slices(data[..], head, tail, n, tail - head);
      head := head + n;
    }

    /** Where the found message is handed over: a copy if it must survive, an aligned place otherwise. */
    method Place(clone: array?<Byte>, n: nat) returns (msg: array<Byte>, at: nat)
      requires Valid() && HDRLEN <= n <= tail - head
      requires clone != null ==> clone.Length >= size && clone != data
      modifies this`head, data, clone
      ensures Valid() && Pending() == old(data[head + n..tail])
      ensures (msg == data || msg == clone) && Holds(msg, at, old(data[head..head + n]))
      ensures clone != null ==> (msg == clone <==> old(tail - head) > n || old(head) > 0) && (msg == clone ==> at == 0)
      ensures msg == data ==> at == if clone == null && old(head) % 4 != 0 then 0 else old(head)
    {
      msg, at := data, head;
      ghost var was := data[..];
      if clone != null {
        var sticky := tail - head > n || head > 0;
        if sticky {
          forall i | 0 <= i < n {
            clone[i] := data[head + i];
          }
          msg, at := clone, 0;
        }
      } else if head % 4 != 0 {
        MoveDown(n);
        at := 0;
      }
      SameSlice(data[..], was, head + n, tail);
      head := head + n;
    }
  }

  /** The receiving side of a subscription, over one connection. */
  class Subscriber {
    const mask: nat
    const buf: IpcBuf
    /** The handler calls made, and the bytes received, so far. */
    var calls: seq<Call>
    ghost var received: Bytes

    /** Between two receives: everything due was delivered, and there is room for more. */
    ghost predicate Valid()
      reads this, buf, buf.data
    {
      && buf.Valid() && Proper(buf.size, received)
      && calls == Calls(mask, Messages(received))
      && buf.Pending() == Rest(received)
      && buf.tail < buf.size
    }

    constructor (mask: nat, payload: nat)
      ensures Valid() && fresh(buf) && fresh(buf.data) && received == [] && this.mask == mask
      ensures buf.size >= HDRLEN + payload
    {
      this.mask := mask;
      calls, received := [], [];
      buf := new IpcBuf(payload);
    }

    /** ipc_subscriber_process: deliver every whole message in the buffer. */
    method Process()
      requires buf.Valid() && Proper(buf.size, buf.Pending())
      modifies this`calls, buf, buf.data
      ensures buf.Valid() && buf.tail < buf.size
      ensures calls == old(calls) + Calls(mask, Messages(old(buf.Pending())))
      ensures buf.Pending() == Rest(old(buf.Pending()))
    {
      ghost var all, before := buf.Pending(), calls;
      var found := true;
      while true
        invariant buf.Valid() && Proper(buf.size, buf.Pending())
        invariant before + Calls(mask, Messages(all)) == calls + Calls(mask, Messages(buf.Pending()))
        invariant Rest(all) == Rest(buf.Pending())
        decreases |buf.Pending()|
      {
        found := ProcessOne();
        if !found {
          if buf.Full() {
            break;
          }
          return;
        }
        if buf.head >= buf.tail {
          break;
        }
      }
      assert buf.Pending() == [] && Messages([]) == [] && Rest([]) == [];
      buf.Reset();
    }

    /** One pass of that loop: the next notification, if a whole one is there. */
    method ProcessOne() returns (found: bool)
      requires buf.Valid() && Proper(buf.size, buf.Pending())
      modifies this`calls, buf, buf.data
      ensures buf.Valid() && Proper(buf.size, buf.Pending())
      ensures old(calls) + Calls(mask, Messages(old(buf.Pending()))) == calls + Calls(mask, Messages(buf.Pending()))
      ensures Rest(old(buf.Pending())) == Rest(buf.Pending())
      ensures found ==> |buf.Pending()| < |old(buf.Pending())|
      ensures !found ==> Messages(buf.Pending()) == [] && Rest(buf.Pending()) == buf.Pending()
      ensures !found && buf.Full() ==> buf.Pending() == []
    {
      ghost var s := buf.Pending();
      ghost var r := Skip(s);
      SkipSilent(mask, buf.size, s);
      SkipShorter(s);
      RestSmall(buf.size, r);
      var msg, at := buf.FindMsg(null);
      found := msg != null;
      if found {
        ghost var m, rest := Strip(r[..FrameLen(r)]), r[FrameLen(r)..];
        TakeOne(mask, buf.size, r);
        Grouped(calls, Handled(mask, m), Calls(mask, Messages(rest)));
        Deliver(msg, at, m);
      } else {
        NoMessages(r);
      }
    }

    /** The notify branch: read the notification where it lies and call the handler if it is wanted. */
    method Deliver(msg: array<Byte>, at: nat, ghost m: Bytes)
      requires IsNotify(m) && FrameLen(m) == |m| && Holds(msg, at, m)
      modifies this`calls
      ensures calls == old(calls) + Handled(mask, m)
    {
      assert msg[at..at + |m|][10] == msg[at + 10] && msg[at..at + |m|][11] == msg[at + 11];
      var n := HDRLEN + ShortAt(msg, at + 10);
      var p := msg[at..at + n][HDRLEN..];
      WantedIs(mask, Num(p[4..12]));
      if Wanted(mask, Num(p[4..12])) {
        calls := calls + [Call(Num(p[12..16]), p[20..], Num(p[16..20]))];
      }
    }

    /** One round of the receive loop: `chunk` is what recv put behind the tail. */
    method Receive(chunk: Bytes)
      requires Valid() && 0 < |chunk| <= buf.size - buf.tail
      requires Proper(buf.size, received + chunk)
      modifies this, buf, buf.data
      ensures Valid() && received == old(received) + chunk
    {
      ghost var was, rest := received, buf.Pending();
      buf.Append(chunk);
      ProperSplit(buf.size, was, chunk);
      MessagesSplit(was, chunk);
      CallsConcat(mask, Messages(was), Messages(rest + chunk));
      received := received + chunk;
      Process();
    }

    /**
     The receive loop of ipc_subscriber_task over a whole stream.  `cut` picks how many of the bytes
     asked for arrive each time, as the socket pleases; the loop always asks for at least one.
     */
    method Run(stream: Bytes, cut: (nat, nat) -> nat)
      requires Valid() && received == [] && Proper(buf.size, stream)
      modifies this, buf, buf.data
      ensures Valid() && received == stream
      ensures calls == Calls(mask, Messages(stream))
    {
      var at := 0;
      while at < |stream|
        invariant at <= |stream| && Valid() && received == stream[..at]
      {
        var asked := buf.size - buf.tail;
        assert asked > 0;
        var most := if asked < |stream| - at then asked else |stream| - at;
        var n := 1 + cut(at, asked) % most;
        ProperPrefix(buf.size, stream, at, n);
        Receive(stream[at..at + n]);
        at := at + n;
      }
      assert stream[..at] == stream;
    }
  }

  /** The next piece of a proper stream makes its beginning longer, and that is proper too. */
  lemma ProperPrefix(size: nat, stream: Bytes, at: nat, n: nat)
    requires Proper(size, stream) && at + n <= |stream|
    ensures stream[..at] + stream[at..at + n] == stream[..at + n] && Proper(size, stream[..at + n])
  {
    assert stream[..at + n] + stream[at + n..] == stream;
    ProperSplit(size, stream[..at + n], stream[at + n..]);
  }

  lemma NoMessages(s: Bytes)
    requires !Complete(s)
    ensures Messages(s) == [] && Rest(s) == s
  {
  }

  lemma {:induction false} SkipShorter(s: Bytes)
    ensures |Skip(s)| <= |s| && (Complete(Skip(s)) ==> Friendly(Skip(s)))
    decreases |s|
  {
    if Complete(s) && !Friendly(s) {
      SkipShorter(s[FrameLen(s)..]);
    }
  }

  /** A server's notifications, however the connection cuts them, arrive once each and in order. */
  method Converse(mask: nat, payload: nat, ns: seq<Note>, cut: (nat, nat) -> nat) returns (calls: seq<Call>)
    requires forall n :: n in ns ==> Sendable(HDRLEN + payload, n)
    ensures calls == Owed(mask, ns)
  {
    var s := new Subscriber(mask, payload);
    SentReceived(mask, s.buf.size, ns);
    s.Run(AllSent(ns), cut);
    calls := s.calls;
  }
}
