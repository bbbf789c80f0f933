/** Bitmaps over words of 64 bits: include/generic_bit.h and common/generic_bit.c. */
module Bitmaps {
  import opened Trees
  import opened Bits

  const BITS: nat := 64
  type Words = seq<nat>

  predicate WordsOk(s: Words) {
    forall i :: 0 <= i < |s| ==> s[i] < Pow2(BITS)
  }

  /** test_bit. */
  predicate Test(s: Words, nr: nat)
    requires nr < BITS * |s|
  {
    Bit(s[nr / BITS], nr % BITS)
  }

  /** The numbers whose bits are set. */
  ghost function Members(s: Words): set<nat> {
    set nr | 0 <= nr < BITS * |s| && Test(s, nr)
  }

  /** set_bit: `*p |= mask`. */
  function WithBit(s: Words, nr: nat): Words
    requires nr < BITS * |s|
  {
    s[nr / BITS := Or(s[nr / BITS], Pow2(nr % BITS))]
  }

  /** clear_bit: `*p &= ~mask`. */
  function WithoutBit(s: Words, nr: nat): Words
    requires nr < BITS * |s|
  {
    PowerFits(nr % BITS);
    s[nr / BITS := And(s[nr / BITS], Not(Pow2(nr % BITS), BITS))]
  }

  lemma PowerFits(i: nat)
    requires i < BITS
    ensures Pow2(i) < Pow2(BITS)
  {
    Pow2Monotone(i + 1, BITS);
  }

  lemma WithBitIs(s: Words, nr: nat)
    requires WordsOk(s) && nr < BITS * |s|
    ensures WordsOk(WithBit(s, nr)) && Members(WithBit(s, nr)) == Members(s) + {nr}
  {
    var t, w := WithBit(s, nr), nr / BITS;
    PowerFits(nr % BITS);
    OrFits(s[w], Pow2(nr % BITS), BITS);
    forall k: nat | k < BITS * |s|
      ensures Test(t, k) == (Test(s, k) || k == nr)
    {
      if k / BITS == w {
        BitOr(s[w], Pow2(nr % BITS), k % BITS);
        BitPower(nr % BITS, k % BITS);
      }
    }
  }

  lemma WithoutBitIs(s: Words, nr: nat)
    requires WordsOk(s) && nr < BITS * |s|
    ensures WordsOk(WithoutBit(s, nr)) && Members(WithoutBit(s, nr)) == Members(s) - {nr}
  {
    var t, w := WithoutBit(s, nr), nr / BITS;
    PowerFits(nr % BITS);
    AndBelow(s[w], Not(Pow2(nr % BITS), BITS));
    forall k: nat | k < BITS * |s|
      ensures Test(t, k) == (Test(s, k) && k != nr)
    {
      if k / BITS == w {
        BitAnd(s[w], Not(Pow2(nr % BITS), BITS), k % BITS);
        BitNot(Pow2(nr % BITS), BITS, k % BITS);
        BitPower(nr % BITS, k % BITS);
      }
    }
  }

  /** memcmp finds two bitmaps equal exactly when they have the same members. */
  lemma SameMembers(s: Words, t: Words)
    requires WordsOk(s) && WordsOk(t) && |s| == |t|
    ensures s == t <==> Members(s) == Members(t)
  {
    if Members(s) == Members(t) {
      forall i | 0 <= i < |s|
        ensures s[i] == t[i]
      {
        forall k: nat
          ensures Bit(s[i], k) == Bit(t[i], k)
        {
          if k < BITS {
            var nr := i * BITS + k;
            assert nr / BITS == i && nr % BITS == k;
            assert nr in Members(s) <==> Test(s, nr);
            assert nr in Members(t) <==> Test(t, nr);
          } else {
            BeyondWord(s[i], k);
            BeyondWord(t[i], k);
          }
        }
        SameBits(s[i], t[i]);
      }
    }
  }

  lemma BeyondWord(m: nat, k: nat)
    requires m < Pow2(BITS) && k >= BITS
    ensures !Bit(m, k)
  {
    if Bit(m, k) {
      BitFits(m, k, BITS);
    }
  }

  lemma NoMembers(s: Words)
    requires forall i :: 0 <= i < |s| ==> s[i] == 0
    ensures Members(s) == {} && WordsOk(s)
  {
    forall nr: nat | nr < BITS * |s|
      ensures !Test(s, nr)
    {
      ZeroBit(nr % BITS);
    }
    PowerFits(0);
  }

  method SetBit(nr: nat, addr: array<nat>)
    requires nr < BITS * addr.Length && WordsOk(addr[..])
    modifies addr
    ensures WordsOk(addr[..]) && Members(addr[..]) == old(Members(addr[..])) + {nr}
    ensures addr[..] == WithBit(old(addr[..]), nr)
  {
    WithBitIs(addr[..], nr);
    addr[nr / BITS] := Or(addr[nr / BITS], Pow2(nr % BITS));
  }

  method ClearBit(nr: nat, addr: array<nat>)
    requires nr < BITS * addr.Length && WordsOk(addr[..])
    modifies addr
    ensures WordsOk(addr[..]) && Members(addr[..]) == old(Members(addr[..])) - {nr}
    ensures addr[..] == WithoutBit(old(addr[..]), nr)
  {
    WithoutBitIs(addr[..], nr);
    PowerFits(nr % BITS);
    addr[nr / BITS] := And(addr[nr / BITS], Not(Pow2(nr % BITS), BITS));
  }

  /** first_bit_zero: skip full words, then full bytes, then set bits. */
  method FirstBitZero(addr: Words) returns (offset: nat)
    requires WordsOk(addr) && exists nr :: 0 <= nr < BITS * |addr| && !Test(addr, nr)
    ensures offset < BITS * |addr| && !Test(addr, offset)
    ensures forall k :: 0 <= k < offset ==> Test(addr, k)
  {
    ghost var z :| 0 <= z < BITS * |addr| && !Test(addr, z);
    var i := 0;
    while addr[i] == Pow2(BITS) - 1
      invariant 0 <= i <= z / BITS
      invariant forall k :: 0 <= k < BITS * i ==> Test(addr, k)
      decreases |addr| - i
    {
      FullWord(addr, i);
      i := i + 1;
    }
    var o := FirstZeroInWord(addr[i]);
    offset := i * BITS + o;
    assert offset / BITS == i && offset % BITS == o;
    forall k | 0 <= k < offset
      ensures Test(addr, k)
    {
      if k >= BITS * i {
        assert k / BITS == i && k % BITS == k - BITS * i;
      }
    }
  }

  /** Its loops inside one word. */
  method FirstZeroInWord(w: nat) returns (o: nat)
    requires w + 1 < Pow2(BITS)
    ensures o < BITS && !Bit(w, o) && forall k :: 0 <= k < o ==> Bit(w, k)
  {
    ghost var c := ClearBitBelow(w, BITS);
    o := 0;
    var tmp := w;
    while And(tmp, 0xff) == 0xff
      invariant o <= c && tmp == Shift(w, o)
      invariant forall k :: 0 <= k < o ==> Bit(w, k)
      decreases tmp
    {
      SkipByte(w, o, c);
      o := o + 8;
      tmp := tmp / 256;
    }
    while tmp % 2 == 1
      invariant o <= c && tmp == Shift(w, o)
      invariant forall k :: 0 <= k < o ==> Bit(w, k)
      decreases tmp
    {
      ShiftBit(w, o);
      o := o + 1;
      tmp := tmp / 2;
    }
    ShiftBit(w, o);
  }

  lemma FullWord(addr: Words, i: nat)
    requires i < |addr| && addr[i] == Pow2(BITS) - 1
    ensures forall k :: BITS * i <= k < BITS * (i + 1) ==> Test(addr, k)
  {
    AndSame(addr[i]);
    LowSet(addr[i], BITS);
    forall k | BITS * i <= k < BITS * (i + 1)
      ensures Test(addr, k)
    {
      assert k / BITS == i && k % BITS == k - BITS * i;
    }
  }

  lemma LowByte(t: nat)
    requires And(t, 0xff) == 0xff
    ensures forall k :: 0 <= k < 8 ==> Bit(t, k)
  {
    assert Pow2(4) == 16;
    Pow2Add(4, 4);
    LowSet(t, 8);
  }

  lemma SkipByte(w: nat, o: nat, c: nat)
    requires And(Shift(w, o), 0xff) == 0xff && o <= c && !Bit(w, c)
    requires forall k :: 0 <= k < o ==> Bit(w, k)
    ensures Shift(w, o) > 0 && Shift(w, o + 8) == Shift(w, o) / 256 && o + 8 <= c
    ensures forall k :: 0 <= k < o + 8 ==> Bit(w, k)
  {
    var t := Shift(w, o);
    LowByte(t);
    ShiftAdd(w, o, 8);
    ShiftByte(t);
    forall k | o <= k < o + 8
      ensures Bit(w, k)
    {
      BitShift(w, o, k - o);
    }
  }

  /** Fewer members than bits leave a bit free. */
  lemma FreeBit(s: Words)
    requires |Members(s)| < BITS * |s|
    ensures exists nr :: 0 <= nr < BITS * |s| && !Test(s, nr)
  {
    var k := Missing(Members(s), BITS * |s|);
    assert !Test(s, k);
  }

  lemma {:induction false} Missing(s: set<nat>, n: nat) returns (k: nat)
    requires |s| < n
    ensures k < n && k !in s
  {
    if n - 1 in s {
      k := Missing(s - {n - 1}, n - 1);
    } else {
      k := n - 1;
    }
  }
}
