/** Machine words as numbers: the bit tricks of common/generic_bit.c and common/bst.c. */
module Bits {
  import opened Trees

  /** Bitwise and. */
  function And(a: nat, b: nat): nat
    decreases a
  {
    if a == 0 || b == 0 then 0
    else (if a % 2 == 1 && b % 2 == 1 then 1 else 0) + 2 * And(a / 2, b / 2)
  }

  /** The largest power of two not above `n`. */
  function TopPower(n: nat): nat {
    if n <= 1 then n else 2 * TopPower(n / 2)
  }

  lemma {:induction false} AndSame(a: nat)
    ensures And(a, a) == a
  {
    if a > 0 {
      AndSame(a / 2);
    }
  }

  /** `n & (n - 1)` clears the lowest bit and leaves the highest one, unless it is the only one. */
  lemma {:induction false} ClearLowest(n: nat)
    requires n > 0
    ensures And(n, n - 1) < n
    ensures if And(n, n - 1) == 0 then n == TopPower(n) else TopPower(And(n, n - 1)) == TopPower(n)
  {
    if n > 1 {
      var a := n / 2;
      if n % 2 == 0 {
        assert (n - 1) / 2 == a - 1;
        ClearLowest(a);
        assert And(n, n - 1) == 2 * And(a, a - 1);
      } else {
        assert (n - 1) / 2 == a;
        AndSame(a);
        assert And(n, n - 1) == 2 * a;
      }
    }
  }

  /** The number of bits of `n`. */
  function BitLength(n: nat): nat {
    if n == 0 then 0 else 1 + BitLength(n / 2)
  }

  lemma {:induction false} BitLengthBounds(n: nat)
    ensures n < Pow2(BitLength(n))
    ensures n > 0 ==> Pow2(BitLength(n) - 1) <= n
  {
    if n > 1 {
      BitLengthBounds(n / 2);
    }
  }

  lemma {:induction false} BitLengthUnique(n: nat, k: nat)
    requires n > 0 && k > 0 && Pow2(k - 1) <= n < Pow2(k)
    ensures BitLength(n) == k
  {
    BitLengthBounds(n);
    if BitLength(n) < k {
      Pow2Monotone(BitLength(n), k - 1);
    } else if BitLength(n) > k {
      Pow2Monotone(k, BitLength(n) - 1);
    }
  }

  lemma BitLengthFits(n: nat, k: nat)
    requires n < Pow2(k)
    ensures BitLength(n) <= k
  {
    BitLengthBounds(n);
    if n > 0 {
      Pow2Order(BitLength(n) - 1, k);
    }
  }

  lemma {:induction false} TopPowerBits(n: nat)
    requires n > 0
    ensures TopPower(n) == Pow2(BitLength(n) - 1) && TopPower(n) <= n < 2 * TopPower(n)
  {
    if n > 1 {
      TopPowerBits(n / 2);
    }
  }

  /** Clearing low bits until one is left, as slant_back does (common/bst.c, lines 244 to 250). */
  method TopBit(n: nat) returns (p: nat)
    requires n > 0
    ensures p == TopPower(n)
  {
    p := n;
    while true
      invariant p > 0 && TopPower(p) == TopPower(n)
      decreases p
    {
      ClearLowest(p);
      var next := And(p, p - 1);
      if next == 0 {
        break;
      }
      p := next;
    }
  }

  /** fhs in common/generic_bit.c: the number of halvings until zero. */
  method Fhs(n: nat) returns (p: nat)
    ensures n < Pow2(p) && (n > 0 ==> p > 0 && Pow2(p - 1) <= n)
    ensures p == BitLength(n)
  {
    var m := n;
    p := 0;
    while m > 0
      invariant p + BitLength(m) == BitLength(n)
    {
      m := m / 2;
      p := p + 1;
    }
    BitLengthBounds(n);
  }

  // ---- single bits ----

  /** Bit `i` of `m` is set. */
  predicate Bit(m: nat, i: nat)
    decreases i
  {
    if i == 0 then m % 2 == 1 else Bit(m / 2, i - 1)
  }

  /** `m >> i`. */
  function Shift(m: nat, i: nat): nat
    decreases i
  {
    if i == 0 then m else Shift(m / 2, i - 1)
  }

  /** The number of set bits. */
  function Ones(m: nat): nat {
    if m == 0 then 0 else m % 2 + Ones(m / 2)
  }

  /** The number of set bits below bit `i`. */
  function Rank(m: nat, i: nat): nat
    decreases i
  {
    if i == 0 then 0 else m % 2 + Rank(m / 2, i - 1)
  }

  lemma {:induction false} ShiftBit(m: nat, i: nat)
    ensures Bit(m, i) == (Shift(m, i) % 2 == 1) && Shift(m, i + 1) == Shift(m, i) / 2
    decreases i
  {
    if i > 0 {
      ShiftBit(m / 2, i - 1);
    }
  }

  lemma {:induction false} ShiftZero(m: nat, i: nat, k: nat)
    requires Shift(m, i) == 0 && i <= k
    ensures !Bit(m, k)
    decreases i
  {
    if i > 0 {
      ShiftZero(m / 2, i - 1, k - 1);
    } else {
      ZeroBit(k);
    }
  }

  lemma {:induction false} ZeroBit(k: nat)
    ensures !Bit(0, k)
  {
    if k > 0 {
      ZeroBit(k - 1);
    }
  }

  lemma {:induction false} BitFits(m: nat, i: nat, n: nat)
    requires Bit(m, i) && m < Pow2(n)
    ensures i < n
    decreases i
  {
    if n == 0 {
      ZeroBit(i);
    } else if i > 0 {
      BitFits(m / 2, i - 1, n - 1);
    }
  }

  lemma {:induction false} RankStep(m: nat, i: nat)
    ensures Rank(m, i + 1) == Rank(m, i) + if Bit(m, i) then 1 else 0
    decreases i
  {
    if i > 0 {
      RankStep(m / 2, i - 1);
    }
  }

  lemma {:induction false} RankMonotone(m: nat, i: nat, k: nat)
    requires i < k
    ensures Rank(m, i) + (if Bit(m, i) then 1 else 0) <= Rank(m, k)
    decreases k
  {
    RankStep(m, k - 1);
    if i < k - 1 {
      RankMonotone(m, i, k - 1);
    }
  }

  lemma {:induction false} RankBelow(m: nat, i: nat)
    ensures Rank(m, i) <= Ones(m) && (Bit(m, i) ==> Rank(m, i) < Ones(m))
    decreases i
  {
    if m == 0 {
      ZeroBit(i);
      RankZero(i);
    } else if i > 0 {
      RankBelow(m / 2, i - 1);
    }
  }

  lemma {:induction false} RankAll(m: nat, i: nat)
    requires Shift(m, i) == 0
    ensures Rank(m, i) == Ones(m)
    decreases i
  {
    if i > 0 {
      RankAll(m / 2, i - 1);
      if m == 0 {
        RankZero(i);
      }
    }
  }

  lemma {:induction false} RankZero(i: nat)
    ensures Rank(0, i) == 0
  {
    if i > 0 {
      RankZero(i - 1);
    }
  }

  /** A mask of the low bits, as `topic - 1` is for a single topic. */
  lemma {:induction false} LowOnes(m: nat, i: nat)
    ensures Pow2(i) > 0 && Ones(And(m, Pow2(i) - 1)) == Rank(m, i)
    decreases i
  {
    if i > 0 {
      LowOnes(m / 2, i - 1);
      var b := Pow2(i - 1) - 1;
      assert (Pow2(i) - 1) / 2 == b && (Pow2(i) - 1) % 2 == 1;
      if m == 0 {
        RankZero(i);
      } else {
        assert And(m, Pow2(i) - 1) == m % 2 + 2 * And(m / 2, b);
        assert And(m, Pow2(i) - 1) / 2 == And(m / 2, b);
      }
    }
  }

  lemma {:induction false} AndPower(m: nat, i: nat)
    ensures And(m, Pow2(i)) != 0 <==> Bit(m, i)
    decreases i
  {
    if m == 0 {
      ZeroBit(i);
    } else if i > 0 {
      AndPower(m / 2, i - 1);
      assert Pow2(i) / 2 == Pow2(i - 1) && Pow2(i) % 2 == 0;
    } else {
      assert And(m / 2, 0) == 0;
    }
  }

  lemma AndZero(m: nat)
    ensures And(m, 0) == 0
  {
  }

  lemma {:induction false} OnesClear(n: nat)
    requires n > 0
    ensures Ones(And(n, n - 1)) == Ones(n) - 1
  {
    var a := n / 2;
    if n % 2 == 0 {
      assert (n - 1) / 2 == a - 1;
      OnesClear(a);
      assert And(n, n - 1) == 2 * And(a, a - 1);
    } else {
      assert (n - 1) / 2 == a;
      AndSame(a);
      assert n == 1 || And(n, n - 1) == 2 * a;
    }
  }

  /** A number with one bit: topic_check. */
  lemma SinglePower(n: nat)
    requires n > 0
    ensures And(n, n - 1) == 0 <==> n == Pow2(BitLength(n) - 1)
    ensures BitLength(n) > 0
  {
    ClearLowest(n);
    TopPowerBits(n);
    if n == Pow2(BitLength(n) - 1) {
      PowerClear(BitLength(n) - 1);
    }
  }

  /** `n & (n - 1)` is 0 exactly for the powers of two. */
  lemma SingleBit(n: nat)
    requires n > 0
    ensures And(n, n - 1) == 0 <==> exists i: nat :: n == Pow2(i)
  {
    SinglePower(n);
    if i: nat :| n == Pow2(i) {
      PowerClear(i);
    }
  }

  /** The number has one bit, and the mask has that bit. */
  ghost predicate OneOf(mask: nat, n: nat) {
    exists i: nat :: n == Pow2(i) && Bit(mask, i)
  }

  /** topic_check and topic_isset together. */
  lemma OneOfIs(mask: nat, n: nat)
    ensures OneOf(mask, n) <==> And(mask, n) != 0 && (n == 0 || And(n, n - 1) == 0)
  {
    AndZero(mask);
    if n > 0 {
      SingleBit(n);
      if And(n, n - 1) == 0 {
        var i: nat :| n == Pow2(i);
        AndPower(mask, i);
      }
    }
    if OneOf(mask, n) {
      var i: nat :| n == Pow2(i) && Bit(mask, i);
      PowerClear(i);
      AndPower(mask, i);
    }
  }

  lemma {:induction false} PowerClear(i: nat)
    ensures Pow2(i) > 0 && And(Pow2(i), Pow2(i) - 1) == 0
  {
    if i > 0 {
      PowerClear(i - 1);
      assert Pow2(i) / 2 == Pow2(i - 1) && (Pow2(i) - 1) / 2 == Pow2(i - 1) - 1;
    }
  }

  // ---- bitwise operators, bit by bit ----

  /** Bitwise or. */
  function Or(a: nat, b: nat): nat
    decreases a + b
  {
    if a == 0 && b == 0 then 0
    else (if a % 2 == 1 || b % 2 == 1 then 1 else 0) + 2 * Or(a / 2, b / 2)
  }

  lemma Half(d: nat, x: nat)
    requires d < 2
    ensures (d + 2 * x) / 2 == x && (d + 2 * x) % 2 == d
  {
  }

  lemma {:induction false} BitOr(a: nat, b: nat, k: nat)
    ensures Bit(Or(a, b), k) == (Bit(a, k) || Bit(b, k))
    decreases k
  {
    if a == 0 && b == 0 {
      ZeroBit(k);
    } else {
      Half(if a % 2 == 1 || b % 2 == 1 then 1 else 0, Or(a / 2, b / 2));
      if k > 0 {
        BitOr(a / 2, b / 2, k - 1);
      }
    }
  }

  lemma {:induction false} BitAnd(a: nat, b: nat, k: nat)
    ensures Bit(And(a, b), k) == (Bit(a, k) && Bit(b, k))
    decreases k
  {
    if a == 0 || b == 0 {
      ZeroBit(k);
    } else {
      Half(if a % 2 == 1 && b % 2 == 1 then 1 else 0, And(a / 2, b / 2));
      if k > 0 {
        BitAnd(a / 2, b / 2, k - 1);
      }
    }
  }

  lemma {:induction false} BitPower(i: nat, k: nat)
    ensures Bit(Pow2(i), k) == (i == k)
    decreases k
  {
    if i == 0 {
      if k > 0 {
        ZeroBit(k - 1);
      }
    } else if k > 0 {
      BitPower(i - 1, k - 1);
      assert Pow2(i) / 2 == Pow2(i - 1);
    }
  }

  /** The complement within `n` bits. */
  function Not(m: nat, n: nat): nat
    requires m < Pow2(n)
  {
    Pow2(n) - 1 - m
  }

  lemma NotHalf(m: nat, n: nat)
    requires m < Pow2(n) && n > 0
    ensures m / 2 < Pow2(n - 1) && Not(m, n) / 2 == Not(m / 2, n - 1) && Not(m, n) % 2 == 1 - m % 2
  {
    Half(1 - m % 2, Pow2(n - 1) - 1 - m / 2);
  }

  lemma {:induction false} BitNot(m: nat, n: nat, k: nat)
    requires m < Pow2(n) && k < n
    ensures Bit(Not(m, n), k) == !Bit(m, k)
    decreases k
  {
    NotHalf(m, n);
    if k > 0 {
      BitNot(m / 2, n - 1, k - 1);
    }
  }

  lemma {:induction false} OrFits(a: nat, b: nat, n: nat)
    requires a < Pow2(n) && b < Pow2(n)
    ensures Or(a, b) < Pow2(n)
    decreases n
  {
    if n > 0 && (a > 0 || b > 0) {
      OrFits(a / 2, b / 2, n - 1);
    }
  }

  lemma {:induction false} AndBelow(a: nat, b: nat)
    ensures And(a, b) <= a
    decreases a
  {
    if a > 0 && b > 0 {
      AndBelow(a / 2, b / 2);
    }
  }

  lemma {:induction false} SameBits(a: nat, b: nat)
    requires forall k: nat :: Bit(a, k) == Bit(b, k)
    ensures a == b
    decreases a + b
  {
    assert Bit(a, 0) == Bit(b, 0);
    if a > 0 || b > 0 {
      assert forall k: nat :: Bit(a / 2, k) == Bit(a, k + 1);
      assert forall k: nat :: Bit(b / 2, k) == Bit(b, k + 1);
      SameBits(a / 2, b / 2);
    }
  }

  lemma {:induction false} BitShift(m: nat, i: nat, k: nat)
    ensures Bit(Shift(m, i), k) == Bit(m, i + k)
    decreases i
  {
    if i > 0 {
      BitShift(m / 2, i - 1, k);
    }
  }

  lemma {:induction false} ShiftAdd(m: nat, i: nat, k: nat)
    ensures Shift(Shift(m, i), k) == Shift(m, i + k)
    decreases i
  {
    if i > 0 {
      ShiftAdd(m / 2, i - 1, k);
    }
  }

  lemma ShiftByte(m: nat)
    ensures Shift(m, 8) == m / 256
  {
    assert Shift(m, 2) == m / 4;
    ShiftAdd(m, 2, 2);
    assert Shift(m / 4, 2) == m / 16;
    ShiftAdd(m, 4, 4);
    ShiftNibble(m / 16);
  }

  lemma ShiftNibble(m: nat)
    ensures Shift(m, 4) == m / 16
  {
    assert Shift(m, 2) == m / 4;
    ShiftAdd(m, 2, 2);
    assert Shift(m / 4, 2) == m / 16;
  }

  /** A number whose low `n` bits are set, by masking them out. */
  lemma {:induction false} LowSet(m: nat, n: nat)
    requires Pow2(n) > 0 && And(m, Pow2(n) - 1) == Pow2(n) - 1
    ensures forall k :: 0 <= k < n ==> Bit(m, k)
    decreases n
  {
    if n > 0 {
      var b := Pow2(n - 1) - 1;
      assert (Pow2(n) - 1) / 2 == b && (Pow2(n) - 1) % 2 == 1;
      assert And(m, Pow2(n) - 1) == m % 2 + 2 * And(m / 2, b);
      LowSet(m / 2, n - 1);
      assert forall k :: 0 < k < n ==> Bit(m, k) == Bit(m / 2, k - 1);
    }
  }

  /** Only the number with all of the low `n` bits set has no clear bit there. */
  lemma {:induction false} ClearBitBelow(m: nat, n: nat) returns (k: nat)
    requires m + 1 < Pow2(n)
    ensures k < n && !Bit(m, k)
    decreases n
  {
    if m % 2 == 0 {
      k := 0;
    } else {
      k := ClearBitBelow(m / 2, n - 1);
      k := k + 1;
    }
  }

  /** bit_index in ipc/ipc_server.c: the highest set bit, and 0 for no bit at all. */
  method BitIndex(mask: nat) returns (i: nat)
    ensures mask == 0 ==> i == 0
    ensures mask > 0 ==> Pow2(i) <= mask < Pow2(i + 1) && i == BitLength(mask) - 1
  {
    var m: nat := mask / 2;
    i := 0;
    while m > 0
      invariant mask == 0 ==> m == 0 && i == 0
      invariant mask > 0 ==> i + 1 + BitLength(m) == BitLength(mask)
    {
      m := m / 2;
      i := i + 1;
    }
    BitLengthBounds(mask);
  }

  /** bit_count in ipc/ipc_server.c. */
  method BitCount(mask: nat) returns (i: nat)
    ensures i == Ones(mask)
  {
    var m := mask;
    i := 0;
    while m > 0
      invariant i + Ones(m) == Ones(mask)
      decreases m
    {
      OnesClear(m);
      ClearLowest(m);
      i := i + 1;
      m := And(m, m - 1);
    }
  }
}
