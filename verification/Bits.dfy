/** Machine words as natural numbers, read bit by bit, and __rt_ffs (rt-thread/src/kservice.c). */
module Bits {

  const WORD: nat := 0x1_0000_0000

  /** Bit p of m. */
  predicate Has(m: nat, p: nat) {
    if p == 0 then m % 2 == 1 else Has(m / 2, p - 1)
  }

  /** a | b */
  function Or(a: nat, b: nat): nat
    decreases a + b
  {
    if a == 0 then b
    else if b == 0 then a
    else 2 * Or(a / 2, b / 2) + (if a % 2 == 1 || b % 2 == 1 then 1 else 0)
  }

  /** a & ~b */
  function AndNot(a: nat, b: nat): nat {
    if a == 0 then 0
    else 2 * AndNot(a / 2, b / 2) + (if a % 2 == 1 && b % 2 == 0 then 1 else 0)
  }

  /** 1 << p */
  function Shl1(p: nat): nat {
    if p == 0 then 1 else 2 * Shl1(p - 1)
  }

  lemma HasZero(p: nat)
    ensures !Has(0, p)
  {
  }

  lemma HasOr(a: nat, b: nat, p: nat)
    ensures Has(Or(a, b), p) <==> Has(a, p) || Has(b, p)
  {
    HasZero(p);
  }

  lemma HasAndNot(a: nat, b: nat, p: nat)
    ensures Has(AndNot(a, b), p) <==> Has(a, p) && !Has(b, p)
  {
    HasZero(p);
  }

  lemma HasShl1(p: nat, q: nat)
    ensures Has(Shl1(p), q) <==> p == q
  {
    if p == 0 && q > 0 { HasZero(q - 1); }
  }

  lemma Shl1Monotone(p: nat, n: nat)
    requires p < n
    ensures Shl1(p) < Shl1(n)
  {
  }

  lemma OrBound(a: nat, b: nat, n: nat)
    requires a < Shl1(n) && b < Shl1(n)
    ensures Or(a, b) < Shl1(n)
  {
    if n > 0 && a > 0 && b > 0 { OrBound(a / 2, b / 2, n - 1); }
  }

  lemma AndNotBound(a: nat, b: nat)
    ensures AndNot(a, b) <= a
  {
  }

  lemma OrSet(a: nat, p: nat)
    requires Has(a, p)
    ensures Or(a, Shl1(p)) == a
  {
    HasZero(p);
    if p > 0 { OrSet(a / 2, p - 1); } else { assert Or(a / 2, 0) == a / 2; }
  }

  lemma AndNotClear(a: nat, p: nat)
    requires !Has(a, p)
    ensures AndNot(a, Shl1(p)) == a
  {
    if p > 0 && a > 0 { AndNotClear(a / 2, p - 1); } else { AndNotZero(a / 2); }
  }

  lemma AndNotZero(a: nat)
    ensures AndNot(a, 0) == a
  {
  }

  lemma HasBelow(m: nat, p: nat, n: nat)
    requires m < Shl1(n) && Has(m, p)
    ensures p < n
  {
    if n == 0 { HasZero(p); }
  }

  // ---------- the lowest set bit, by definition and by table ----------

  function Low(m: nat): nat
    requires m != 0
  {
    if m % 2 == 1 then 0 else 1 + Low(m / 2)
  }

  lemma LowIsLowest(m: nat, q: nat)
    requires m != 0
    ensures Has(m, Low(m))
    ensures q < Low(m) ==> !Has(m, q)
  {
  }

  // __lowest_bit_bitmap has sixteen rows of sixteen; the rows differ in their first entry alone.
  const ROW_HEADS: seq<nat> := [0, 4, 5, 4, 6, 4, 5, 4, 7, 4, 5, 4, 6, 4, 5, 4]
  const ROW_TAIL: seq<nat> := [0, 1, 0, 2, 0, 1, 0, 3, 0, 1, 0, 2, 0, 1, 0]

  function LowestBitBitmap(b: nat): nat
    requires b < 0x100
  {
    ([ROW_HEADS[b / 16]] + ROW_TAIL)[b % 16]
  }

  /** __rt_ffs: one byte at a time, each through the table. */
  function Ffs(value: nat): nat
    requires value < WORD
  {
    if value == 0 then 0
    else if value % 0x100 != 0 then LowestBitBitmap(value % 0x100) + 1
    else if value % 0x1_0000 != 0 then LowestBitBitmap((value / 0x100) % 0x100) + 9
    else if value % 0x100_0000 != 0 then LowestBitBitmap((value / 0x1_0000) % 0x100) + 17
    else LowestBitBitmap(value / 0x100_0000) + 25
  }

  /** __rt_ffs numbers bits from 1, answers 0 for 0, and otherwise finds the lowest set bit. */
  lemma FfsFindsLowestBit(value: nat)
    requires value < WORD
    ensures Ffs(value) == 0 <==> value == 0
    ensures value != 0 ==> Ffs(value) <= 32 && Has(value, Ffs(value) - 1)
    ensures forall q: nat :: q + 1 < Ffs(value) ==> !Has(value, q)
  {
    if value != 0 {
      FfsIsLow(value);
      LowIsLowest(value, 0);
      assert Shl1(32) == WORD by { assert Shl1(8) == 256 && Shl1(16) == 65536 && Shl1(24) == 0x100_0000; }
      HasBelow(value, Low(value), 32);
      forall q: nat | q + 1 < Ffs(value) ensures !Has(value, q) { LowIsLowest(value, q); }
    }
  }

  // The bits of m from bit n up, and the bits below bit n.
  function High(m: nat, n: nat): nat { if n == 0 then m else High(m / 2, n - 1) }
  function Trunc(m: nat, n: nat): nat { if n == 0 then 0 else 2 * Trunc(m / 2, n - 1) + m % 2 }

  lemma {:induction false} LowSplit(m: nat, n: nat)
    requires m != 0
    ensures Trunc(m, n) != 0 ==> Low(m) == Low(Trunc(m, n))
    ensures Trunc(m, n) == 0 ==> High(m, n) != 0 && Low(m) == n + Low(High(m, n))
  {
    if n > 0 && m % 2 == 0 { LowSplit(m / 2, n - 1); }
  }

  lemma {:induction false} SplitTwice(m: nat, a: nat, b: nat)
    ensures High(m, a + b) == High(High(m, a), b)
    ensures Trunc(m, a + b) == Trunc(m, a) + Shl1(a) * Trunc(High(m, a), b)
  {
    if a > 0 {
      SplitTwice(m / 2, a - 1, b);
      Doubled(Shl1(a - 1), Trunc(High(m / 2, a - 1), b));
    }
  }

  lemma Doubled(x: nat, y: nat)
    ensures 2 * x * y == 2 * (x * y)
  {
  }

  lemma {:induction false} Split2(m: nat)
    ensures Trunc(m, 2) == m % 4 && High(m, 2) == m / 4
  {
    assert High(m, 2) == High(m / 2, 1) == High(m / 2 / 2, 0);
    assert Trunc(m, 2) == 2 * Trunc(m / 2, 1) + m % 2;
    assert Trunc(m / 2, 1) == 2 * Trunc(m / 2 / 2, 0) + m / 2 % 2;
  }

  lemma {:induction false} Split4(m: nat)
    ensures Trunc(m, 4) == m % 16 && High(m, 4) == m / 16
  {
    SplitTwice(m, 2, 2);
    Split2(m);
    Split2(m / 4);
  }

  lemma Nibbles(m: nat)
    ensures m % 256 == m % 16 + 16 * (m / 16 % 16) && m / 256 == m / 16 / 16
  {
  }

  lemma {:induction false} Split8(m: nat)
    ensures Trunc(m, 8) == m % 256 && High(m, 8) == m / 256
  {
    SplitTwice(m, 4, 4);
    assert Shl1(4) == 16;
    Split4(m);
    Split4(m / 16);
    Nibbles(m);
  }

  lemma LowNibbles()
    ensures forall i :: 1 <= i < 16 ==> Low(i) == ROW_TAIL[i - 1] && ROW_HEADS[i] == 4 + Low(i)
  {
    assert Low(1) == 0 && Low(2) == 1 && Low(3) == 0 && Low(4) == 2 && Low(5) == 0 && Low(6) == 1 && Low(7) == 0;
    assert Low(8) == 3 && Low(9) == 0 && Low(10) == 1 && Low(11) == 0;
    assert Low(12) == 2 && Low(13) == 0 && Low(14) == 1 && Low(15) == 0;
  }

  lemma {:induction false} TableIsLow(b: nat)
    requires 0 < b < 0x100
    ensures LowestBitBitmap(b) == Low(b)
  {
    LowSplit(b, 4);
    Split4(b);
    LowNibbles();
  }

  lemma {:induction false} FfsIsLow(value: nat)
    requires 0 < value < WORD
    ensures Ffs(value) == Low(value) + 1
  {
    var v1, v2, v3 := value / 0x100, value / 0x1_0000, value / 0x100_0000;
    assert v1 / 0x100 == v2 && v2 / 0x100 == v3;
    LowSplit(value, 8);
    Split8(value);
    if value % 0x100 != 0 {
      TableIsLow(value % 0x100);
    } else {
      LowSplit(v1, 8);
      Split8(v1);
      if v1 % 0x100 != 0 {
        TableIsLow(v1 % 0x100);
      } else {
        LowSplit(v2, 8);
        Split8(v2);
        if v2 % 0x100 != 0 { TableIsLow(v2 % 0x100); } else { TableIsLow(v3); }
      }
    }
  }
}
