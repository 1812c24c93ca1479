/** Words as bit maps, and the find-first-set of kservice.c. */
module Bits {

  function Pow2(n: nat): nat {
    if n == 0 then 1 else 2 * Pow2(n - 1)
  }

  /** Bit `k` of `w`. */
  predicate Bit(w: nat, k: nat) {
    if k == 0 then w % 2 == 1 else Bit(w / 2, k - 1)
  }

  /** `a | b` */
  function Or(a: nat, b: nat): nat {
    if a == 0 && b == 0 then 0 else (if a % 2 == 1 || b % 2 == 1 then 1 else 0) + 2 * Or(a / 2, b / 2)
  }

  /** `a & ~b` */
  function AndNot(a: nat, b: nat): nat {
    if a == 0 then 0 else (if a % 2 == 1 && b % 2 == 0 then 1 else 0) + 2 * AndNot(a / 2, b / 2)
  }

  /** `1 << n` */
  function Mask(n: nat): nat {
    Pow2(n)
  }

  lemma {:induction false} ZeroBits(k: nat)
    ensures !Bit(0, k)
  {
    if k > 0 { ZeroBits(k - 1); }
  }

  lemma {:induction false} MaskBit(n: nat, k: nat)
    ensures Bit(Mask(n), k) <==> k == n
  {
    if n > 0 {
      assert Mask(n) / 2 == Mask(n - 1) && Mask(n) % 2 == 0;
      if k > 0 { MaskBit(n - 1, k - 1); }
    } else if k > 0 {
      ZeroBits(k - 1);
    }
  }

  lemma {:induction false} OrBit(a: nat, b: nat, k: nat)
    ensures Bit(Or(a, b), k) <==> Bit(a, k) || Bit(b, k)
  {
    if a == 0 && b == 0 {
      ZeroBits(k);
    } else {
      var r := Or(a / 2, b / 2);
      assert Or(a, b) / 2 == r;
      if k > 0 { OrBit(a / 2, b / 2, k - 1); }
    }
  }

  lemma {:induction false} AndNotBit(a: nat, b: nat, k: nat)
    ensures Bit(AndNot(a, b), k) <==> Bit(a, k) && !Bit(b, k)
  {
    if a == 0 {
      ZeroBits(k);
    } else {
      assert AndNot(a, b) / 2 == AndNot(a / 2, b / 2);
      if k > 0 { AndNotBit(a / 2, b / 2, k - 1); }
    }
  }

  lemma {:induction false} BitInRange(w: nat, n: nat, k: nat)
    requires w < Pow2(n) && Bit(w, k)
    ensures k < n
  {
    if n == 0 { ZeroBits(k); }
    else if k > 0 { BitInRange(w / 2, n - 1, k - 1); }
  }

  lemma {:induction false} OrInRange(a: nat, b: nat, n: nat)
    requires a < Pow2(n) && b < Pow2(n)
    ensures Or(a, b) < Pow2(n)
  {
    if n > 0 && !(a == 0 && b == 0) { OrInRange(a / 2, b / 2, n - 1); }
  }

  lemma {:induction false} AndNotInRange(a: nat, b: nat, n: nat)
    requires a < Pow2(n)
    ensures AndNot(a, b) < Pow2(n)
  {
    if n > 0 && a > 0 { AndNotInRange(a / 2, b / 2, n - 1); }
  }

  lemma {:induction false} Pow2Grows(m: nat, n: nat)
    requires m < n
    ensures Pow2(m) < Pow2(n)
  {
    if m > 0 { Pow2Grows(m - 1, n - 1); }
    else if n > 1 { Pow2Grows(0, n - 1); }
  }

  // ------------------------------------------------------ lowest set bit

  ghost predicate IsLowest(w: nat, k: nat) {
    Bit(w, k) && forall j: nat :: j < k ==> !Bit(w, j)
  }

  /** The index of the lowest set bit. */
  ghost function Low(w: nat): nat
    requires w > 0
  {
    if w % 2 == 1 then 0 else 1 + Low(w / 2)
  }

  lemma {:induction false} LowIsLowest(w: nat)
    requires w > 0
    ensures IsLowest(w, Low(w))
  {
    if w % 2 == 0 {
      LowIsLowest(w / 2);
      forall j: nat | j < Low(w) ensures !Bit(w, j) {
        if j > 0 { assert !Bit(w / 2, j - 1); }
      }
    }
  }

  lemma {:induction false} LowOfSum(q: nat, r: nat, n: nat)
    requires 0 < r < Pow2(n)
    ensures Low(Pow2(n) * q + r) == Low(r)
  {
    if r % 2 == 0 {
      assert Pow2(n) * q == 2 * (Pow2(n - 1) * q);
      assert (Pow2(n) * q + r) / 2 == Pow2(n - 1) * q + r / 2;
      LowOfSum(q, r / 2, n - 1);
    } else {
      assert Pow2(n) == 2 * Pow2(n - 1);
      assert Pow2(n) * q == 2 * (Pow2(n - 1) * q);
    }
  }

  lemma {:induction false} LowOfMultiple(q: nat, n: nat)
    requires q > 0
    ensures Pow2(n) * q > 0 && Low(Pow2(n) * q) == n + Low(q)
  {
    if n > 0 {
      assert Pow2(n) * q == 2 * (Pow2(n - 1) * q);
      LowOfMultiple(q, n - 1);
    }
  }

  // ------------------------------------------------------------- __rt_ffs

  /** One line of the table; the lines differ only in their first entry. */
  function Line(first: nat): (r: seq<nat>)
    ensures |r| == 16
  {
    [first, 0, 1, 0, 2, 0, 1, 0, 3, 0, 1, 0, 2, 0, 1, 0]
  }

  /** The first entries of the sixteen lines. */
  function Firsts(): (r: seq<nat>)
    ensures |r| == 16
  {
    [0, 4, 5, 4, 6, 4, 5, 4, 7, 4, 5, 4, 6, 4, 5, 4]
  }

  /** `__lowest_bit_bitmap[v]` */
  function LowestBitTable(v: nat): nat
    requires v < 256
  {
    Line(Firsts()[v / 16])[v % 16]
  }

  lemma LineIsRight(c: nat, first: nat)
    requires 0 < c < 16
    ensures Line(first)[c] == Low(c)
  {
    assert Low(1) == 0 && Low(2) == 1 && Low(4) == 2 && Low(8) == 3;
    assert Low(6) == 1 && Low(10) == 1 && Low(12) == 2 && Low(14) == 1;
  }

  lemma FirstsAreRight(q: nat)
    requires 0 < q < 16
    ensures Firsts()[q] == 4 + Low(q)
  {
    assert Low(1) == 0 && Low(2) == 1 && Low(4) == 2 && Low(8) == 3;
    assert Low(6) == 1 && Low(10) == 1 && Low(12) == 2 && Low(14) == 1;
  }

  lemma Pow2Of4()
    ensures Pow2(4) == 16
  {
    assert Pow2(2) == 4;
  }

  lemma FirstOfLine(first: nat)
    ensures Line(first)[0] == first
  {
  }

  /** The table holds the lowest set bit of every byte but 0. */
  lemma TableIsRight(v: nat)
    requires 0 < v < 256
    ensures LowestBitTable(v) == Low(v)
  {
    hide Low, Pow2, Line, Firsts;
    Pow2Of4();
    if v % 16 != 0 {
      LineIsRight(v % 16, Firsts()[v / 16]);
      LowOfSum(v / 16, v % 16, 4);
    } else {
      FirstOfLine(Firsts()[v / 16]);
      FirstsAreRight(v / 16);
      LowOfMultiple(v / 16, 4);
    }
  }

  function Ffs(value: nat): nat
    requires value < 0x1_0000_0000
  {
    if value == 0 then 0
    else if value % 256 != 0 then LowestBitTable(value % 256) + 1
    else if value / 256 % 256 != 0 then LowestBitTable(value / 256 % 256) + 9
    else if value / 65536 % 256 != 0 then LowestBitTable(value / 65536 % 256) + 17
    else LowestBitTable(value / 16777216 % 256) + 25
  }

  lemma LowByte(value: nat)
    requires value % 256 != 0
    ensures Low(value) == LowestBitTable(value % 256)
  {
    TableIsRight(value % 256);
    Pow2Of8();
    LowOfSum(value / 256, value % 256, 8);
  }

  lemma NextByte(value: nat)
    requires value > 0 && value % 256 == 0
    ensures value / 256 > 0 && Low(value) == 8 + Low(value / 256)
  {
    Pow2Of8();
    LowOfMultiple(value / 256, 8);
  }

  lemma Pow2Of8()
    ensures Pow2(8) == 256
  {
    assert Pow2(4) == 16 by { assert Pow2(2) == 4; }
    assert Pow2(6) == 64;
  }

  /** The result is 0 for 0, and otherwise one more than the index of the lowest set bit. */
  lemma FfsMeaning(value: nat)
    requires value < 0x1_0000_0000
    ensures Ffs(value) == 0 <==> value == 0
    ensures value > 0 ==> IsLowest(value, Ffs(value) - 1)
  {
    if value > 0 {
      LowIsLowest(value);
      hide Low, LowestBitTable, IsLowest;
      if value % 256 != 0 {
        LowByte(value);
      } else {
        NextByte(value);
        if value / 256 % 256 != 0 {
          LowByte(value / 256);
        } else {
          NextByte(value / 256);
          assert value / 256 / 256 == value / 65536;
          if value / 65536 % 256 != 0 {
            LowByte(value / 65536);
          } else {
            NextByte(value / 65536);
            assert value / 65536 / 256 == value / 16777216;
            LowByte(value / 16777216);
          }
        }
      }
    }
  }
}
