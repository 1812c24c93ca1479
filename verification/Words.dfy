/** 32-bit words and the alignment macros of the kernel configuration. */
module Words {
  const U32: nat := 0x1_0000_0000
  const RT_ALIGN_SIZE: nat := 8
  const NULL: nat := 0

  /** RT_ALIGN on 32-bit words: the addition wraps. */
  function RtAlign(n: nat): (r: nat) {
    var m := (n + RT_ALIGN_SIZE - 1) % U32;
    m - m % RT_ALIGN_SIZE
  }

  function RtAlignDown(n: nat): nat {
    n - n % RT_ALIGN_SIZE
  }

  /** Aligning up gives the least multiple of 8 that is large enough, unless the word wraps, and then it gives 0. */
  lemma RtAlignMeaning(n: nat)
    requires n < 0x1_0000_0000
    ensures RtAlign(n) % 8 == 0 && RtAlign(n) < 0x1_0000_0000
    ensures n <= RtAlign(n) <==> n <= 0xffff_fff8
    ensures n <= 0xffff_fff8 ==> RtAlign(n) < n + 8
    ensures n > 0xffff_fff8 ==> RtAlign(n) == 0
  {
  }

  /** Aligning down gives the greatest multiple of 8 that is not above. */
  lemma RtAlignDownMeaning(n: nat)
    ensures RtAlignDown(n) % 8 == 0 && RtAlignDown(n) <= n < RtAlignDown(n) + 8
  {
  }

  lemma RtAlignTwice(n: nat)
    requires n < U32
    ensures RtAlign(RtAlign(n)) == RtAlign(n)
  {
  }

  // ------------------------------------------------------------ multiples

  lemma {:induction false} MulLe(a: nat, b: nat, c: nat)
    requires a <= b
    ensures a * c <= b * c
  {
    assert b * c == a * c + (b - a) * c;
  }

  lemma MultipleOf(q: nat, a: nat)
    requires a > 0
    ensures q * a % a == 0
  {
    var m := q * a / a;
    assert q * a == m * a + q * a % a;
    assert (q - m) * a == q * a % a;
    if q > m { MulLe(1, q - m, a); }
  }

  lemma AddMultiple(x: nat, y: nat, a: nat)
    requires a > 0 && x % a == 0 && y % a == 0
    ensures (x + y) % a == 0
  {
    var p, q := x / a, y / a;
    assert x == p * a && y == q * a;
    assert x + y == (p + q) * a;
    MultipleOf(p + q, a);
  }

  lemma TakeMultiple(x: nat, y: nat, a: nat)
    requires a > 0 && y % a == 0 && (x + y) % a == 0
    ensures x % a == 0
  {
    var p, q := (x + y) / a, y / a;
    assert x + y == p * a && y == q * a;
    assert x == (p - q) * a;
    if p < q { MulLe(1, q - p, a); }
    MultipleOf(if p < q then 0 else p - q, a);
  }

  lemma MultipleOfMultiple(x: nat, m: nat, a: nat)
    requires m > 0 && a > 0 && m * a > 0 && x % (m * a) == 0
    ensures x % a == 0
  {
    var q := x / (m * a);
    assert x == q * (m * a);
    assert x == q * m * a;
    MultipleOf(q * m, a);
  }
}
