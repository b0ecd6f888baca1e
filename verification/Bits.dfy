/**
 Bitwise AND on naturals, and the reason `pos & (Capacity - 1)` is `pos % Capacity`.
 */
module Bits {

  function BitAnd(a: nat, b: nat): nat {
    if a == 0 || b == 0 then 0 else (a % 2) * (b % 2) + 2 * BitAnd(a / 2, b / 2)
  }

  predicate PowerOfTwo(c: nat) {
    c == 1 || (c > 0 && c % 2 == 0 && PowerOfTwo(c / 2))
  }

  /** `c - 1` on 64 bits: zero wraps. */
  function OneLess(c: nat): nat {
    if c == 0 then 0xFFFF_FFFF_FFFF_FFFF else c - 1
  }

  /** The queue's static assertion admits zero and the powers of two, nothing else. */
  lemma {:induction false} StaticAssertAdmits(c: nat)
    ensures BitAnd(c, OneLess(c)) == 0 <==> c == 0 || PowerOfTwo(c)
  {
    if c <= 1 {
    } else if c % 2 == 0 {
      StaticAssertAdmits(c / 2);
      assert (c - 1) / 2 == c / 2 - 1 && c % 2 == 0;
      assert BitAnd(c, c - 1) == 2 * BitAnd(c / 2, c / 2 - 1);
    } else {
      SelfAnd(c / 2);
      assert (c - 1) / 2 == c / 2;
    }
  }

  lemma {:induction false} SelfAnd(a: nat)
    ensures BitAnd(a, a) == a
  {
    if a > 0 { SelfAnd(a / 2); }
  }

  /** Masking with one less than a power of two is the remainder. */
  lemma {:induction false} MaskIsMod(a: nat, c: nat)
    requires PowerOfTwo(c)
    ensures BitAnd(a, c - 1) == a % c
  {
    if c > 1 {
      MaskIsMod(a / 2, c / 2);
      assert (c - 1) / 2 == c / 2 - 1;
      HalveMod(a, c / 2);
    }
  }

  lemma {:induction false} HalveMod(a: nat, d: nat)
    requires d > 0
    ensures a % (2 * d) == a % 2 + 2 * ((a / 2) % d)
  {
    var q, r := (a / 2) / d, (a / 2) % d;
    assert a == (2 * d) * q + (2 * r + a % 2) by {
      assert a / 2 == d * q + r;
    }
    ModUnique(a, 2 * d, q, 2 * r + a % 2);
  }

  /** A remainder is determined by any quotient that leaves it in range. */
  lemma {:induction false} ModUnique(a: int, d: int, q: int, r: int)
    requires d > 0 && a == d * q + r && 0 <= r < d
    ensures a % d == r
  {
    SameQuotient(d, q, r, a / d, a % d);
  }

  lemma {:induction false} SameQuotient(d: int, q: int, r: int, q': int, r': int)
    requires d > 0 && d * q + r == d * q' + r' && 0 <= r < d && 0 <= r' < d
    ensures q == q' && r == r'
  {
    MulDiff(d, q, q');
    NoSmallMultiple(d, q - q');
    NoSmallMultiple(d, q' - q);
    assert d * (q' - q) == -(d * (q - q'));
  }

  lemma {:induction false} MulDiff(d: int, m: int, n: int)
    ensures d * (m - n) == d * m - d * n
  {
  }

  lemma {:induction false} NoSmallMultiple(d: int, k: int)
    requires d > 0
    ensures k >= 1 ==> d * k >= d
    ensures k <= 0 ==> d * k <= 0
  {
  }

  lemma {:induction false} ModShift(p: int, d: int)
    requires d > 0
    ensures (p - d) % d == p % d && (p + d) % d == p % d
  {
    var q, r := p / d, p % d;
    assert d * (q - 1) == d * q - d && d * (q + 1) == d * q + d;
    ModUnique(p - d, d, q - 1, r);
    ModUnique(p + d, d, q + 1, r);
  }

  /** Two tickets less than a lap apart never share a slot. */
  lemma {:induction false} ModDistinct(p: int, q: int, d: int)
    requires d > 0 && p < q < p + d
    ensures p % d != q % d
  {
    var m, n := p / d, q / d;
    MulDiff(d, n, m);
    NoSmallMultiple(d, n - m);
    assert p % d == q % d ==> q - p == d * (n - m);
  }
}
