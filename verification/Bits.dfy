/** Bit masks as the program uses them, on unbounded naturals. */
module Bits {

  function BitAnd(a: nat, b: nat): (r: nat)
    decreases a
  {
    if a == 0 then 0 else 2 * BitAnd(a / 2, b / 2) + if a % 2 == 1 && b % 2 == 1 then 1 else 0
  }

  function Pow2(k: nat): (p: nat)
    ensures p >= 1
  {
    if k == 0 then 1 else 2 * Pow2(k - 1)
  }

  /** Masking with one less than a power of two is taking the remainder. */
  lemma {:induction false} MaskIsMod(a: nat, k: nat)
    ensures BitAnd(a, Pow2(k) - 1) == a % Pow2(k)
    decreases k
  {
    if k == 0 {
      MaskZero(a);
      assert a % 1 == 0;
    } else if a > 0 {
      var p := Pow2(k - 1);
      assert (2 * p - 1) / 2 == p - 1 && (2 * p - 1) % 2 == 1;
      MaskIsMod(a / 2, k - 1);
      ModHalves(a, p);
    } else {
      assert 0 % Pow2(k) == 0;
    }
  }

  lemma {:induction false} MaskZero(a: nat)
    ensures BitAnd(a, 0) == 0
    decreases a
  {
    if a > 0 {
      MaskZero(a / 2);
    }
  }

  lemma {:induction false} ModHalves(a: nat, p: nat)
    requires p >= 1
    ensures a % (2 * p) == 2 * (a / 2 % p) + a % 2
  {
    var q, r := a / 2 / p, a / 2 % p;
    assert a / 2 == q * p + r;
    assert a == 2 * (a / 2) + a % 2;
    assert a == q * (2 * p) + (2 * r + a % 2);
    ModUnique(a, 2 * p, q, 2 * r + a % 2);
  }

  lemma {:induction false} NonZeroMultiple(d: int, m: int)
    requires d != 0 && m >= 1
    ensures d * m >= m || d * m <= -m
    decreases if d > 0 then d else -d
  {
    if d > 1 {
      NonZeroMultiple(d - 1, m);
      assert d * m == (d - 1) * m + m;
    } else if d < -1 {
      NonZeroMultiple(d + 1, m);
      assert d * m == (d + 1) * m - m;
    }
  }

  lemma {:induction false} ModUnique(a: nat, m: nat, q: nat, r: nat)
    requires m >= 1 && r < m && a == q * m + r
    ensures a % m == r && a / m == q
  {
    var q', r' := a / m, a % m;
    var d := q - q';
    assert d * m == r' - r by { assert a == q' * m + r'; assert d * m == q * m - q' * m; }
    if d != 0 {
      NonZeroMultiple(d, m);
    }
  }

  /** Two numbers less than `m` apart have different remainders. */
  lemma {:induction false} NearbyModsDiffer(a: nat, b: nat, m: nat)
    requires a < b < a + m
    ensures a % m != b % m
  {
    var d := b / m - a / m;
    assert d * m == b - a + a % m - b % m by {
      assert a == a / m * m + a % m && b == b / m * m + b % m;
      assert d * m == b / m * m - a / m * m;
    }
    if a % m == b % m && d != 0 {
      NonZeroMultiple(d, m);
    }
  }

  lemma {:induction false} AndSelf(m: nat)
    ensures BitAnd(m, m) == m
    decreases m
  {
    if m > 0 {
      AndSelf(m / 2);
    }
  }

  ghost predicate IsPow2(c: nat) { exists k: nat :: c == Pow2(k) }

  lemma {:induction false} DoublePow2(m: nat)
    requires m >= 1
    ensures IsPow2(2 * m) <==> IsPow2(m)
  {
    if IsPow2(m) {
      var k: nat :| m == Pow2(k);
      assert 2 * m == Pow2(k + 1);
    }
    if IsPow2(2 * m) {
      var k: nat :| 2 * m == Pow2(k);
      assert k > 0 && m == Pow2(k - 1);
    }
  }

  lemma {:induction false} OddNotPow2(c: nat)
    requires c > 1 && c % 2 == 1
    ensures !IsPow2(c)
  {
    forall k: nat
      ensures c != Pow2(k)
    {
      if k > 0 { assert Pow2(k) == 2 * Pow2(k - 1); }
    }
  }

  lemma {:induction false} PositiveCapacityTest(c: nat)
    requires c > 0
    ensures BitAnd(c, c - 1) == 0 <==> IsPow2(c)
    decreases c
  {
    if c == 1 {
      assert c == Pow2(0);
      assert BitAnd(1, 0) == 2 * BitAnd(0, 0);
    } else if c % 2 == 0 {
      PositiveCapacityTest(c / 2);
      DoublePow2(c / 2);
      assert (c - 1) / 2 == c / 2 - 1;
    } else {
      AndSelf(c / 2);
      OddNotPow2(c);
      assert (c - 1) / 2 == c / 2;
    }
  }

  const SIZE_MAX: nat := 0xFFFF_FFFF_FFFF_FFFF

  /** The compile-time test on the capacity, in unsigned arithmetic, accepts exactly 0 and the
      powers of two. */
  lemma {:induction false} CapacityTest(c: nat)
    ensures BitAnd(c, if c == 0 then SIZE_MAX else c - 1) == 0 <==> c == 0 || IsPow2(c)
  {
    if c > 0 {
      PositiveCapacityTest(c);
    }
  }
}
