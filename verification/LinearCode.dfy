/** The linear code of the motor protocol: a value in a range as an unsigned integer
    (lib/utility/Utility.cpp; the simulator and include/mercury_shm.h have their own copies).

    `top` is the greatest code, 2^bits - 1.  Arithmetic is over the reals. */
module LinearCode {
  /** A range that is not empty, and at least one bit. */
  datatype Range = Range(lo: real, hi: real, top: nat)

  predicate Proper(r: Range) { r.lo < r.hi && r.top > 0 }

  /** `limitMinMax`. */
  function Clamp(x: real, lo: real, hi: real): real {
    var y := if hi < x then hi else x;
    if lo < y then y else lo
  }

  /** The clamped value, scaled to the codes. */
  function Scaled(x: real, r: Range): real
    requires Proper(r)
  {
    (Clamp(x, r.lo, r.hi) - r.lo) / (r.hi - r.lo) * (r.top as real)
  }

  /** `doubleToUint`: the cast rounds down. */
  function Encode(x: real, r: Range): int
    requires Proper(r)
  {
    Scaled(x, r).Floor
  }

  /** `uintToDouble`. */
  function Decode(k: nat, r: Range): real
    requires Proper(r)
  {
    (k as real) / (r.top as real) * (r.hi - r.lo) + r.lo
  }

  /** The distance of neighbouring codes. */
  function Quantum(r: Range): (q: real)
    requires Proper(r)
    ensures q > 0.0
  {
    (r.hi - r.lo) / (r.top as real)
  }

  lemma {:induction false} DecodeByQuantum(k: nat, r: Range)
    requires Proper(r)
    ensures Decode(k, r) == r.lo + (k as real) * Quantum(r)
  {
    Exchange(k as real, r.top as real, r.hi - r.lo);
  }

  lemma {:induction false} Exchange(a: real, b: real, c: real)
    requires b != 0.0
    ensures a / b * c == a * (c / b)
  {
    var x, y := a / b, c / b;
    assert x * b == a && y * b == c;
    assert x * c == x * (y * b) == (x * b) * y;
  }

  lemma {:induction false} Scale(a: real, b: real, q: real)
    requires q > 0.0
    ensures a <= b <==> a * q <= b * q
  {
  }

  lemma {:induction false} Regroup(a: real, b: real, c: real)
    ensures a * b * c == a * (b * c)
  {
  }

  lemma {:induction false} ScaleTo(a: real, b: real, q: real, c: real)
    requires q > 0.0 && b * q == c
    ensures a <= b <==> a * q <= c
  {
    Scale(a, b, q);
    assert a * q <= b * q <==> a * q <= c;
  }

  lemma {:induction false} FloorScaled(n: real, q: real, c: real, k: int)
    requires q > 0.0 && n * q == c
    ensures n.Floor == k <==> (k as real) * q <= c < (k as real + 1.0) * q
  {
    FloorIs(n, k);
    ScaleTo(k as real, n, q, c);
    ScaleTo(k as real + 1.0, n, q, c);
  }

  /** Encoding counts quanta above the lower end. */
  lemma {:induction false} EncodeByQuantum(x: real, r: Range, k: int)
    requires Proper(r)
    ensures var c := Clamp(x, r.lo, r.hi) - r.lo;
            Encode(x, r) == k <==> (k as real) * Quantum(r) <= c < (k as real + 1.0) * Quantum(r)
  {
    ScaledQuanta(x, r);
    FloorScaled(Scaled(x, r), Quantum(r), Clamp(x, r.lo, r.hi) - r.lo, k);
  }

  lemma {:induction false} ScaledQuanta(x: real, r: Range)
    requires Proper(r)
    ensures Scaled(x, r) * Quantum(r) == Clamp(x, r.lo, r.hi) - r.lo
  {
    Regroup((Clamp(x, r.lo, r.hi) - r.lo) / (r.hi - r.lo), r.top as real, Quantum(r));
    TopQuanta(r);
  }

  lemma {:induction false} FloorIs(n: real, k: int)
    ensures n.Floor == k <==> k as real <= n < k as real + 1.0
  {
    var f := n.Floor;
    assert f as real <= n < f as real + 1.0;
    assert f < k ==> (f + 1) as real <= k as real;
    assert k < f ==> (k + 1) as real <= f as real;
  }

  lemma {:induction false} TopQuanta(r: Range)
    requires Proper(r)
    ensures (r.top as real) * Quantum(r) == r.hi - r.lo
  {
  }

  /** Codes are those of the range. */
  lemma {:induction false} EncodeRange(x: real, r: Range)
    requires Proper(r)
    ensures 0 <= Encode(x, r) <= r.top
  {
    var k, q := Encode(x, r), Quantum(r);
    EncodeByQuantum(x, r, k);
    TopQuanta(r);
    ScaleTo(k as real, r.top as real, q, r.hi - r.lo);
    ScaleTo(k as real + 1.0, 0.0, q, 0.0);
  }

  lemma {:induction false} WithinQuanta(k: real, top: real, q: real, c: real, span: real)
    requires q > 0.0 && 0.0 <= k <= top && k * q == c && top * q == span
    ensures 0.0 <= c <= span && k * q <= c < (k + 1.0) * q
  {
    ScaleTo(0.0, k, q, c);
    ScaleTo(k, top, q, span);
    ScaleTo(k + 1.0, k, q, c);
  }

  /** Every code is what its value encodes to. */
  lemma {:induction false} EncodeDecode(k: nat, r: Range)
    requires Proper(r) && k <= r.top
    ensures Encode(Decode(k, r), r) == k && r.lo <= Decode(k, r) <= r.hi
  {
    DecodeByQuantum(k, r);
    TopQuanta(r);
    WithinQuanta(k as real, r.top as real, Quantum(r), Decode(k, r) - r.lo, r.hi - r.lo);
    EncodeByQuantum(Decode(k, r), r, k);
  }

  /** A value comes back clamped, and less than one quantum too low. */
  lemma {:induction false} DecodeEncode(x: real, r: Range)
    requires Proper(r)
    ensures 0 <= Encode(x, r)
    ensures 0.0 <= Clamp(x, r.lo, r.hi) - Decode(Encode(x, r), r) < Quantum(r)
  {
    var k := Encode(x, r);
    EncodeRange(x, r);
    EncodeByQuantum(x, r, k);
    DecodeByQuantum(k, r);
  }

  lemma {:induction false} CountReaches(n: int, k: nat, q: real, c: real)
    requires q > 0.0 && (n as real) * q <= c < (n as real + 1.0) * q
    ensures n >= k <==> (k as real) * q <= c
  {
    var low, high, at := n as real, n as real + 1.0, k as real;
    if n >= k {
      assert at <= low;
      Scale(at, low, q);
    } else {
      assert high == (n + 1) as real <= at;
      Scale(high, at, q);
    }
  }

  /** At least code `k` is reached exactly from the value of `k` on. */
  lemma {:induction false} EncodeReaches(x: real, r: Range, k: nat)
    requires Proper(r) && k <= r.top
    ensures Encode(x, r) >= k <==> Clamp(x, r.lo, r.hi) >= Decode(k, r)
  {
    EncodeByQuantum(x, r, Encode(x, r));
    DecodeByQuantum(k, r);
    CountReaches(Encode(x, r), k, Quantum(r), Clamp(x, r.lo, r.hi) - r.lo);
  }

  /** The greatest code means a value at or above the upper end. */
  lemma {:induction false} EncodeTop(x: real, r: Range)
    requires Proper(r)
    ensures Encode(x, r) == r.top <==> x >= r.hi
  {
    EncodeReaches(x, r, r.top);
    EncodeRange(x, r);
    DecodeByQuantum(r.top, r);
    TopQuanta(r);
  }
}
