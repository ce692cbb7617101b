/**
 * The pieces of JavaScript number semantics the app relies on: NaN,
 * `Math.floor`, `Math.round` and the truncating remainder operator `%`.
 * Longitudes are modelled as `real`; Infinity is not modelled.
 */
module JsMath {

  /** A JavaScript number: NaN or a finite value. */
  datatype Num = NaN | Fin(v: real)

  /** `isNaN(x)` on a number. */
  predicate IsNaN(x: Num) { x.NaN? }

  /** `Math.floor`. */
  function Floor(x: real): (r: int)
    ensures r as real <= x < r as real + 1.0
  {
    x.Floor
  }

  /** `Math.round`: rounds half-way values up, i.e. floor(x + 0.5). */
  function Round(x: real): (r: int)
    ensures x - 0.5 < r as real <= x + 0.5
  {
    Floor(x + 0.5)
  }

  /** `Math.trunc`: rounds toward zero. */
  function Trunc(x: real): (r: int)
    ensures 0.0 <= x ==> 0 <= r && r as real <= x < r as real + 1.0
    ensures x < 0.0 ==> r <= 0 && r as real - 1.0 < x <= r as real
  {
    if x >= 0.0 then Floor(x) else -Floor(-x)
  }

  /** The JavaScript `a % n` on numbers: the remainder of truncating division, with the sign of `a`. */
  function Rem(a: real, n: real): (r: real)
    requires n > 0.0
    ensures 0.0 <= a ==> 0.0 <= r < n
    ensures a < 0.0 ==> -n < r <= 0.0
  {
    var q := Trunc(a / n);
    if 0.0 <= a then
      QuotientBounds(a, n, q);
      a - q as real * n
    else
      QuotientBoundsBelow(a, n, q);
      a - q as real * n
  }

  /** The JavaScript `a % n` on integral values. */
  function IntRem(a: int, n: int): (r: int)
    requires n > 0
    ensures 0 <= a ==> 0 <= r < n && r == a % n
    ensures a < 0 ==> -n < r <= 0 && r == -((-a) % n)
  {
    if a >= 0 then a % n else -((-a) % n)
  }

  lemma MulPositive(u: real, n: real)
    requires n > 0.0
    ensures u >= 0.0 ==> u * n >= 0.0
    ensures u > 0.0 ==> u * n > 0.0
  {
  }

  /** From `q <= a/n < q + 1` to `q*n <= a < q*n + n`. */
  lemma QuotientBounds(a: real, n: real, q: int)
    requires n > 0.0
    requires q as real <= a / n < q as real + 1.0
    ensures (q as real) * n <= a < (q as real) * n + n
  {
    var x := a / n;
    var qr := q as real;
    assert x * n == a;
    var u := (qr + 1.0) - x;
    MulPositive(u, n);
    assert u * n > 0.0;
    assert u * n == qr * n + n - x * n;
    assert qr * n + n - x * n > 0.0;
    assert a < qr * n + n;
    var w := x - qr;
    MulPositive(w, n);
    assert w * n >= 0.0;
    assert w * n == x * n - qr * n;
    assert qr * n <= a;
  }

  /** From `q - 1 < a/n <= q` to `q*n - n < a <= q*n`. */
  lemma QuotientBoundsBelow(a: real, n: real, q: int)
    requires n > 0.0
    requires q as real - 1.0 < a / n <= q as real
    ensures (q as real) * n - n < a <= (q as real) * n
  {
    var x := a / n;
    var qr := q as real;
    assert x * n == a;
    var u := x - (qr - 1.0);
    MulPositive(u, n);
    assert u * n > 0.0;
    assert u * n == x * n - qr * n + n;
    assert qr * n - n < a;
    var w := qr - x;
    MulPositive(w, n);
    assert w * n >= 0.0;
    assert w * n == qr * n - x * n;
    assert a <= qr * n;
  }

  /** Two multiples of `n` that lie within `n` of the same point are equal. */
  lemma MultipleUnique(a: real, n: real, q: int, t: int)
    requires n > 0.0
    requires (q as real) * n <= a < (q as real) * n + n
    requires (t as real) * n <= a < (t as real) * n + n
    ensures q == t
  {
    var u := q as real - (t as real + 1.0);
    MulPositive(u, n);
    assert u * n == (q as real) * n - (t as real) * n - n;
    var w := t as real - (q as real + 1.0);
    MulPositive(w, n);
    assert w * n == (t as real) * n - (q as real) * n - n;
  }

  /** On a non-negative dividend the JavaScript remainder is the mathematical modulus. */
  lemma RemOfNonNegative(a: real, n: real, q: int)
    requires n > 0.0 && 0.0 <= a
    requires (q as real) * n <= a < (q as real) * n + n
    ensures Rem(a, n) == a - (q as real) * n
  {
    var t := Trunc(a / n);
    QuotientBounds(a, n, t);
    MultipleUnique(a, n, q, t);
  }

  /** Adding to a number and reducing modulo 12 can reduce first. */
  lemma ModShift12(n: int, k: int)
    ensures (n + k) % 12 == (n % 12 + k) % 12
  {
    var q := n / 12;
    assert n + k == 12 * q + (n % 12 + k);
  }
}
