/** Division and conversion: the source truncates toward zero, Dafny rounds down. */
module Arith {

  /** `a / b` as the source computes it. */
  function TruncDiv(a: int, b: int): int
    requires b > 0
  {
    if a >= 0 then a / b else -(-a / b)
  }

  /** Conversion of a coordinate to an integer: toward zero too. */
  function Toward(r: real): (n: int)
    ensures -1.0 < r - n as real < 1.0
  {
    if r >= 0.0 then r.Floor else -((-r).Floor)
  }

  lemma TowardInt(n: int)
    ensures Toward(n as real) == n
  {
    if n < 0 {
      assert -(n as real) == (-n) as real;
    }
  }

  /** A truncated coordinate lies in a cell of pixels when the coordinate does; pixel zero also
      catches the last fraction below it. */
  lemma TowardWithin(r: real, a: int, b: int)
    requires 0 <= a < b
    ensures a <= Toward(r) < b <==> a as real <= r < b as real || (a == 0 && -1.0 < r < 0.0)
  {
  }

  /** Quotient and remainder are determined by their defining equation. */
  lemma DivMod(a: int, q: int, r: int, n: int)
    requires n > 0 && a == q * n + r && 0 <= r < n
    ensures a / n == q && a % n == r
  {
    var p := a / n;
    assert a == p * n + a % n;
    assert (q - p) * n == q * n - p * n;
    if p < q {
      Scale(1, q - p, n);
    } else if p > q {
      Scale(1, p - q, n);
    }
  }

  lemma Scale(a: int, b: int, n: int)
    requires a <= b && n >= 0
    ensures a * n <= b * n
  {
    assert (b - a) * n >= 0;
  }

  lemma AddN(a: int, n: int)
    requires n > 0
    ensures (a + n) % n == a % n && (a + n) / n == a / n + 1
  {
    DivMod(a + n, a / n + 1, a % n, n);
  }
}
