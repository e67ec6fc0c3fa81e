/** Values shared by the whole calendar engine: dates, results that may carry an
    overflow error, and the integer division of C++, which the engine relies on. */
module Dates {

  /** A calendar date. Which calendar it belongs to is given by context; no field
      is validated, so a caller may hand over any month or day. */
  datatype Date = Date(year: int, month: int, day: int)

  /** The outcome of an operation that may raise `std::overflow_error`; the
      error carries the exception's message text. */
  datatype Result<T> = Success(value: T) | Failure(error: string)

  /** Quotient and remainder are determined by `a == b * q + r` with `0 <= r < b`. */
  lemma DivModUnique(a: int, b: int, q: int, r: int)
    requires b > 0 && a == b * q + r && 0 <= r < b
    ensures a / b == q && a % b == r
  {
    var q', r' := a / b, a % b;
    assert b * (q - q') == r' - r;
    MulAwayFromZero(b, q - q');
  }

  /** A non-zero multiple of a positive `b` is at least `b` away from zero. */
  lemma MulAwayFromZero(b: int, k: int)
    requires b > 0
    ensures k >= 1 ==> b * k >= b
    ensures k <= -1 ==> b * k <= -b
  {
  }

  /** C++ `a / b` for a positive divisor: the quotient truncated toward zero. */
  function TDiv(a: int, b: int): (q: int)
    requires b > 0
    ensures 0 <= a ==> 0 <= a - b * q < b && q == a / b
    ensures a < 0 ==> -b < a - b * q <= 0
  {
    if a >= 0 then a / b else -((-a) / b)
  }

  /** C++ `a % b` for a positive divisor: the remainder takes the sign of `a`. */
  function TMod(a: int, b: int): (r: int)
    requires b > 0
    ensures 0 <= a ==> 0 <= r < b && r == a % b
    ensures a < 0 ==> -b < r <= 0
  {
    if a >= 0 then a % b else -((-a) % b)
  }

  /** C++ division and remainder fit together: `a == b * (a / b) + a % b`. */
  lemma TruncatedDivision(a: int, b: int)
    requires b > 0
    ensures a == b * TDiv(a, b) + TMod(a, b)
  {
  }

  /** The correction the engine applies after a C++ division whenever the
      dividend may be negative (`q = a / b; if (a < 0 && a % b != 0) --q;`).
      It yields the quotient rounded toward minus infinity, which is Dafny's `/`
      for a positive divisor. */
  function FlooredQuotient(a: int, b: int): (q: int)
    requires b > 0
    ensures q == a / b
  {
    var q := if a < 0 && TMod(a, b) != 0 then TDiv(a, b) - 1 else TDiv(a, b);
    DivModUnique(a, b, q, a - b * q);
    q
  }

  /** The number of whole cycles of length `n` before `y`, as the engine computes
      it: for negative `y`, one less than the truncated quotient unless `y` is a
      whole number of cycles. */
  function CycleCount(y: int, n: int): (c: int)
    requires n > 0
    ensures c == y / n
  {
    var c := if y < 0 then TDiv(y, n) - 1 + (if TMod(y, n) == 0 then 1 else 0) else TDiv(y, n);
    DivModUnique(y, n, c, y - n * c);
    c
  }

  /** The position of `y` inside its cycle of length `n`, as the engine computes
      it: for negative `y` it is `(n - (-1 * y % n)) % n`. */
  function CycleResidue(y: int, n: int): (r: int)
    requires n > 0
    ensures r == y % n
    ensures 0 <= r < n
  {
    if y < 0 then
      CycleResidueOfNegative(y, n);
      TMod(n - TMod(-1 * y, n), n)
    else TMod(y, n)
  }

  /** The engine's residue of a negative `y` is the floored one. */
  lemma CycleResidueOfNegative(y: int, n: int)
    requires y < 0 && n > 0
    ensures TMod(n - TMod(-1 * y, n), n) == y % n
  {
    var t := (-y) % n;
    assert TMod(-1 * y, n) == t;
    if t == 0 {
      assert TMod(n, n) == 0 by { DivModUnique(n, n, 1, 0); }
      DivModUnique(y, n, -((-y) / n), 0);
    } else {
      assert TMod(n - t, n) == n - t by { DivModUnique(n - t, n, 0, n - t); }
      FlooredResidue(y, n);
    }
  }

  /** A negative `y` that is not a whole number of cycles lies `n` less
      its distance from the cycle above it. */
  lemma FlooredResidue(y: int, n: int)
    requires y < 0 && n > 0 && (-y) % n != 0
    ensures y % n == n - (-y) % n
  {
    var p, t := (-y) / n, (-y) % n;
    assert y == n * (-p - 1) + (n - t);
    DivModUnique(y, n, -p - 1, n - t);
  }

}
