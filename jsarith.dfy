/** JavaScript's `%` operator. It truncates toward zero, so its result takes the
    sign of the dividend; Dafny's own `%` is Euclidean. */
module JsArith {

  /** The quotient that goes with Rem: integer division truncated toward zero. */
  function Quot(a: int, m: int): int
    requires m > 0
  {
    if a >= 0 then a / m else -((-a) / m)
  }

  /** `a % m` on integers, for a positive modulus: what truncated division
      leaves over, with the sign of the dividend. */
  function Rem(a: int, m: int): (r: int)
    requires m > 0
    ensures a == m * Quot(a, m) + r
    ensures a >= 0 ==> r == a % m
    ensures a < 0 ==> -m < r <= 0
  {
    if a >= 0 then a % m
    else
      assert -a == m * ((-a) / m) + (-a) % m;
      -((-a) % m)
  }

  /** Truncation of a real toward zero. */
  function Trunc(x: real): (t: int)
    ensures x >= 0.0 ==> t as real <= x < t as real + 1.0
    ensures x < 0.0 ==> t as real - 1.0 < x <= t as real
  {
    if x >= 0.0 then x.Floor else -((-x).Floor)
  }

  /** `x % m` on numbers that are not integers, for a positive modulus: a
      whole number of moduli is removed, leaving less than one modulus with
      the sign of the dividend. */
  function RemReal(x: real, m: real): (r: real)
    requires m > 0.0
    ensures x == m * Trunc(x / m) as real + r
    ensures x >= 0.0 ==> 0.0 <= r < m
    ensures x < 0.0 ==> -m < r <= 0.0
  {
    var t := Trunc(x / m) as real;
    if x >= 0.0 then
      DivideByModulus(x, m);
      ModulusAbove(x, m, t, x / m - t);
      x - m * t
    else
      DivideByModulus(x, m);
      ModulusBelow(x, m, t, t - x / m);
      x - m * t
  }

  /** Dividing by a positive modulus keeps the sign, and multiplying back
      undoes it. */
  lemma DivideByModulus(x: real, m: real)
    requires m > 0.0
    ensures x >= 0.0 <==> x / m >= 0.0
    ensures x == m * (x / m)
  {
  }

  /** If x / m lies a fraction d above the whole number t, then x lies less
      than one modulus above m * t. */
  lemma ModulusAbove(x: real, m: real, t: real, d: real)
    requires m > 0.0 && 0.0 <= d < 1.0 && x / m == t + d
    ensures m * t <= x < m * t + m
  {
    ScaleFraction(m, d);
    DivideByModulus(x, m);
    assert x == m * (t + d);
    assert x == m * t + m * d;
  }

  /** If x / m lies a fraction d below the whole number t, then x lies less
      than one modulus below m * t. */
  lemma ModulusBelow(x: real, m: real, t: real, d: real)
    requires m > 0.0 && 0.0 <= d < 1.0 && x / m == t - d
    ensures m * t - m < x <= m * t
  {
    ScaleFraction(m, d);
    DivideByModulus(x, m);
    assert x == m * (t - d);
    assert x == m * t - m * d;
  }

  /** A fraction of a positive modulus stays below one modulus. */
  lemma ScaleFraction(m: real, d: real)
    requires m > 0.0 && 0.0 <= d < 1.0
    ensures 0.0 <= m * d < m
  {
  }

  /** Shifting a real by an integer shifts its floor by that integer. */
  lemma FloorShift(x: real, k: int)
    ensures (x + k as real).Floor == x.Floor + k
  {
  }
}
