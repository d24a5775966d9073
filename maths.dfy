/** Numeric helpers shared by every module of the renderer model.

    The renderer computes with JavaScript numbers; the model uses exact `real`s.
    The transcendental functions and the constant pi of the JavaScript `Math`
    object are not definable over the reals, so they travel as fields of a
    `MathLib` value that callers pass in, constrained only by the identities the
    model needs. `Math.round`, `Math.floor`, `Math.trunc` and the `%` operator
    on numbers are defined exactly. */
module Maths {

  datatype Option<+T> = None | Some(value: T)

  /** The part of JavaScript's `Math` object the renderer uses, as parameters. */
  datatype MathLib = MathLib(
    sin: real -> real,
    cos: real -> real,
    tan: real -> real,
    sqrt: real -> real,
    pi: real)
  {
    /** The identities every caller may rely on. */
    ghost predicate Valid() {
      && pi > 0.0
      && sin(0.0) == 0.0 && cos(0.0) == 1.0
      && (forall a :: sin(a) * sin(a) + cos(a) * cos(a) == 1.0)
      && (forall x :: 0.0 < x ==> 0.0 < sqrt(x) && sqrt(x) * sqrt(x) == x)
      && (forall a :: -pi / 2.0 < a < pi / 2.0 ==> cos(a) > 0.0)
    }
  }

  /** `Math.floor`. */
  function Floor(x: real): int {
    x.Floor
  }

  /** `Math.round`: the nearest integer, halves rounded up. */
  function Round(x: real): (r: int)
    ensures x - 0.5 < r as real <= x + 0.5
  {
    Floor(x + 0.5)
  }

  /** `Math.trunc`: rounds toward zero. */
  function Trunc(x: real): (r: int)
    ensures 0.0 <= x ==> 0 <= r && r as real <= x < r as real + 1.0
    ensures x < 0.0 ==> r <= 0 && r as real - 1.0 < x <= r as real
  {
    if x >= 0.0 then Floor(x) else -Floor(-x)
  }

  /** The `%` operator on numbers: the remainder keeps the sign of the dividend. */
  function TruncRem(a: real, b: real): real
    requires b != 0.0
  {
    a - b * Trunc(a / b) as real
  }

  /** The fractional part `x - Math.trunc(x)`, which keeps the sign of x. */
  function Frac(x: real): (f: real)
    ensures 0.0 <= x ==> 0.0 <= f < 1.0
    ensures x < 0.0 ==> -1.0 < f <= 0.0
  {
    x - Trunc(x) as real
  }

  /** `a % b` for b > 0 lies in [0, b) when a >= 0 and in (-b, 0] when a < 0;
      it is never wrapped into [0, b) as a Euclidean remainder would be. */
  lemma TruncRemBounds(a: real, b: real)
    requires b > 0.0
    ensures 0.0 <= a ==> 0.0 <= TruncRem(a, b) < b
    ensures a < 0.0 ==> -b < TruncRem(a, b) <= 0.0
  {
    RemAsFraction(a, b);
    QuotientSign(a, b);
    ScaledUnit(TruncRem(a, b), b, Frac(a / b));
    ScaledUnit(-TruncRem(a, b), b, -Frac(a / b));
  }

  /** `a % b` is b times the fractional part of a / b. */
  lemma RemAsFraction(a: real, b: real)
    requires b > 0.0
    ensures TruncRem(a, b) == b * Frac(a / b)
  {
    var d := a / b;
    var q := Trunc(d) as real;
    assert b * d == a;
    assert b * (d - q) == b * d - b * q;
  }

  lemma QuotientSign(a: real, b: real)
    requires b > 0.0
    ensures 0.0 <= a ==> 0.0 <= a / b
    ensures a < 0.0 ==> a / b < 0.0
  {
  }

  /** Scaling a number of [0, 1) by b > 0 lands in [0, b). */
  lemma ScaledUnit(r: real, b: real, f: real)
    requires b > 0.0 && r == b * f
    ensures 0.0 <= f < 1.0 ==> 0.0 <= r < b
  {
  }

  function Max(a: real, b: real): (r: real)
    ensures r >= a && r >= b && (r == a || r == b)
  {
    if a >= b then a else b
  }

  function Min(a: real, b: real): (r: real)
    ensures r <= a && r <= b && (r == a || r == b)
  {
    if a <= b then a else b
  }

  function Abs(x: real): (r: real)
    ensures r >= 0.0 && (r == x || r == -x)
  {
    if x >= 0.0 then x else -x
  }
}
