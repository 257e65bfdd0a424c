/** Monotonicity of multiplication by a non-negative factor, the one non-linear step the
    solver needs to be shown, once for the integers and once for the reals. */
module Arith {

  lemma MulMonotoneInt(a: int, b: int, c: int)
    requires a <= b && 0 <= c
    ensures a * c <= b * c
  {
    assert b * c == a * c + (b - a) * c;
  }

  lemma MulMonotoneReal(u: real, v: real, c: real)
    requires u <= v && 0.0 <= c
    ensures u * c <= v * c
  {
    assert v * c == u * c + (v - u) * c;
  }
}
