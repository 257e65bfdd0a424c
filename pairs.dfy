/** The tuple-vector helpers of the screensaver (`sub`, `add`, `mul`, `vec`): a point or a
    displacement is a Python 2-tuple of numbers. */
module Pairs {
  import Arith

  /** A 2-tuple `(x, y)`; `x` is the tuple's item 0 and `y` its item 1. */
  datatype Pair = Pair(x: real, y: real)

  /** `sub(x, y)`: the component-wise difference. */
  function Sub(a: Pair, b: Pair): (r: Pair)
    ensures r.x + b.x == a.x && r.y + b.y == a.y
  {
    Pair(a.x - b.x, a.y - b.y)
  }

  /** `add(x, y)`: the component-wise sum. */
  function Add(a: Pair, b: Pair): (r: Pair)
    ensures r.x - b.x == a.x && r.y - b.y == a.y
  {
    Pair(a.x + b.x, a.y + b.y)
  }

  /** `mul(v, k)`: both components scaled by `k`. */
  function Mul(v: Pair, k: real): (r: Pair)
    ensures k != 0.0 ==> Pair(r.x / k, r.y / k) == v
  {
    Pair(v.x * k, v.y * k)
  }

  /** `vec(x, y)`: the displacement that leads from point `a` to point `b`. */
  function Vec(a: Pair, b: Pair): (r: Pair)
    ensures Add(a, r) == b
  {
    Sub(b, a)
  }

  /** The midpoint `mul(add(a, b), 0.5)` that the smoothing builds its triples from. */
  function Mid(a: Pair, b: Pair): (m: Pair)
    ensures Vec(a, m) == Vec(m, b)
  {
    Mul(Add(a, b), 0.5)
  }

  /** `add` and `sub` undo each other. */
  lemma AddSubInverse(a: Pair, b: Pair)
    ensures Sub(Add(a, b), b) == a && Add(Sub(a, b), b) == a
  {
  }

  /** `mul` by one is the identity and by zero gives the origin. */
  lemma MulUnitZero(v: Pair)
    ensures Mul(v, 1.0) == v && Mul(v, 0.0) == Pair(0.0, 0.0)
  {
  }

  /** Scaling distributes over `add`. */
  lemma MulDistributes(a: Pair, b: Pair, k: real)
    ensures Mul(Add(a, b), k) == Add(Mul(a, k), Mul(b, k))
  {
    assert (a.x + b.x) * k == a.x * k + b.x * k;
    assert (a.y + b.y) * k == a.y * k + b.y * k;
  }

  /** An axis-aligned rectangle [lo.x, hi.x] x [lo.y, hi.y]. */
  predicate InBox(p: Pair, lo: Pair, hi: Pair)
  {
    lo.x <= p.x <= hi.x && lo.y <= p.y <= hi.y
  }

  /** Weighting with non-negative weights keeps a component-wise order. */
  lemma WeightedLe(u1: real, u2: real, v1: real, v2: real, alpha: real, beta: real)
    requires u1 <= v1 && u2 <= v2 && 0.0 <= alpha && 0.0 <= beta
    ensures u1 * alpha + u2 * beta <= v1 * alpha + v2 * beta
  {
    Arith.MulMonotoneReal(u1, v1, alpha);
    Arith.MulMonotoneReal(u2, v2, beta);
  }

  /** Weights that sum to one leave a constant as it is. */
  lemma UnitWeights(c: real, alpha: real, beta: real)
    requires alpha + beta == 1.0
    ensures c * alpha + c * beta == c
  {
    assert c * alpha + c * beta == c * (alpha + beta);
  }

  lemma ConvexCoord(a: real, b: real, alpha: real, beta: real, lo: real, hi: real)
    requires lo <= a <= hi && lo <= b <= hi
    requires 0.0 <= alpha && 0.0 <= beta && alpha + beta == 1.0
    ensures lo <= a * alpha + b * beta <= hi
  {
    WeightedLe(lo, lo, a, b, alpha, beta);
    UnitWeights(lo, alpha, beta);
    WeightedLe(a, b, hi, hi, alpha, beta);
    UnitWeights(hi, alpha, beta);
  }

  /** A blend `alpha*a + (1-alpha)*b` with alpha in [0, 1] stays in any box holding a and b. */
  lemma StepInBox(a: Pair, b: Pair, alpha: real, lo: Pair, hi: Pair)
    requires InBox(a, lo, hi) && InBox(b, lo, hi) && 0.0 <= alpha <= 1.0
    ensures InBox(Add(Mul(a, alpha), Mul(b, 1.0 - alpha)), lo, hi)
  {
    ConvexCoord(a.x, b.x, alpha, 1.0 - alpha, lo.x, hi.x);
    ConvexCoord(a.y, b.y, alpha, 1.0 - alpha, lo.y, hi.y);
  }

  /** The midpoint of two points of a box is in the box. */
  lemma MidInBox(a: Pair, b: Pair, lo: Pair, hi: Pair)
    requires InBox(a, lo, hi) && InBox(b, lo, hi)
    ensures InBox(Mid(a, b), lo, hi)
  {
  }
}
