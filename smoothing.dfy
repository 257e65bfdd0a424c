/** The curve smoothing of the screensaver: the recursive blend `get_point`, the sampling
    `get_points` and the closed smoothed curve `get_knot`. */
module Smoothing {
  import opened Pairs
  import Arith

  /** `get_point(points, alpha, deg)`: `alpha*points[deg] + (1-alpha)*get_point(points, alpha, deg-1)`,
      with `points[0]` at degree zero. */
  function Blend(points: seq<Pair>, alpha: real, deg: nat): (p: Pair)
    requires deg < |points|
    ensures alpha == 0.0 ==> p == points[0]
    ensures alpha == 1.0 ==> p == points[deg]
    decreases deg
  {
    if deg == 0 then points[0]
    else Add(Mul(points[deg], alpha), Mul(Blend(points, alpha, deg - 1), 1.0 - alpha))
  }

  /** `get_point(points, alpha)` with the default degree `len(points) - 1`. */
  function GetPoint(points: seq<Pair>, alpha: real): (p: Pair)
    requires |points| >= 1
    ensures alpha == 0.0 ==> p == points[0]
    ensures alpha == 1.0 ==> p == points[|points| - 1]
  {
    Blend(points, alpha, |points| - 1)
  }

  lemma BlendSame(q: Pair, alpha: real)
    ensures Add(Mul(q, alpha), Mul(q, 1.0 - alpha)) == q
  {
    assert q.x * alpha + q.x * (1.0 - alpha) == q.x;
    assert q.y * alpha + q.y * (1.0 - alpha) == q.y;
  }

  /** The weights of the blend sum to one: blending copies of one point gives that point. */
  lemma {:induction false} BlendConstant(points: seq<Pair>, alpha: real, deg: nat, q: Pair)
    requires deg < |points|
    requires forall i :: 0 <= i <= deg ==> points[i] == q
    ensures Blend(points, alpha, deg) == q
  {
    if deg > 0 {
      BlendConstant(points, alpha, deg - 1, q);
      BlendSame(q, alpha);
    }
  }

  /** For alpha in [0, 1] the blend is a convex combination: it stays in any box that holds
      the points it blends. */
  lemma {:induction false} BlendInBox(points: seq<Pair>, alpha: real, deg: nat, lo: Pair, hi: Pair)
    requires deg < |points| && 0.0 <= alpha <= 1.0
    requires forall i :: 0 <= i <= deg ==> InBox(points[i], lo, hi)
    ensures InBox(Blend(points, alpha, deg), lo, hi)
  {
    if deg > 0 {
      BlendInBox(points, alpha, deg - 1, lo, hi);
      StepInBox(points[deg], Blend(points, alpha, deg - 1), alpha, lo, hi);
    }
  }

  /** One coordinate of the blend of a triple, expanded. */
  lemma ThreeWeightsCoord(x0: real, x1: real, x2: real, alpha: real)
    ensures x2 * alpha + (x1 * alpha + x0 * (1.0 - alpha)) * (1.0 - alpha)
         == (1.0 - alpha) * (1.0 - alpha) * x0 + alpha * (1.0 - alpha) * x1 + alpha * x2
  {
    var beta := 1.0 - alpha;
    assert (x1 * alpha + x0 * beta) * beta == x1 * alpha * beta + x0 * beta * beta;
  }

  /** On a three-point triple the weights are (1-alpha)^2, alpha(1-alpha) and alpha (not the
      Bernstein weights (1-alpha)^2, 2 alpha(1-alpha), alpha^2 of a quadratic Bezier curve). */
  lemma ThreePointWeights(p0: Pair, p1: Pair, p2: Pair, alpha: real)
    ensures GetPoint([p0, p1, p2], alpha)
         == Pair((1.0 - alpha) * (1.0 - alpha) * p0.x + alpha * (1.0 - alpha) * p1.x + alpha * p2.x,
                 (1.0 - alpha) * (1.0 - alpha) * p0.y + alpha * (1.0 - alpha) * p1.y + alpha * p2.y)
  {
    var s := [p0, p1, p2];
    var first := Blend(s, alpha, 1);
    assert first.x == p1.x * alpha + p0.x * (1.0 - alpha);
    assert first.y == p1.y * alpha + p0.y * (1.0 - alpha);
    var g := GetPoint(s, alpha);
    var ex := (1.0 - alpha) * (1.0 - alpha) * p0.x + alpha * (1.0 - alpha) * p1.x + alpha * p2.x;
    var ey := (1.0 - alpha) * (1.0 - alpha) * p0.y + alpha * (1.0 - alpha) * p1.y + alpha * p2.y;
    assert g.x == ex by {
      assert g.x == p2.x * alpha + first.x * (1.0 - alpha);
      ThreeWeightsCoord(p0.x, p1.x, p2.x, alpha);
    }
    assert g.y == ey by {
      assert g.y == p2.y * alpha + first.y * (1.0 - alpha);
      ThreeWeightsCoord(p0.y, p1.y, p2.y, alpha);
    }
    assert g == Pair(ex, ey);
  }

  /** The blend parameter of sample `i` out of `count`: `i * (1 / count)`. */
  function SampleAlpha(i: nat, count: nat): (alpha: real)
    requires 0 < count
    ensures i == 0 ==> alpha == 0.0
    ensures i < count ==> 0.0 <= alpha < 1.0
  {
    var step := 1.0 / count as real;
    assert step * count as real == 1.0;
    if i < count then
      assert i as real * step < count as real * step;
      i as real * step
    else i as real * step
  }

  /** `get_points(base_points, count)`: `count` samples of the blend of `base_points`. */
  method GetPoints(base: seq<Pair>, count: nat) returns (res: seq<Pair>)
    requires |base| >= 1 && 0 < count
    ensures |res| == count
    ensures forall i :: 0 <= i < count ==> res[i] == GetPoint(base, SampleAlpha(i, count))
    ensures res[0] == base[0]
  {
    res := [];
    for i := 0 to count
      invariant |res| == i
      invariant forall k :: 0 <= k < i ==> res[k] == GetPoint(base, SampleAlpha(k, count))
    {
      res := res + [GetPoint(base, SampleAlpha(i, count))];
    }
  }

  /** Python's `s[i]` for `-len(s) <= i < len(s)`: a negative index counts from the end, which
      is indexing modulo the length. */
  function PyIndex<T>(s: seq<T>, i: int): (e: T)
    requires -|s| <= i < |s|
    ensures e == s[i % |s|]
  {
    if i < 0 then s[|s| + i] else s[i]
  }

  /** The control triple of block `j` of the closed curve: the midpoint of the points
      `j-2` and `j-1`, the point `j-1`, and the midpoint of the points `j-1` and `j`,
      indices taken cyclically. */
  function KnotTriple(points: seq<Pair>, j: nat): (t: seq<Pair>)
    requires 3 <= |points| && j < |points|
    ensures |t| == 3 && t[1] == points[(j - 1) % |points|]
    ensures t[0] == Mid(points[(j - 2) % |points|], t[1]) && t[2] == Mid(t[1], points[j])
  {
    var n := |points|;
    var a, b, c := points[(j - 2) % n], points[(j - 1) % n], points[j];
    [Mid(a, b), b, Mid(b, c)]
  }

  lemma BlockIndex(m: nat, j: nat, count: nat)
    requires 0 < count && j * count <= m < j * count + count
    ensures m / count == j && m % count == m - j * count
  {
    var q, r := m / count, m % count;
    assert m == q * count + r && 0 <= r < count;
    if q < j {
      Arith.MulMonotoneInt(q + 1, j, count);
    } else if q > j {
      Arith.MulMonotoneInt(j + 1, q, count);
    }
  }

  lemma BlockBound(m: nat, n: nat, count: nat)
    requires 0 < count && m < n * count
    ensures m / count < n
  {
    var q := m / count;
    assert m == q * count + m % count;
    if q >= n {
      Arith.MulMonotoneInt(n, q, count);
    }
  }

  /** Point `m` of the smoothed curve: sample `m % count` of block `m / count`. */
  function KnotPoint(points: seq<Pair>, count: nat, m: nat): (r: Pair)
    requires 3 <= |points| && 0 < count && m < |points| * count
    ensures m % count == 0 ==>
      r == Mid(points[(m / count - 2) % |points|], points[(m / count - 1) % |points|])
  {
    BlockBound(m, |points|, count);
    GetPoint(KnotTriple(points, m / count), SampleAlpha(m % count, count))
  }

  /** `get_knot(points, count)`: fewer than three points give no curve; otherwise `count`
      samples for each of the `len(points)` control triples, block after block. */
  method GetKnot(points: seq<Pair>, count: nat) returns (res: seq<Pair>)
    requires 0 < count
    ensures |points| < 3 ==> res == []
    ensures |points| >= 3 ==> |res| == |points| * count
    ensures |points| >= 3 ==> forall m :: 0 <= m < |res| ==> res[m] == KnotPoint(points, count, m)
  {
    res := [];
    if |points| < 3 {
      return;
    }
    var n := |points|;
    for i := -2 to n - 2
      invariant |res| == (i + 2) * count
      invariant forall m :: 0 <= m < |res| ==> res[m] == KnotPoint(points, count, m)
    {
      var ptn := [];
      ptn := ptn + [Mid(PyIndex(points, i), PyIndex(points, i + 1))];
      ptn := ptn + [PyIndex(points, i + 1)];
      ptn := ptn + [Mid(PyIndex(points, i + 1), PyIndex(points, i + 2))];
      PyTriple(points, i);
      var samples := GetPoints(ptn, count);
      AppendBlock(points, count, i + 2, res, samples);
      res := res + samples;
    }
  }

  /** The triple built from Python indices `i`, `i + 1`, `i + 2` is the control triple of
      block `i + 2`. */
  lemma PyTriple(points: seq<Pair>, i: int)
    requires 3 <= |points| && -2 <= i < |points| - 2
    ensures [Mid(PyIndex(points, i), PyIndex(points, i + 1)), PyIndex(points, i + 1),
             Mid(PyIndex(points, i + 1), PyIndex(points, i + 2))]
         == KnotTriple(points, i + 2)
  {
    var n := |points|;
    assert i % n == (i + 2 - 2) % n;
    assert (i + 1) % n == (i + 2 - 1) % n;
    assert (i + 2) % n == i + 2;
  }

  /** Appending the samples of block `j` to the first `j` blocks gives the first `j + 1`. */
  lemma AppendBlock(points: seq<Pair>, count: nat, j: nat, res: seq<Pair>, samples: seq<Pair>)
    requires 3 <= |points| && 0 < count && j < |points|
    requires |res| == j * count
    requires forall m :: 0 <= m < |res| ==> res[m] == KnotPoint(points, count, m)
    requires |samples| == count
    requires forall k :: 0 <= k < count ==>
      samples[k] == GetPoint(KnotTriple(points, j), SampleAlpha(k, count))
    ensures |res + samples| == (j + 1) * count <= |points| * count
    ensures forall m :: 0 <= m < |res + samples| ==> (res + samples)[m] == KnotPoint(points, count, m)
  {
    assert (j + 1) * count == j * count + count;
    Arith.MulMonotoneInt(j + 1, |points|, count);
    forall m | j * count <= m < |res + samples|
      ensures (res + samples)[m] == KnotPoint(points, count, m)
    {
      BlockIndex(m, j, count);
      var k := m - j * count;
      assert (res + samples)[m] == samples[k];
      assert KnotPoint(points, count, m) == GetPoint(KnotTriple(points, j), SampleAlpha(k, count));
    }
  }

  /** Each block of the smoothed curve starts at the midpoint of the two control points
      before its centre. */
  lemma KnotBlockStart(points: seq<Pair>, count: nat, j: nat)
    requires 3 <= |points| && 0 < count && j < |points|
    ensures j * count < |points| * count
    ensures KnotPoint(points, count, j * count)
         == Mid(points[(j - 2) % |points|], points[(j - 1) % |points|])
  {
    Arith.MulMonotoneInt(j + 1, |points|, count);
    assert (j + 1) * count == j * count + count;
    BlockIndex(j * count, j, count);
  }

  /** The smoothed curve never leaves a box that holds every control point. */
  lemma KnotInBox(points: seq<Pair>, count: nat, m: nat, lo: Pair, hi: Pair)
    requires 3 <= |points| && 0 < count && m < |points| * count
    requires forall i :: 0 <= i < |points| ==> InBox(points[i], lo, hi)
    ensures InBox(KnotPoint(points, count, m), lo, hi)
  {
    BlockBound(m, |points|, count);
    var n, j := |points|, m / count;
    var t := KnotTriple(points, j);
    MidInBox(points[(j - 2) % n], t[1], lo, hi);
    MidInBox(t[1], points[j], lo, hi);
    BlendInBox(t, SampleAlpha(m % count, count), 2, lo, hi);
  }
}
