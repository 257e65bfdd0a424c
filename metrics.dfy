/** The metric hierarchy `Base`, `A`, `B`, `C`: predictions `data` in [0, 1] are thresholded at
    0.5 and compared with the labels `result`. The three classes are the variants of `Kind`;
    every method becomes one function dispatched on the kind. */
module Metrics {
  import opened PyErrors
  import Arith

  datatype Kind = A | B | C

  /** Python's `int(b)` for a boolean. */
  function Indicator(b: bool): int
  {
    if b then 1 else 0
  }

  /** The length of `zip(a, b)`. */
  function ZipLen<T, U>(a: seq<T>, b: seq<U>): nat
  {
    if |a| <= |b| then |a| else |b|
  }

  /** Python's `sum` of a list of integers. */
  function SumInt(s: seq<int>): int
  {
    if s == [] then 0 else s[0] + SumInt(s[1..])
  }

  /** Python's `sum` of a list of floats. */
  function SumReal(s: seq<real>): real
  {
    if s == [] then 0.0 else s[0] + SumReal(s[1..])
  }

  predicate NonNegative(s: seq<real>)
  {
    forall i :: 0 <= i < |s| ==> s[i] >= 0.0
  }

  predicate ZeroOne(s: seq<int>)
  {
    forall i :: 0 <= i < |s| ==> s[i] == 0 || s[i] == 1
  }

  /** `Base.get_answer` (the same for A, B and C): 1 where the prediction is at least 0.5,
      0 elsewhere. */
  function Answer(data: seq<real>): (ans: seq<int>)
    ensures |ans| == |data| && ZeroOne(ans)
    ensures forall i :: 0 <= i < |data| ==> (ans[i] == 1 <==> data[i] >= 0.5)
  {
    seq(|data|, i requires 0 <= i < |data| => Indicator(data[i] >= 0.5))
  }

  /** The sum of a 0/1 list is zero exactly when no element is 1. */
  lemma {:induction false} SumZeroOne(s: seq<int>)
    requires ZeroOne(s)
    ensures 0 <= SumInt(s) <= |s|
    ensures SumInt(s) == 0 <==> forall i :: 0 <= i < |s| ==> s[i] == 0
  {
    if s != [] {
      SumZeroOne(s[1..]);
      assert forall i :: 1 <= i < |s| ==> s[i] == s[1..][i - 1];
    }
  }

  /** `(x - y) * (x - y)` for `d = x - y`. */
  function Square(d: real): (s: real)
    ensures s >= 0.0
  {
    d * d
  }

  /** `Base.get_loss` (class A): the sum of squared differences over `zip(data, result)`. */
  function SquaredLoss(data: seq<real>, result: seq<real>): (loss: real)
    ensures loss >= 0.0
    decreases |data|
  {
    if |data| == 0 || |result| == 0 then 0.0
    else Square(data[0] - result[0]) + SquaredLoss(data[1..], result[1..])
  }

  /** `C.get_loss`: the sum of absolute differences over `zip(data, result)`. */
  function AbsLoss(data: seq<real>, result: seq<real>): (loss: real)
    ensures loss >= 0.0
    decreases |data|
  {
    if |data| == 0 || |result| == 0 then 0.0
    else (if data[0] >= result[0] then data[0] - result[0] else result[0] - data[0])
         + AbsLoss(data[1..], result[1..])
  }

  lemma CancelPositive(u: real, v: real, c: real)
    requires 0.0 < c && u * c <= v * c
    ensures u <= v
  {
    assert (v - u) * c >= 0.0;
  }

  lemma RatioInUnit(a: real, b: real)
    requires 0.0 <= a <= b && 0.0 < b
    ensures 0.0 <= a / b <= 1.0
  {
    var q := a / b;
    assert q * b == a;
    assert q * b <= 1.0 * b;
    CancelPositive(q, 1.0, b);
    assert 0.0 * b <= q * b;
    CancelPositive(0.0, q, b);
  }

  /** A product of two factors of the same sign is positive (stated over a named
      product so that the solver treats it as one quantity). */
  lemma ProductPositive(a: real, b: real, p: real)
    requires (a > 0.0 && b > 0.0) || (a < 0.0 && b < 0.0)
    requires p == a * b
    ensures p > 0.0
  {}

  lemma SquarePositive(d: real)
    requires d != 0.0
    ensures Square(d) > 0.0
  {
    ProductPositive(d, d, Square(d));
  }

  /** The squared loss vanishes exactly when the predictions equal the labels on the
      zipped prefix. */
  lemma {:induction false} SquaredLossZero(data: seq<real>, result: seq<real>)
    ensures SquaredLoss(data, result) == 0.0
        <==> forall i :: 0 <= i < ZipLen(data, result) ==> data[i] == result[i]
    decreases |data|
  {
    if |data| > 0 && |result| > 0 {
      SquaredLossZero(data[1..], result[1..]);
      assert forall i :: 1 <= i < ZipLen(data, result) ==>
        data[i] == data[1..][i - 1] && result[i] == result[1..][i - 1];
      var d := data[0] - result[0];
      if d == 0.0 {
        assert Square(d) == 0.0;
      } else {
        SquarePositive(d);
      }
    }
  }

  /** The absolute loss vanishes exactly when the predictions equal the labels on the
      zipped prefix. */
  lemma {:induction false} AbsLossZero(data: seq<real>, result: seq<real>)
    ensures AbsLoss(data, result) == 0.0
        <==> forall i :: 0 <= i < ZipLen(data, result) ==> data[i] == result[i]
    decreases |data|
  {
    if |data| > 0 && |result| > 0 {
      AbsLossZero(data[1..], result[1..]);
      assert forall i :: 1 <= i < ZipLen(data, result) ==>
        data[i] == data[1..][i - 1] && result[i] == result[1..][i - 1];
    }
  }

  /** `sum(int(x == y) for x, y in zip(ans, result))`: the number of agreements. */
  function Matches(ans: seq<int>, result: seq<real>): (c: nat)
    ensures c <= ZipLen(ans, result)
    decreases |ans|
  {
    if |ans| == 0 || |result| == 0 then 0
    else Indicator(ans[0] as real == result[0]) + Matches(ans[1..], result[1..])
  }

  /** `Base.get_score` (classes A and C): the share of predictions that agree with their
      label; an empty `data` divides by zero. */
  function Accuracy(data: seq<real>, result: seq<real>): (r: Result<real>)
    ensures r.Ok? <==> |data| > 0
    ensures r.Err? ==> r.error == ZeroDivisionError
    ensures r.Ok? ==> 0.0 <= r.value <= 1.0
  {
    var ans := Answer(data);
    if |ans| == 0 then Err(ZeroDivisionError)
    else
      RatioInUnit(Matches(ans, result) as real, |ans| as real);
      Ok(Matches(ans, result) as real / |ans| as real)
  }

  /** `B.get_res(ans)`: 1 where both the answer and the label are 1, over `zip(ans, result)`. */
  function Hits(ans: seq<int>, result: seq<real>): (res: seq<int>)
    ensures |res| == ZipLen(ans, result) && ZeroOne(res)
    ensures forall i :: 0 <= i < |res| ==> (res[i] == 1 <==> ans[i] == 1 && result[i] == 1.0)
    decreases |ans|
  {
    if |ans| == 0 || |result| == 0 then []
    else [Indicator(ans[0] == 1 && result[0] == 1.0)] + Hits(ans[1..], result[1..])
  }

  /** There are no more hits than positive answers. */
  lemma {:induction false} HitsBelowAnswers(ans: seq<int>, result: seq<real>)
    requires ZeroOne(ans)
    ensures 0 <= SumInt(Hits(ans, result)) <= SumInt(ans)
    decreases |ans|
  {
    if |ans| > 0 {
      SumZeroOne(ans);
      if |result| > 0 {
        HitsBelowAnswers(ans[1..], result[1..]);
        assert Hits(ans, result)[1..] == Hits(ans[1..], result[1..]);
      } else {
        assert Hits(ans, result) == [];
      }
    }
  }

  /** With non-negative labels there are no more hits than the labels add up to. */
  lemma {:induction false} HitsBelowLabels(ans: seq<int>, result: seq<real>)
    requires NonNegative(result)
    ensures 0.0 <= SumInt(Hits(ans, result)) as real <= SumReal(result)
    decreases |result|
  {
    if |result| > 0 {
      assert NonNegative(result[1..]);
      HitsBelowLabels(ans, []);
      if |ans| > 0 {
        HitsBelowLabels(ans[1..], result[1..]);
        assert Hits(ans, result)[1..] == Hits(ans[1..], result[1..]);
      } else {
        HitsBelowLabels([], result[1..]);
      }
    }
  }

  /** `B.get_pre`: hits over positive answers; no positive answer divides by zero. */
  function Precision(data: seq<real>, result: seq<real>): (r: Result<real>)
    ensures r.Ok? <==> exists i :: 0 <= i < |data| && data[i] >= 0.5
    ensures r.Err? ==> r.error == ZeroDivisionError
    ensures r.Ok? ==> 0.0 <= r.value <= 1.0
  {
    var ans := Answer(data);
    var res := Hits(ans, result);
    SumZeroOne(ans);
    HitsBelowAnswers(ans, result);
    if SumInt(ans) == 0 then
      assert forall i :: 0 <= i < |data| ==> ans[i] == 0;
      Err(ZeroDivisionError)
    else
      RatioInUnit(SumInt(res) as real, SumInt(ans) as real);
      Ok(SumInt(res) as real / SumInt(ans) as real)
  }

  /** `B.get_rec`: hits over the sum of the labels; a zero sum divides by zero. */
  function Recall(data: seq<real>, result: seq<real>): (r: Result<real>)
    ensures r.Ok? <==> SumReal(result) != 0.0
    ensures r.Err? ==> r.error == ZeroDivisionError
    ensures r.Ok? && NonNegative(result) ==> 0.0 <= r.value <= 1.0
  {
    var res := Hits(Answer(data), result);
    if SumReal(result) == 0.0 then Err(ZeroDivisionError)
    else
      assert NonNegative(result) ==> 0.0 <= SumInt(res) as real / SumReal(result) <= 1.0 by {
        if NonNegative(result) {
          HitsBelowLabels(Answer(data), result);
          RatioInUnit(SumInt(res) as real, SumReal(result));
        }
      }
      Ok(SumInt(res) as real / SumReal(result))
  }

  /** `2 * pre * rec / (pre + rec)`: the harmonic mean of precision and recall. */
  function Harmonic(p: real, r: real): (h: real)
    requires p + r != 0.0
    ensures h * (p + r) == 2.0 * p * r
    ensures p == r ==> h == p
  {
    2.0 * p * r / (p + r)
  }

  /** 2pr/(p+r) lies in [0, 1] when p and r do. */
  lemma HarmonicInUnit(p: real, r: real)
    requires 0.0 <= p <= 1.0 && 0.0 <= r <= 1.0 && p + r != 0.0
    ensures 0.0 <= Harmonic(p, r) <= 1.0
  {
    if p == 0.0 || r == 0.0 {
      assert 2.0 * p * r == 0.0;
    } else {
      HarmonicBetween(p, r);
    }
  }

  lemma Ordered(p: real, r: real, h: real)
    requires 0.0 < p <= r && h * (p + r) == 2.0 * p * r
    ensures p <= h <= r
  {
    assert 2.0 * p * r == p * r + p * r;
    assert p * (p + r) == p * p + p * r;
    assert r * (p + r) == p * r + r * r;
    Arith.MulMonotoneReal(p, r, p);
    Arith.MulMonotoneReal(p, r, r);
    assert p * p <= p * r;
    assert p * r <= r * r;
    assert p * (p + r) <= h * (p + r);
    CancelPositive(p, h, p + r);
    CancelPositive(h, r, p + r);
  }

  /** 2pr/(p+r), the harmonic mean, lies between the smaller and the larger of p and r. */
  lemma HarmonicBetween(p: real, r: real)
    requires 0.0 < p && 0.0 < r
    ensures var h := Harmonic(p, r);
      (if p <= r then p else r) <= h <= (if p <= r then r else p)
  {
    var h := Harmonic(p, r);
    assert h * (p + r) == 2.0 * p * r;
    if p <= r {
      Ordered(p, r, h);
    } else {
      assert 2.0 * p * r == 2.0 * r * p;
      Ordered(r, p, h);
    }
  }

  /** `B.get_score`: the F1 score from precision and recall; any division by zero on the
      way is an error. */
  function F1(data: seq<real>, result: seq<real>): (r: Result<real>)
    ensures r.Ok? <==> Precision(data, result).Ok? && Recall(data, result).Ok?
                       && Precision(data, result).value + Recall(data, result).value != 0.0
    ensures r.Err? ==> r.error == ZeroDivisionError
    ensures r.Ok? && NonNegative(result) ==> 0.0 <= r.value <= 1.0
  {
    match Precision(data, result)
    case Err(e) => Err(e)
    case Ok(pre) =>
      match Recall(data, result)
      case Err(e) => Err(e)
      case Ok(rec) =>
        if pre + rec == 0.0 then Err(ZeroDivisionError)
        else
          assert NonNegative(result) ==> 0.0 <= Harmonic(pre, rec) <= 1.0 by {
            if NonNegative(result) { HarmonicInUnit(pre, rec); }
          }
          Ok(Harmonic(pre, rec))
  }

  /** `sum(y*log(x) + (1-y)*log(1-x) for x, y in zip(data, result))`, with `ln` the natural
      logarithm: `math.log` rejects a non-positive argument with a ValueError. */
  function LogTerms(data: seq<real>, result: seq<real>, ln: real -> real): (r: Result<real>)
    ensures r.Ok? <==> forall i :: 0 <= i < ZipLen(data, result) ==> 0.0 < data[i] < 1.0
    ensures r.Err? ==> r.error == ValueError
    decreases |data|
  {
    if |data| == 0 || |result| == 0 then Ok(0.0)
    else
      assert forall i :: 1 <= i < ZipLen(data, result) ==> data[i] == data[1..][i - 1];
      var x, y := data[0], result[0];
      if x <= 0.0 || 1.0 - x <= 0.0 then Err(ValueError)
      else match LogTerms(data[1..], result[1..], ln)
        case Err(e) => Err(e)
        case Ok(s) => Ok(y * ln(x) + (1.0 - y) * ln(1.0 - x) + s)
  }

  /** `B.get_loss`: the log loss. */
  function LogLoss(data: seq<real>, result: seq<real>, ln: real -> real): (r: Result<real>)
    ensures r.Ok? <==> forall i :: 0 <= i < ZipLen(data, result) ==> 0.0 < data[i] < 1.0
  {
    match LogTerms(data, result, ln)
    case Err(e) => Err(e)
    case Ok(s) => Ok(-s)
  }

  predicate UnitLabels(s: seq<real>)
  {
    forall i :: 0 <= i < |s| ==> 0.0 <= s[i] <= 1.0
  }

  lemma NonPositiveTerm(y: real, a: real, b: real)
    requires 0.0 <= y <= 1.0 && a <= 0.0 && b <= 0.0
    ensures y * a + (1.0 - y) * b <= 0.0
  {
    assert y * a <= 0.0;
    assert (1.0 - y) * b <= 0.0;
  }

  /** With labels in [0, 1] and a logarithm that is not positive on (0, 1), the log loss is
      never negative. */
  lemma {:induction false} LogLossNonNegative(data: seq<real>, result: seq<real>, ln: real -> real)
    requires UnitLabels(result)
    requires forall t :: 0.0 < t < 1.0 ==> ln(t) <= 0.0
    ensures LogTerms(data, result, ln).Ok? ==> LogTerms(data, result, ln).value <= 0.0
    ensures LogLoss(data, result, ln).Ok? ==> LogLoss(data, result, ln).value >= 0.0
    decreases |data|
  {
    if |data| > 0 && |result| > 0 && LogTerms(data, result, ln).Ok? {
      assert UnitLabels(result[1..]);
      LogLossNonNegative(data[1..], result[1..], ln);
      NonPositiveTerm(result[0], ln(data[0]), ln(1.0 - data[0]));
    }
  }

  /** When precision and recall are both positive, the F1 score lies between them. */
  lemma F1BetweenPrecisionRecall(data: seq<real>, result: seq<real>)
    requires F1(data, result).Ok?
    ensures var p, r, f := Precision(data, result).value, Recall(data, result).value, F1(data, result).value;
      0.0 < p && 0.0 < r ==> (if p <= r then p else r) <= f <= (if p <= r then r else p)
  {
    var p, r := Precision(data, result).value, Recall(data, result).value;
    assert Precision(data, result) == Ok(p) && Recall(data, result) == Ok(r);
    assert F1(data, result).value == Harmonic(p, r);
    if 0.0 < p && 0.0 < r {
      HarmonicBetween(p, r);
    }
  }

  /** `get_loss` of each class: squared loss for A, log loss for B, absolute loss for C. */
  function Loss(kind: Kind, data: seq<real>, result: seq<real>, ln: real -> real): (r: Result<real>)
    ensures kind != B ==> r.Ok? && r.value >= 0.0
    ensures kind == B ==> (r.Ok? <==> forall i :: 0 <= i < ZipLen(data, result) ==> 0.0 < data[i] < 1.0)
  {
    match kind
    case A => Ok(SquaredLoss(data, result))
    case B => LogLoss(data, result, ln)
    case C => Ok(AbsLoss(data, result))
  }

  /** `get_score` of each class: accuracy for A and C, F1 for B. */
  function Score(kind: Kind, data: seq<real>, result: seq<real>): (r: Result<real>)
    ensures kind != B ==> (r.Ok? <==> |data| > 0)
    ensures r.Err? ==> r.error == ZeroDivisionError
    ensures r.Ok? && (kind != B || NonNegative(result)) ==> 0.0 <= r.value <= 1.0
  {
    match kind
    case A => Accuracy(data, result)
    case B => F1(data, result)
    case C => Accuracy(data, result)
  }

  /** A and C both defer `get_answer` and `get_score` to `Base`, so they score alike. */
  lemma ScoreAC(data: seq<real>, result: seq<real>)
    ensures Score(A, data, result) == Score(C, data, result)
  {
  }
}
