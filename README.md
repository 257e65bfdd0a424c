# Screensaver geometry, classification metrics and prime factorization in Dafny

This project models three small exercises of the `coursera-oop-and-patterns-python`
repository and proves properties of them.

* **The screensaver (w2/screen.py).** The `Vec2d` value type, with `+`, `-`, `*`, the reflected
  `*`, `==`, `len` and `int_pair` (module `Vectors`). The tuple helpers `sub`, `add`, `mul` and
  `vec` work on points stored as 2-tuples (module `Pairs`). The smoothing functions
  `get_point`, `get_points` and `get_knot` turn the control points into a closed smoothed curve
  (module `Smoothing`). The per-frame update `set_points` moves every control point by its
  speed and flips a speed component when the point leaves the 800 x 600 screen on that axis
  (module `Motion`). It works in place on two arrays, as the source does on two lists.
  Finally, the `Polyline` class keeps its entries in a mutable `points` field (module `Shapes`).
* **The metric classes (w2/w2_abc.py).** `Base`, `A`, `B` and `C` compute answers, losses and
  scores over a prediction list `data` and a label list `result`. The three classes become the
  variants of `Metrics.Kind`, and each method becomes a function over the two sequences.
  Python's exceptions become a `PyErrors.Result` with a `TypeError`, `ValueError` or
  `ZeroDivisionError` error.
* **`factorize` (w1).** Its unit tests fix the contract, since the implementation is not part of
  this model. Module `Factorization` defines it by trial division and proves three things: the
  result is sorted, every element is prime, and the product is the input. It also proves
  Euclid's lemma and that the factorization is unique. So any implementation that meets the
  tests' contract returns exactly this result.

Coordinates and metric values are mathematical reals. Python's dynamic typing appears as a sum
type wherever the source or its tests pass objects of the wrong type: `Vectors.Operand` and
`Factorization.PyValue`.

Two details of the smoothing code that a reader might not expect are modelled as written:

* Block `j` of `get_knot`'s output is built around control point `j - 1`, taken cyclically.
  It is not built around point `j`, because the loop starts at Python index `-2`.
* `get_point`'s recursion gives a three-point triple the weights (1-a)^2, a(1-a) and a. These
  are not the Bernstein weights of a quadratic Bezier curve.

## Model

| member | source | states |
|---|---|---|
| Vectors.Add | w2/screen.py:29-33 | `a + other` succeeds exactly when `other` is a `Vec2d`, and then subtracting `other` from the result gives back `a`; anything else is a TypeError |
| Vectors.Sub | w2/screen.py:35-39 | `a - other` succeeds exactly when `other` is a `Vec2d`, and then adding `other` to the result gives back `a`; anything else is a TypeError |
| Vectors.Mul | w2/screen.py:41-45 | `a * other` succeeds exactly when `other` is a number `k`, and then it is `(k x, k y)`; a string or a vector gives a TypeError |
| Vectors.RMul | w2/screen.py:47-49 | `k * a` behaves exactly as `a * k`, errors included |
| Vectors.Eq | w2/screen.py:51-55 | `a == other` holds exactly when `a - other` is the zero vector, so it is False for any operand that is not a `Vec2d` |
| Vectors.EqIsValueEquality | w2/screen.py:51-55 | `a == other` holds exactly when `other` is a vector with the same coordinates; it is False against any other object |
| Vectors.Len | w2/screen.py:57-59 | `len(v)` is a natural `n` with `n*n <= x*x + y*y < (n+1)*(n+1)`, the norm truncated to an integer |
| Vectors.LenUnique | w2/screen.py:57-59 | that characterisation has exactly one solution, so it pins `len(v)` down |
| Vectors.LenExamples | w2/tests/test_screen.py:66-79 | `len` of (12,5), (2,5) and (12,-2) is 13, 5 and 12 |
| Vectors.Trunc | w2/screen.py:64-66 | Python's `int(x)` truncates toward zero: it lies within 1 of `x`, on the same side of zero and no farther from zero |
| Vectors.IntPair | w2/screen.py:64-66 | both coordinates of `int_pair` are within 1 of the vector's and no larger in magnitude |
| Vectors.IntPairExample | w2/tests/test_screen.py:61-64 | `int_pair` of (4.7, 2.3) is (4, 2), and of (-4.7, -2.3) is (-4, -2) |
| Vectors.OperatorExamples | w2/tests/test_screen.py:9-59 | the test cases for `+`, `-`, `*`, reflected `*` and `==`, including the TypeErrors for a string or vector operand and the False comparison with a string |
| Vectors.AddSubInverse | w2/screen.py:29-39 | `(a + b) - b == a` |
| Vectors.AddCommutes | w2/screen.py:29-33 | `a + b == b + a` |
| Vectors.MulIsScaling | w2/screen.py:41-49 | `v * k == k * v == (k x, k y)` |
| Vectors.MulDistributes | w2/screen.py:29-45 | `(a + b) * k == a * k + b * k` |
| Pairs.Sub | w2/screen.py:146-148 | `sub(a, b)` plus `b` gives back `a`, component by component |
| Pairs.Add | w2/screen.py:151-153 | `add(a, b)` minus `b` gives back `a`, component by component |
| Pairs.AddSubInverse | w2/screen.py:146-153 | `add` and `sub` undo each other in both orders |
| Pairs.Mul | w2/screen.py:161-163 | for `k != 0`, dividing both components of `mul(v, k)` by `k` gives back `v` |
| Pairs.MulUnitZero | w2/screen.py:161-163 | `mul(v, 1) == v` and `mul(v, 0)` is the origin |
| Pairs.MulDistributes | w2/screen.py:161-163 | `mul(add(a, b), k) == add(mul(a, k), mul(b, k))` |
| Pairs.Vec | w2/screen.py:166-169 | `vec(a, b)` is the displacement that carries `a` onto `b` |
| Pairs.Mid | w2/screen.py:237 | `mul(add(a, b), 0.5)` is the midpoint: the displacement from `a` to it equals the one from it to `b` |
| Pairs.StepInBox | w2/screen.py:220 | one blending step `add(mul(a, alpha), mul(b, 1 - alpha))` with alpha in [0, 1] stays in any box holding `a` and `b` |
| Pairs.MidInBox | w2/screen.py:237 | the midpoint of two points of a box is in the box |
| Smoothing.Blend | w2/screen.py:215-220 | `get_point(points, alpha, deg)` is `points[0]` for alpha = 0 and `points[deg]` for alpha = 1 |
| Smoothing.GetPoint | w2/screen.py:215-217 | with the default degree `len(points) - 1`, alpha = 0 gives the first point and alpha = 1 the last |
| Smoothing.BlendConstant | w2/screen.py:215-220 | the blend weights sum to one: blending copies of one point `q` gives `q` |
| Smoothing.BlendInBox | w2/screen.py:215-220 | for alpha in [0, 1] the blend stays in any box that holds the blended points |
| Smoothing.ThreePointWeights | w2/screen.py:215-220 | on a triple the blend is `(1-a)^2 p0 + a(1-a) p1 + a p2` |
| Smoothing.SampleAlpha | w2/screen.py:224-227 | the parameter `i * (1 / count)` of sample `i` is 0 for the first sample and in [0, 1) for every sample |
| Smoothing.GetPoints | w2/screen.py:223-228 | `get_points(base, count)` returns exactly `count` points, point `i` being the blend at `i * (1 / count)`, the first being `base[0]` |
| Smoothing.PyIndex | w2/screen.py:237-239 | Python's `points[i]` for `-len <= i < len` is `points[i mod len]` |
| Smoothing.KnotTriple | w2/screen.py:236-239 | block `j`'s triple is (midpoint of points `j-2`, `j-1`; point `j-1`; midpoint of points `j-1`, `j`), indices taken cyclically |
| Smoothing.PyTriple | w2/screen.py:235-239 | the triple built from Python indices `i`, `i+1`, `i+2` for `i` from -2 is block `i+2`'s triple |
| Smoothing.AppendBlock | w2/screen.py:241 | extending the first `j` blocks with block `j`'s samples gives the first `j+1` blocks of the curve |
| Smoothing.GetKnot | w2/screen.py:231-242 | `get_knot(points, count)` is empty for fewer than three points; otherwise it has `len(points) * count` points, point `m` being sample `m mod count` of block `m div count` |
| Smoothing.KnotPoint | w2/screen.py:231-242 | point `m` of the curve, sample `m mod count` of block `m div count`; the first sample of a block is the midpoint of the control points `j-2` and `j-1` before its centre `j-1`; `Smoothing.GetKnot` is proved equal to it point by point |
| Smoothing.KnotBlockStart | w2/screen.py:235-241 | element `j * count` of the curve is the midpoint of control points `j-2` and `j-1`, taken cyclically |
| Smoothing.KnotInBox | w2/screen.py:231-242 | every point of the smoothed curve lies in any box that holds all the control points |
| Motion.Reflect | w2/screen.py:249-252 | the speed after a move keeps the magnitude of each component and negates it exactly when the moved point is outside [0, 800] (x) or [0, 600] (y) |
| Motion.Step | w2/screen.py:247-252 | one frame of one point: the point is displaced by exactly its old speed, and the new speed is the reflection for the new position |
| Motion.ReflectKeepsMagnitude | w2/screen.py:249-252 | a frame negates a speed component or leaves it as it was, and leaves it as it was when the moved point is on the screen on that axis |
| Motion.ReflectTurnsBack | w2/screen.py:248-252 | a point on the screen that leaves it on an axis gets a speed on that axis pointing back towards the screen |
| Motion.StepKeepsReturning | w2/screen.py:247-252 | "on the screen, or one move away from it, on each axis" is kept by a frame |
| Motion.RunKeepsReturning | w2/screen.py:247-252 | that property holds after any number of frames, so a point never escapes the screen |
| Motion.SetPoints | w2/screen.py:245-252 | `set_points` replaces each point by `add(point, speed)`, negates a speed component exactly when the moved point is outside [0, 800] x [0, 600] on that axis, and changes nothing else |
| Shapes.Advance | w2/screen.py:245-252 | one frame of a polyline entry moves its `Vec2d` by its speed (as `Vec2d.__add__` would) with the speed reflected by the `set_points` rule |
| Shapes.Polyline.constructor | w2/screen.py:75-82 | a new polyline holds the given entries, or none |
| Shapes.Polyline.AddPoint | w2/screen.py:100-107 | `add_point(p, s)` appends exactly the entry `(p, s)`, with speed (0.5, 0.5) by default, and leaves the earlier entries unchanged |
| Shapes.Polyline.SetPoints | w2/tests/test_screen.py:111-122 | `set_points()` keeps the number and order of the entries and advances each one by a frame |
| Metrics.Answer | w2/w2_abc.py:10-12 | the answers are 0/1, one per prediction, and 1 exactly where the prediction is at least 0.5 |
| Metrics.SquaredLoss | w2/w2_abc.py:14-16 | the squared loss over `zip(data, result)` is never negative |
| Metrics.SquaredLossZero | w2/w2_abc.py:14-16 | the squared loss is zero exactly when every zipped prediction equals its label |
| Metrics.AbsLoss | w2/w2_abc.py:72-73 | the absolute loss over `zip(data, result)` is never negative |
| Metrics.AbsLossZero | w2/w2_abc.py:72-73 | the absolute loss is zero exactly when every zipped prediction equals its label |
| Metrics.Matches | w2/w2_abc.py:21 | the number of answers that agree with their labels is at most the length of the zip |
| Metrics.Accuracy | w2/w2_abc.py:18-22 | `get_score` of A and C fails with ZeroDivisionError exactly when `data` is empty, and otherwise lies in [0, 1] |
| Metrics.Hits | w2/w2_abc.py:56-57 | `get_res` is a 0/1 list over the zip, 1 exactly where both the answer and the label are 1 |
| Metrics.HitsBelowAnswers | w2/w2_abc.py:46-49 | there are no more hits than positive answers |
| Metrics.HitsBelowLabels | w2/w2_abc.py:51-54 | with non-negative labels there are no more hits than the labels add up to |
| Metrics.Precision | w2/w2_abc.py:46-49 | `get_pre` fails with ZeroDivisionError exactly when no prediction reaches 0.5, and otherwise lies in [0, 1] |
| Metrics.Recall | w2/w2_abc.py:51-54 | `get_rec` fails with ZeroDivisionError exactly when the labels sum to zero, and otherwise lies in [0, 1] for non-negative labels |
| Metrics.Harmonic | w2/w2_abc.py:62 | `h = 2pr/(p+r)` satisfies `h (p + r) == 2pr`, and equals `p` when `p == r` |
| Metrics.HarmonicInUnit | w2/w2_abc.py:62 | `2pr/(p+r)` lies in [0, 1] when `p` and `r` do |
| Metrics.HarmonicBetween | w2/w2_abc.py:62 | for positive `p` and `r`, `2pr/(p+r)` lies between the smaller and the larger of them |
| Metrics.F1 | w2/w2_abc.py:59-62 | `B.get_score` succeeds exactly when precision and recall both succeed and do not sum to zero; every failure is a ZeroDivisionError; the score lies in [0, 1] for non-negative labels |
| Metrics.F1BetweenPrecisionRecall | w2/w2_abc.py:59-62 | for positive precision and recall, the F1 score lies between them |
| Metrics.LogTerms | w2/w2_abc.py:41-44 | the sum of `y log x + (1-y) log(1-x)` is defined exactly when every zipped prediction is in (0, 1); otherwise `math.log` raises ValueError |
| Metrics.LogLoss | w2/w2_abc.py:40-44 | `B.get_loss` is defined exactly when every zipped prediction is in (0, 1) |
| Metrics.LogLossNonNegative | w2/w2_abc.py:40-44 | with labels in [0, 1] and a logarithm that is not positive on (0, 1), the log loss is never negative |
| Metrics.Loss | w2/w2_abc.py:25-73 | `get_loss` of A and C always succeeds and is never negative; that of B succeeds exactly when every zipped prediction is in (0, 1) |
| Metrics.Score | w2/w2_abc.py:25-70 | `get_score` of A and C fails exactly on empty `data`; every failure is a ZeroDivisionError; the score is in [0, 1] (for B, given non-negative labels) |
| Metrics.ScoreAC | w2/w2_abc.py:65-70 | A and C both defer `get_score` to `Base`, so they score any input alike |
| Factorization.FactorsFrom | w1/tests/test_factorize.py:33-45 | trial division from `d` returns factors that are all prime, all at least `d`, in non-decreasing order, and multiply to `n` |
| Factorization.Factorize | w1/tests/test_factorize.py:7-45 | `factorize` raises TypeError for anything but an integer and ValueError for a negative one; it returns (0,) for 0 and (1,) for 1, and otherwise a sorted list of primes whose product is `n` |
| Factorization.Euclid | w1/tests/test_factorize.py:33-45 | a prime that divides a product divides one of the factors |
| Factorization.PrimeDividesProduct | w1/tests/test_factorize.py:33-45 | a prime that divides a product of primes is one of them |
| Factorization.FactorizationUnique | w1/tests/test_factorize.py:33-45 | two sorted lists of primes with the same product are equal |
| Factorization.FactorizeDetermined | w1/tests/test_factorize.py:26-45 | for `n >= 2`, `factorize(n)` is the one sorted list of primes whose product is `n` |
| Factorization.FactorizeRejects | w1/tests/test_factorize.py:7-17 | 'string' and 1.5 raise TypeError; -1, -10 and -100 raise ValueError |
| Factorization.FactorizeSimple | w1/tests/test_factorize.py:19-31 | 0 and 1 map to themselves; 3, 13 and 29 map to themselves as single primes |
| Factorization.FactorizeTwoFactors | w1/tests/test_factorize.py:33-38 | 6, 26 and 121 factor as (2, 3), (2, 13) and (11, 11) |
| Factorization.FactorizeThreeFactors | w1/tests/test_factorize.py:40-45 | 1001 factors as (7, 11, 13) |
| Factorization.FactorizeEightFactors | w1/tests/test_factorize.py:40-45 | 9699690 factors as the primes from 2 to 19 |

`Shapes.PolylineScenarios` replays the polyline tests (w2/tests/test_screen.py:95-122) on the
class: an empty polyline, a polyline built from five entries that holds exactly those entries,
the added point (2, 5) with speed (0.7, 0.8), and one frame of the five points that each move
by (0.5, 0.5).

## Left out

- Drawing with pygame (`draw_points`, `draw_help`, the empty `Polyline.draw_points`) and the placeholder test `test_draw_points`: these are screen output.
- The event loop of the main program: event polling, random initial speeds and colour cycling are input, randomness and presentation. It keeps the smoothing step count at 1 or more and appends points and speeds together. These facts are the preconditions `count > 0` of `GetPoints`/`GetKnot` and `|speeds| >= |points|` of `Motion.SetPoints`.
- `length` (the float `math.sqrt` of the squared norm): only the integer `len` is modelled, by its integer-floor characterisation.
- The `Knot` class: its methods are empty stubs; the module-level `get_knot` is modelled instead.
- `__repr__`: string formatting only.
- IEEE-754 rounding: all coordinates and metric values are reals, so identities such as `(a + b) - b == a` hold exactly here and only approximately in the program.
- Smoothing.GetPoints: `count` is a natural number greater than zero; the ZeroDivisionError of `count == 0` and a negative `count` (which yields an empty list) are not modelled.
- Smoothing.GetKnot: the same restriction on `count`.
- Motion.SetPoints: requires the two arrays to be distinct and `speeds` to be at least as long as `points`; the IndexError of a shorter `speeds` is not modelled.
- Shapes.Polyline.constructor: the source stores the caller's own list when it is non-empty, so later changes through either name are shared; the model copies the entries as a value and does not capture that aliasing.
- Shapes.Polyline.SetPoints: the source method is an empty stub; the model follows its test and applies the module-level `set_points` rule to each entry.
- Shapes.Polyline.AddPoint: the source method is an empty stub; the model follows its signature (default speed (0.5, 0.5)) and its test.
- `math.log` is a parameter `ln` of `Metrics.LogTerms`, `Metrics.LogLoss` and `Metrics.Loss`; only its domain error (argument not positive) is modelled, and `Metrics.LogLossNonNegative` assumes of it only that it is not positive on (0, 1).
- The metric classes' constructor only stores `data` and `result`; these become the parameters of every metric function.
- Factorization.Factorize: the implementation file `w1/factorize.py` is not part of this model; the function is a trial-division definition held to the contract of the tests. Python's `bool`, a subclass of `int`, is not distinguished from an integer.
