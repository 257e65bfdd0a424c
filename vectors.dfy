/** The `Vec2d` value type of the screensaver: component-wise arithmetic, equality,
    integer length and integer coordinates. */
module Vectors {
  import opened PyErrors
  import Arith

  /** An immutable two-dimensional vector. */
  datatype Vec2d = Vec2d(x: real, y: real)

  /** A Python object on the other side of a vector operator: a vector, a number
      (`int` or `float`), or anything else (a string stands for all of them). */
  datatype Operand = Vector(v: Vec2d) | Number(k: real) | Text(s: string)

  /** `a + other`: defined for a vector operand only, otherwise a TypeError. */
  function Add(a: Vec2d, other: Operand): (r: Result<Vec2d>)
    ensures r.Ok? <==> other.Vector?
    ensures r.Ok? ==> r.value.x - other.v.x == a.x && r.value.y - other.v.y == a.y
    ensures !other.Vector? ==> r == Err(TypeError)
  {
    match other
    case Vector(b) => Ok(Vec2d(a.x + b.x, a.y + b.y))
    case _ => Err(TypeError)
  }

  /** `a - other`: defined for a vector operand only, otherwise a TypeError. */
  function Sub(a: Vec2d, other: Operand): (r: Result<Vec2d>)
    ensures r.Ok? <==> other.Vector?
    ensures r.Ok? ==> r.value.x + other.v.x == a.x && r.value.y + other.v.y == a.y
    ensures !other.Vector? ==> r == Err(TypeError)
  {
    match other
    case Vector(b) => Ok(Vec2d(a.x - b.x, a.y - b.y))
    case _ => Err(TypeError)
  }

  /** `a * other`: defined for a number only; a string or a vector gives a TypeError. */
  function Mul(a: Vec2d, other: Operand): (r: Result<Vec2d>)
    ensures r.Ok? <==> other.Number?
    ensures other.Number? ==> r.Ok? && r.value == Vec2d(a.x * other.k, a.y * other.k)
    ensures !other.Number? ==> r == Err(TypeError)
  {
    match other
    case Number(k) => Ok(Vec2d(a.x * k, a.y * k))
    case _ => Err(TypeError)
  }

  /** `other * a`: Python falls back to the reflected operator, which delegates to `Mul`. */
  function RMul(a: Vec2d, other: Operand): (r: Result<Vec2d>)
    ensures r == Mul(a, other)
  {
    Mul(a, other)
  }

  /** `a == other`: component-wise equality against a vector; against any other object
      Python falls back to identity and the answer is False. */
  function Eq(a: Vec2d, other: Operand): (b: bool)
    ensures b <==> Sub(a, other) == Ok(Vec2d(0.0, 0.0))
  {
    match other
    case Vector(b) => (a.x, a.y) == (b.x, b.y)
    case _ => false
  }

  /** The squared Euclidean norm. */
  function NormSq(v: Vec2d): (s: real)
    ensures s >= 0.0
  {
    v.x * v.x + v.y * v.y
  }

  lemma SquareMonotone(a: nat, b: nat)
    requires a <= b
    ensures a * a <= b * b
  {
    Arith.MulMonotoneInt(a, b, a);
    Arith.MulMonotoneInt(a, b, b);
  }

  /** The largest natural number whose square does not exceed `s`, searched upwards from `n`. */
  function FloorSqrtFrom(s: real, n: nat): (r: nat)
    requires (n * n) as real <= s
    ensures (r * r) as real <= s < ((r + 1) * (r + 1)) as real
    decreases s.Floor - n
  {
    if s < ((n + 1) * (n + 1)) as real then n
    else
      assert (n + 1) <= (n + 1) * (n + 1);
      FloorSqrtFrom(s, n + 1)
  }

  /** `len(v)`: the Euclidean norm truncated to an integer. */
  function Len(v: Vec2d): (n: nat)
    ensures (n * n) as real <= NormSq(v) < ((n + 1) * (n + 1)) as real
  {
    FloorSqrtFrom(NormSq(v), 0)
  }

  /** The integer length is the unique natural `n` with n*n <= x*x + y*y < (n+1)*(n+1). */
  lemma LenUnique(v: Vec2d, n: nat)
    requires (n * n) as real <= NormSq(v) < ((n + 1) * (n + 1)) as real
    ensures Len(v) == n
  {
    var r := Len(v);
    if r < n {
      SquareMonotone(r + 1, n);
    } else if r > n {
      SquareMonotone(n + 1, r);
    }
  }

  /** The three lengths checked by the test suite. */
  lemma LenExamples()
    ensures Len(Vec2d(12.0, 5.0)) == 13
    ensures Len(Vec2d(2.0, 5.0)) == 5
    ensures Len(Vec2d(12.0, -2.0)) == 12
  {
    LenUnique(Vec2d(12.0, 5.0), 13);
    LenUnique(Vec2d(2.0, 5.0), 5);
    LenUnique(Vec2d(12.0, -2.0), 12);
  }

  /** Python's `int(x)` on a float: truncation toward zero. */
  function Trunc(x: real): (r: int)
    ensures 0.0 <= x ==> 0 <= r && r as real <= x < r as real + 1.0
    ensures x < 0.0 ==> r <= 0 && r as real - 1.0 < x <= r as real
  {
    if x >= 0.0 then x.Floor else -((-x).Floor)
  }

  /** `int_pair`: both coordinates truncated toward zero. */
  function IntPair(v: Vec2d): (p: (int, int))
    ensures -1.0 < v.x - p.0 as real < 1.0 && -1.0 < v.y - p.1 as real < 1.0
    ensures (p.0 as real) * (p.0 as real) <= v.x * v.x && (p.1 as real) * (p.1 as real) <= v.y * v.y
  {
    (Trunc(v.x), Trunc(v.y))
  }

  lemma IntPairExample()
    ensures IntPair(Vec2d(4.7, 2.3)) == (4, 2)
    ensures IntPair(Vec2d(-4.7, -2.3)) == (-4, -2)
  {
  }

  /** The operator cases of the test suite, including the ones that fail with a TypeError
      and the comparison with a string that is False. */
  lemma OperatorExamples()
    ensures Add(Vec2d(2.0, 3.0), Vector(Vec2d(3.0, 4.0))) == Ok(Vec2d(5.0, 7.0))
    ensures Sub(Vec2d(3.0, 4.0), Vector(Vec2d(1.0, 2.0))) == Ok(Vec2d(2.0, 2.0))
    ensures Mul(Vec2d(3.0, 4.0), Number(3.0)) == Ok(Vec2d(9.0, 12.0))
    ensures RMul(Vec2d(3.0, 4.0), Number(3.0)) == Ok(Vec2d(9.0, 12.0))
    ensures Eq(Vec2d(3.0, 4.0), Vector(Vec2d(3.0, 4.0)))
    ensures Add(Vec2d(2.0, 3.0), Text("string")) == Err(TypeError)
    ensures Sub(Vec2d(2.0, 3.0), Text("string")) == Err(TypeError)
    ensures Mul(Vec2d(2.0, 3.0), Text("string")) == Err(TypeError)
    ensures Mul(Vec2d(2.0, 3.0), Vector(Vec2d(3.0, 3.0))) == Err(TypeError)
    ensures !Eq(Vec2d(2.0, 3.0), Text("string"))
  {
  }

  /** Subtraction undoes addition. */
  lemma AddSubInverse(a: Vec2d, b: Vec2d)
    ensures Add(a, Vector(b)).Ok?
    ensures Sub(Add(a, Vector(b)).value, Vector(b)) == Ok(a)
  {
  }

  /** Addition is commutative. */
  lemma AddCommutes(a: Vec2d, b: Vec2d)
    ensures Add(a, Vector(b)) == Add(b, Vector(a))
  {
  }

  /** `v * k == k * v == (k x, k y)`. */
  lemma MulIsScaling(v: Vec2d, k: real)
    ensures Mul(v, Number(k)) == RMul(v, Number(k))
    ensures Mul(v, Number(k)) == Ok(Vec2d(k * v.x, k * v.y))
  {
    assert Mul(v, Number(k)).Ok?;
    assert Mul(v, Number(k)).value == Vec2d(v.x * k, v.y * k);
  }

  /** Scaling distributes over addition. */
  lemma MulDistributes(a: Vec2d, b: Vec2d, k: real)
    ensures Mul(Add(a, Vector(b)).value, Number(k)).value
         == Add(Mul(a, Number(k)).value, Vector(Mul(b, Number(k)).value)).value
  {
  }

  /** Equality holds exactly between vectors with the same coordinates. */
  lemma EqIsValueEquality(a: Vec2d, other: Operand)
    ensures Eq(a, other) <==> other == Vector(a)
  {
  }
}
