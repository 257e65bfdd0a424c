/**
  The contract of `factorize(n)` (w1): the implementation is not part of this
  model, so the function below is a trial-division definition proved against
  what the unit tests demand of it, and the factorization it returns is shown
  to be the only one that meets that demand.
*/
module Factorization {
  import opened PyErrors
  import Arith

  /** The argument of `factorize`: Python is dynamically typed and the tests pass
      a string and a float as well as integers. */
  datatype PyValue = Int(i: int) | Float(f: real) | Str(s: string)

  predicate Divides(k: int, n: int) {
    k != 0 && n % k == 0
  }

  predicate IsPrime(n: int) {
    n >= 2 && forall k :: 2 <= k < n ==> !Divides(k, n)
  }

  function Product(s: seq<int>): int {
    if |s| == 0 then 1 else s[0] * Product(s[1..])
  }

  predicate Ascending(s: seq<int>) {
    forall i, j :: 0 <= i < j < |s| ==> s[i] <= s[j]
  }

  predicate AllPrime(s: seq<int>) {
    forall i :: 0 <= i < |s| ==> IsPrime(s[i])
  }

  /** What the tests require of the result for n >= 2: the prime factors in
      non-decreasing order, repeated with their multiplicity. */
  predicate IsFactorization(s: seq<int>, n: int) {
    Ascending(s) && AllPrime(s) && Product(s) == n
  }

  /** No integer in [2, d) divides n. */
  predicate NoFactorBelow(n: int, d: int) {
    forall k :: 2 <= k < d ==> !Divides(k, n)
  }

  // ---------------------------------------------------------------------
  // Divisibility facts

  lemma MultipleDivides(k: int, x: int)
    requires k > 0
    ensures Divides(k, k * x)
  {
  }

  lemma DividesWitness(k: int, n: int) returns (x: int)
    requires k > 0 && Divides(k, n)
    ensures n == k * x && x == n / k
  {
    x := n / k;
  }

  lemma DividesProduct(k: int, a: int, b: int)
    requires k > 0 && Divides(k, a)
    ensures Divides(k, a * b)
  {
    var x := DividesWitness(k, a);
    var y := x * b;
    assert a * b == k * y;
    MultipleDivides(k, y);
  }

  lemma DividesTrans(k: int, d: int, n: int)
    requires k > 0 && d > 0 && Divides(k, d) && Divides(d, n)
    ensures Divides(k, n)
  {
    var x := DividesWitness(d, n);
    DividesProduct(k, d, x);
  }

  /** A positive multiple of k is at least k. */
  lemma DivisorBound(k: int, n: int)
    requires k > 0 && n > 0 && Divides(k, n)
    ensures k <= n
  {
    var x := DividesWitness(k, n);
    if x <= 0 {
      Arith.MulMonotoneInt(x, 0, k);
    }
    Arith.MulMonotoneInt(1, x, k);
  }

  lemma MulCancel(c: int, x: int, y: int)
    requires c > 0 && c * x == c * y
    ensures x == y
  {
    if x < y {
      Arith.MulMonotoneInt(x + 1, y, c);
    } else if y < x {
      Arith.MulMonotoneInt(y + 1, x, c);
    }
  }

  /** A number with no factor below d, where d * d exceeds it, is prime. */
  lemma PrimeIfNoSmallFactor(n: int, d: int)
    requires n >= 2 && d >= 2 && NoFactorBelow(n, d) && d * d > n
    ensures IsPrime(n)
  {
    forall k | 2 <= k < n
      ensures !Divides(k, n)
    {
      if Divides(k, n) && k >= d {
        var m := DividesWitness(k, n);
        if m <= 0 {
          Arith.MulMonotoneInt(m, 0, k);
        }
        assert m != 1;
        MultipleDivides(m, k);
        assert Divides(m, n);
        Arith.MulMonotoneInt(d, m, d);
        Arith.MulMonotoneInt(d, k, m);
      }
    }
  }

  /** The smallest factor of n is prime. */
  lemma SmallestFactorPrime(n: int, d: int)
    requires n > 0 && d >= 2 && NoFactorBelow(n, d) && Divides(d, n)
    ensures IsPrime(d)
  {
    forall k | 2 <= k < d
      ensures !Divides(k, d)
    {
      if Divides(k, d) {
        DividesTrans(k, d, n);
      }
    }
  }

  /** Dividing out d keeps every factor of the quotient at least d. */
  lemma QuotientNoFactorBelow(n: int, d: int, m: int)
    requires m > 0 && n == d * m && NoFactorBelow(n, d)
    ensures NoFactorBelow(m, d)
  {
    MultipleDivides(m, d);
    assert Divides(m, n);
    forall k | 2 <= k < d
      ensures !Divides(k, m)
    {
      if Divides(k, m) {
        DividesTrans(k, m, n);
      }
    }
  }

  /** The quotient of a division step is positive and smaller than n. */
  lemma QuotientBounds(n: int, d: int, m: int)
    requires d >= 2 && d * d <= n && n == d * m
    ensures 1 <= m < n
  {
    Arith.MulMonotoneInt(1, d, d);
    if m <= 1 {
      Arith.MulMonotoneInt(m, 1, d);
    }
    Arith.MulMonotoneInt(2, d, m);
  }

  /** The facts behind one division step of trial division. */
  lemma DivideStep(n: int, d: int)
    requires d >= 2 && NoFactorBelow(n, d) && d * d <= n && n % d == 0
    ensures IsPrime(d)
    ensures 1 <= n / d < n && d * (n / d) == n
    ensures NoFactorBelow(n / d, d)
  {
    var m := DividesWitness(d, n);
    QuotientBounds(n, d, m);
    SmallestFactorPrime(n, d);
    QuotientNoFactorBelow(n, d, m);
  }

  lemma ProductCons(x: int, s: seq<int>)
    ensures Product([x] + s) == x * Product(s)
  {
    assert ([x] + s)[1..] == s;
  }

  // ---------------------------------------------------------------------
  // Trial division

  /**
    The factors of n found by trying divisors d, d + 1, ... in turn, dividing
    out each one as often as it goes; the search stops once d * d exceeds what
    remains, which is then prime.
  */
  function FactorsFrom(n: int, d: int): (fs: seq<int>)
    requires n >= 1 && d >= 2 && NoFactorBelow(n, d)
    ensures IsFactorization(fs, n)
    ensures forall i :: 0 <= i < |fs| ==> fs[i] >= d
    decreases n, n - d
  {
    if n == 1 then
      []
    else if d * d > n then
      PrimeIfNoSmallFactor(n, d);
      assert Divides(n, n);
      [n]
    else if n % d == 0 then
      DivideStep(n, d);
      var rest := FactorsFrom(n / d, d);
      ProductCons(d, rest);
      [d] + rest
    else
      Arith.MulMonotoneInt(1, d, d);
      FactorsFrom(n, d + 1)
  }

  /**
    `factorize(n)`: a TypeError for anything but an integer, a ValueError for a
    negative integer, `(0,)` and `(1,)` for 0 and 1, and otherwise the prime
    factors in ascending order with multiplicity.
  */
  function Factorize(v: PyValue): (r: Result<seq<int>>)
    ensures !v.Int? ==> r == Err(TypeError)
    ensures v.Int? && v.i < 0 ==> r == Err(ValueError)
    ensures v.Int? && 0 <= v.i <= 1 ==> r == Ok([v.i])
    ensures v.Int? && v.i >= 2 ==> r.Ok? && IsFactorization(r.value, v.i)
  {
    match v
    case Int(n) =>
      if n < 0 then Err(ValueError)
      else if n <= 1 then Ok([n])
      else Ok(FactorsFrom(n, 2))
    case Float(_) => Err(TypeError)
    case Str(_) => Err(TypeError)
  }

  // ---------------------------------------------------------------------
  // Uniqueness: the tests' requirement pins the result down

  lemma {:induction false} ProductAtLeastHead(s: seq<int>)
    requires AllPrime(s)
    ensures Product(s) >= 1
    ensures |s| > 0 ==> Product(s) >= s[0]
    decreases |s|
  {
    if |s| > 0 {
      ProductAtLeastHead(s[1..]);
      Arith.MulMonotoneInt(1, Product(s[1..]), s[0]);
    }
  }

  /** Euclid's lemma, for a first factor below p, by descent on that factor. */
  lemma {:induction false} EuclidBelow(p: int, r: int, b: int)
    requires IsPrime(p) && 0 < r < p && Divides(p, r * b)
    ensures Divides(p, b)
    decreases r
  {
    if r > 1 {
      var q := p / r;
      var s := p % r;
      assert !Divides(r, p);
      var t := DividesWitness(p, r * b);
      assert s * b == p * (b - q * t) by {
        assert p == q * r + s;
        assert s * b == p * b - q * (r * b);
      }
      MultipleDivides(p, b - q * t);
      EuclidBelow(p, s, b);
    }
  }

  /** Euclid's lemma: a prime that divides a product divides one of its factors. */
  lemma Euclid(p: int, a: int, b: int)
    requires IsPrime(p) && Divides(p, a * b)
    ensures Divides(p, a) || Divides(p, b)
  {
    var r := a % p;
    if r != 0 {
      var q := a / p;
      var t := DividesWitness(p, a * b);
      assert r * b == p * (t - q * b) by {
        assert a == p * q + r;
        assert r * b == a * b - p * (q * b);
      }
      MultipleDivides(p, t - q * b);
      EuclidBelow(p, r, b);
    }
  }

  lemma PrimeDividesPrime(p: int, q: int)
    requires IsPrime(p) && IsPrime(q) && Divides(p, q)
    ensures p == q
  {
    DivisorBound(p, q);
  }

  lemma {:induction false} PrimeDividesProduct(p: int, s: seq<int>)
    requires IsPrime(p) && AllPrime(s) && Divides(p, Product(s))
    ensures p in s
    decreases |s|
  {
    if |s| == 0 {
      DivisorBound(p, 1);
      assert false;
    }
    Euclid(p, s[0], Product(s[1..]));
    if Divides(p, s[0]) {
      PrimeDividesPrime(p, s[0]);
    } else {
      PrimeDividesProduct(p, s[1..]);
    }
  }

  /** The head of a factorization of n divides n and is below every factor of
      any factorization of n. */
  lemma HeadBelow(s: seq<int>, t: seq<int>, n: int)
    requires IsFactorization(s, n) && IsFactorization(t, n) && |s| > 0
    ensures |t| > 0 && t[0] <= s[0]
  {
    ProductAtLeastHead(s[1..]);
    assert Product(s) == s[0] * Product(s[1..]);
    MultipleDivides(s[0], Product(s[1..]));
    PrimeDividesProduct(s[0], t);
  }

  /** Two factorizations of the same number are equal. */
  lemma {:induction false} FactorizationUnique(s: seq<int>, t: seq<int>, n: int)
    requires IsFactorization(s, n) && IsFactorization(t, n)
    ensures s == t
    decreases |s|
  {
    if |s| == 0 {
      if |t| > 0 {
        HeadBelow(t, s, n);
        assert false;
      }
    } else {
      HeadBelow(s, t, n);
      HeadBelow(t, s, n);
      assert s[0] * Product(s[1..]) == t[0] * Product(t[1..]);
      MulCancel(s[0], Product(s[1..]), Product(t[1..]));
      FactorizationUnique(s[1..], t[1..], Product(s[1..]));
      assert s == [s[0]] + s[1..];
      assert t == [t[0]] + t[1..];
    }
  }

  /** For n >= 2, `factorize(n)` returns exactly the factorization the tests
      describe, whichever way it was found. */
  lemma FactorizeDetermined(n: int, fs: seq<int>)
    requires n >= 2 && IsFactorization(fs, n)
    ensures Factorize(Int(n)) == Ok(fs)
  {
    FactorizationUnique(Factorize(Int(n)).value, fs, n);
  }

  /** test_wrong_types_raise_exception and test_negative. */
  lemma FactorizeRejects()
    ensures Factorize(Str("string")) == Err(TypeError) && Factorize(Float(1.5)) == Err(TypeError)
    ensures Factorize(Int(-1)) == Err(ValueError) && Factorize(Int(-10)) == Err(ValueError)
    ensures Factorize(Int(-100)) == Err(ValueError)
  {
  }

  /** test_zero_and_one_cases and test_simple_numbers. */
  lemma FactorizeSimple()
    ensures Factorize(Int(0)) == Ok([0]) && Factorize(Int(1)) == Ok([1])
    ensures Factorize(Int(3)) == Ok([3]) && Factorize(Int(13)) == Ok([13])
    ensures Factorize(Int(29)) == Ok([29])
  {
  }

  /** The primes up to 19, each found to be its own factorization. */
  lemma SmallPrimes()
    ensures IsPrime(2) && IsPrime(3) && IsPrime(5) && IsPrime(7)
    ensures IsPrime(11) && IsPrime(13) && IsPrime(17) && IsPrime(19)
  {
    assert FactorsFrom(2, 2) == [2] && FactorsFrom(3, 2) == [3];
    assert FactorsFrom(5, 2) == [5] && FactorsFrom(7, 2) == [7];
    assert FactorsFrom(11, 2) == [11] && FactorsFrom(13, 2) == [13];
    assert FactorsFrom(17, 2) == [17] && FactorsFrom(19, 2) == [19];
  }

  /** test_two_simple_multipliers. */
  lemma FactorizeTwoFactors()
    ensures Factorize(Int(6)) == Ok([2, 3]) && Factorize(Int(26)) == Ok([2, 13])
    ensures Factorize(Int(121)) == Ok([11, 11])
  {
    SmallPrimes();
    FactorizeDetermined(6, [2, 3]);
    FactorizeDetermined(26, [2, 13]);
    FactorizeDetermined(121, [11, 11]);
  }

  /** test_many_multipliers, first case. */
  lemma FactorizeThreeFactors()
    ensures Factorize(Int(1001)) == Ok([7, 11, 13])
  {
    SmallPrimes();
    FactorizeDetermined(1001, [7, 11, 13]);
  }

  /** test_many_multipliers, second case: the product of the primes up to 19. */
  lemma FactorizeEightFactors()
    ensures Factorize(Int(9699690)) == Ok([2, 3, 5, 7, 11, 13, 17, 19])
  {
    var fs := [2, 3, 5, 7, 11, 13, 17, 19];
    SmallPrimes();
    assert AllPrime(fs);
    assert Ascending(fs);
    assert Product(fs) == 9699690;
    FactorizeDetermined(9699690, fs);
  }
}
