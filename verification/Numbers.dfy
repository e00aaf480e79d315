/** Real arithmetic helpers: exact counterparts of the Python and NumPy built-ins the components call. */
module Numbers {
  function Abs(x: real): real { if x < 0.0 then -x else x }

  function Min(x: real, y: real): real { if x <= y then x else y }

  function Max(x: real, y: real): real { if x >= y then x else y }

  /** np.clip: the lower bound first, then the upper one. */
  function Clip(x: real, lo: real, hi: real): real { Min(Max(x, lo), hi) }

  /** math.ceil. */
  function Ceil(x: real): int { -((-x).Floor) }

  /** Python's int(): truncation towards zero. */
  function Trunc(x: real): int { if x >= 0.0 then x.Floor else Ceil(x) }

  /** Python's round() and np.rint: to the nearest integer, halves to the even one. */
  function RoundHalfEven(x: real): int {
    var f := x.Floor;
    var d := x - f as real;
    if d < 0.5 then f
    else if d > 0.5 then f + 1
    else if f % 2 == 0 then f
    else f + 1
  }

  /** Python's round(x, 2). */
  function Round2(x: real): real { RoundHalfEven(x * 100.0) as real / 100.0 }

  /** Python's round(x, 1). */
  function Round1(x: real): real { RoundHalfEven(x * 10.0) as real / 10.0 }

  /** Python's x % m for a positive modulus: the result lies in [0, m). */
  function FMod(x: real, m: real): real
    requires m > 0.0
  {
    x - (x / m).Floor as real * m
  }

  lemma CeilBounds(x: real)
    ensures x <= Ceil(x) as real < x + 1.0
  {
  }

  /** The integer part is the only integer in (x - 1, x]. */
  lemma FloorUnique(x: real, n: int)
    requires n as real <= x < n as real + 1.0
    ensures x.Floor == n
  {
  }

  lemma ClipOrder(x: real, y: real, lo: real, hi: real)
    requires x <= y && lo <= hi
    ensures lo <= Clip(x, lo, hi) <= Clip(y, lo, hi) <= hi
    ensures Clip(y, lo, hi) - Clip(x, lo, hi) <= y - x
  {
  }

  lemma RoundError(x: real)
    ensures Abs(RoundHalfEven(x) as real - x) <= 0.5
  {
  }

  lemma RoundWhole(n: int)
    ensures RoundHalfEven(n as real) == n
  {
  }

  lemma Round2Ordered(x: real, y: real)
    requires x <= y
    ensures Round2(x) <= Round2(y)
  {
    var a, b := RoundHalfEven(x * 100.0), RoundHalfEven(y * 100.0);
    assert x * 100.0 <= y * 100.0;
    assert a <= b;
  }

  /** Half-even rounding commutes with subtracting an even integer; an odd one would flip the ties. */
  lemma RoundShiftEven(x: real, k: int)
    ensures RoundHalfEven(x - (2 * k) as real) == RoundHalfEven(x) - 2 * k
  {
    FloorUnique(x - (2 * k) as real, x.Floor - 2 * k);
    assert (x.Floor - 2 * k) % 2 == x.Floor % 2;
  }

  /** Products keep a bound when both factors are bounded and non-negative. */
  lemma MulMono(a: real, b: real, c: real)
    requires a <= b && 0.0 <= c
    ensures a * c <= b * c
  {
  }

  /** A named product: with its body hidden, reasoning about it is linear. */
  function Times(a: real, b: real): real { a * b }

  /** A fraction of an amount lies between nothing and the amount. */
  lemma TimesFraction(f: real, x: real)
    requires 0.0 <= f <= 1.0
    ensures 0.0 <= x ==> 0.0 <= Times(f, x) <= x
    ensures x <= 0.0 ==> x <= Times(f, x) <= 0.0
  {
    if 0.0 <= x {
      assert (1.0 - f) * x >= 0.0;
    } else {
      assert (1.0 - f) * x <= 0.0;
    }
  }

  lemma TimesDifference(f: real, x: real, y: real, d: real)
    requires d == x - y
    ensures Times(f, x) - Times(f, y) == Times(f, d)
  {
  }

  lemma ProductAtLeastZero(a: real, b: real)
    requires 0.0 <= a && 0.0 <= b
    ensures 0.0 <= a * b
  {
  }

  lemma SquareAtLeastZero(n: real, square: real)
    requires square == n * n
    ensures 0.0 <= square
  {
    if n >= 0.0 {
      ProductAtLeastZero(n, n);
    } else {
      ProductAtLeastZero(-n, -n);
    }
  }

  lemma ProductPositive(a: real, b: real, ab: real)
    requires ab == a * b && a > 0.0 && b > 0.0
    ensures ab > 0.0
  {
    assert a * b > 0.0;
  }

  /** Only zero has a square that is not positive. The square is named: solvers reason poorly about
    * comparisons between a literal zero and a product of a term with itself. */
  lemma SquareZero(n: real, square: real)
    requires square == n * n && square <= 0.0
    ensures n == 0.0
  {
    if n > 0.0 {
      ProductPositive(n, n, square);
    } else if n < 0.0 {
      ProductPositive(-n, -n, square);
    }
  }

  lemma DivMono(a: real, b: real, c: real)
    requires a <= b && c > 0.0
    ensures a / c <= b / c
  {
    var d := (b - a) / c;
    assert d >= 0.0;
    assert a / c + d == b / c;
  }

  /** Squares are ordered like their bases, for non-negative bases. */
  lemma SquareOrder(a: real, b: real)
    requires 0.0 <= a && 0.0 <= b
    ensures a * a <= b * b <==> a <= b
  {
    if a > b {
      var d := a - b;
      assert a * a == b * b + 2.0 * (b * d) + d * d;
      assert b * d >= 0.0;
      assert d * d > 0.0;
      assert a * a > b * b;
    } else {
      var d := b - a;
      assert b * b == a * a + 2.0 * (a * d) + d * d;
      assert a * d >= 0.0;
    }
  }
}
