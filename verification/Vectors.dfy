/** Positions in metres, and Euclidean length.
  *
  * Length needs a square root. `math.sqrt`, `math.dist` and `np.linalg.norm` are library calls, so
  * the square root is a parameter, constrained only by the contract `IsSqrt`.
  */
module Vectors {
  import opened Numbers

  datatype Vec = Vec(x: real, y: real, z: real)

  const ORIGIN := Vec(0.0, 0.0, 0.0)

  function Add(a: Vec, b: Vec): Vec { Vec(a.x + b.x, a.y + b.y, a.z + b.z) }

  function Sub(a: Vec, b: Vec): Vec { Vec(a.x - b.x, a.y - b.y, a.z - b.z) }

  function Scale(k: real, v: Vec): Vec { Vec(k * v.x, k * v.y, k * v.z) }

  /** Altitude instead of depth, or back. */
  function Up(v: Vec): Vec { Vec(v.x, v.y, -v.z) }

  function Dot(a: Vec, b: Vec): real { a.x * b.x + a.y * b.y + a.z * b.z }

  /** The point a fraction `f` of the way from `a` to `b`. */
  function Lerp(a: Vec, b: Vec, f: real): Vec { Add(a, Scale(f, Sub(b, a))) }

  /** What is assumed of the library square root. */
  ghost predicate IsSqrt(sqrt: real -> real) {
    forall x: real :: x >= 0.0 ==> sqrt(x) >= 0.0 && sqrt(x) * sqrt(x) == x
  }

  function Norm(sqrt: real -> real, v: Vec): real { sqrt(Dot(v, v)) }

  function Dist(sqrt: real -> real, a: Vec, b: Vec): real { Norm(sqrt, Sub(a, b)) }

  lemma DotSelfAtLeastZero(v: Vec)
    ensures Dot(v, v) >= 0.0
  {
    SquareAtLeastZero(v.x, v.x * v.x);
    SquareAtLeastZero(v.y, v.y * v.y);
    SquareAtLeastZero(v.z, v.z * v.z);
  }

  lemma SubAsAdd(a: Vec, b: Vec)
    ensures Sub(a, b) == Add(a, Scale(-1.0, b))
  {
  }

  lemma NormSquare(sqrt: real -> real, v: Vec)
    requires IsSqrt(sqrt)
    ensures Norm(sqrt, v) >= 0.0
    ensures Norm(sqrt, v) * Norm(sqrt, v) == Dot(v, v)
  {
    DotSelfAtLeastZero(v);
    hide Dot;
  }

  lemma NormAtMost(sqrt: real -> real, v: Vec, r: real)
    requires IsSqrt(sqrt) && r >= 0.0
    ensures Norm(sqrt, v) <= r <==> Dot(v, v) <= r * r
  {
    NormSquare(sqrt, v);
    SquareOrder(Norm(sqrt, v), r);
  }

  lemma NormOrder(sqrt: real -> real, a: Vec, b: Vec)
    requires IsSqrt(sqrt)
    ensures Norm(sqrt, a) <= Norm(sqrt, b) <==> Dot(a, a) <= Dot(b, b)
  {
    NormSquare(sqrt, b);
    NormAtMost(sqrt, a, Norm(sqrt, b));
  }

  /** Lagrange's identity, the core of Cauchy-Schwarz. */
  lemma Lagrange(a: Vec, b: Vec)
    ensures Dot(a, b) * Dot(a, b) <= Dot(a, a) * Dot(b, b)
  {
    var p := a.x * b.y - a.y * b.x;
    var q := a.y * b.z - a.z * b.y;
    var r := a.z * b.x - a.x * b.z;
    assert Dot(a, a) * Dot(b, b) - Dot(a, b) * Dot(a, b) == p * p + q * q + r * r;
  }

  lemma CauchySchwarz(sqrt: real -> real, a: Vec, b: Vec)
    requires IsSqrt(sqrt)
    ensures Dot(a, b) <= Norm(sqrt, a) * Norm(sqrt, b)
  {
    NormSquare(sqrt, a);
    NormSquare(sqrt, b);
    Lagrange(a, b);
    var na, nb := Norm(sqrt, a), Norm(sqrt, b);
    var n := na * nb;
    assert n >= 0.0;
    assert n * n == (na * na) * (nb * nb);
    if Dot(a, b) > 0.0 {
      SquareOrder(Dot(a, b), n);
    }
  }

  lemma Triangle(sqrt: real -> real, a: Vec, b: Vec)
    requires IsSqrt(sqrt)
    ensures Norm(sqrt, Add(a, b)) <= Norm(sqrt, a) + Norm(sqrt, b)
  {
    NormSquare(sqrt, a);
    NormSquare(sqrt, b);
    CauchySchwarz(sqrt, a, b);
    var na, nb := Norm(sqrt, a), Norm(sqrt, b);
    assert Dot(Add(a, b), Add(a, b)) == Dot(a, a) + 2.0 * Dot(a, b) + Dot(b, b);
    assert (na + nb) * (na + nb) == na * na + 2.0 * (na * nb) + nb * nb;
    NormAtMost(sqrt, Add(a, b), na + nb);
  }

  lemma NormNeg(sqrt: real -> real, a: Vec, b: Vec)
    ensures Dist(sqrt, a, b) == Dist(sqrt, b, a)
  {
    var u, v := Sub(a, b), Sub(b, a);
    assert Dot(u, u) == Dot(v, v);
  }

  lemma DistSelf(sqrt: real -> real, p: Vec)
    requires IsSqrt(sqrt)
    ensures Dist(sqrt, p, p) == 0.0
  {
    hide IsSqrt, Norm, Dot, Sub;
    DotSelfDifference(p);
    NormSquare(sqrt, Sub(p, p));
    SquareZero(Norm(sqrt, Sub(p, p)), Dot(Sub(p, p), Sub(p, p)));
  }

  lemma DotSelfDifference(p: Vec)
    ensures Dot(Sub(p, p), Sub(p, p)) == 0.0
  {
  }

  lemma DistTriangle(sqrt: real -> real, a: Vec, b: Vec, c: Vec)
    requires IsSqrt(sqrt)
    ensures Dist(sqrt, a, c) <= Dist(sqrt, a, b) + Dist(sqrt, b, c)
  {
    Triangle(sqrt, Sub(a, b), Sub(b, c));
    assert Add(Sub(a, b), Sub(b, c)) == Sub(a, c);
  }

  lemma NormScale(sqrt: real -> real, k: real, v: Vec)
    requires IsSqrt(sqrt)
    ensures Norm(sqrt, Scale(k, v)) == Abs(k) * Norm(sqrt, v)
  {
    NormSquare(sqrt, v);
    NormSquare(sqrt, Scale(k, v));
    var n, m := Abs(k) * Norm(sqrt, v), Norm(sqrt, Scale(k, v));
    assert Dot(Scale(k, v), Scale(k, v)) == (k * k) * Dot(v, v);
    assert n * n == (k * k) * (Norm(sqrt, v) * Norm(sqrt, v));
    SquareOrder(n, m);
    SquareOrder(m, n);
  }
}
