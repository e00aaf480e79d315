/** The minimum-jerk position profile (start_bridge._min_jerk): monotone, and never faster than 15/8
  * of its average speed. */
module MinimumJerk {
  import opened Numbers

  function MinJerk(tau: real): real {
    tau * tau * tau * (10.0 - 15.0 * tau + 6.0 * tau * tau)
  }

  function Cube(x: real): real { x * x * x }

  function Fifth(x: real): real { x * x * x * x * x }

  /** Average slope of the profile between 0.5 + m - h and 0.5 + m + h. */
  function Slope(m: real, h: real): real {
    1.875 - 5.0 * CubeSlope(m, h) + 6.0 * FifthSlope(m, h)
  }

  function CubeSlope(m: real, h: real): real { 3.0 * (m * m) + h * h }

  function FifthSlope(m: real, h: real): real {
    5.0 * (m * m * m * m) + 10.0 * (m * m * h * h) + h * h * h * h
  }

  lemma MinJerkEnds()
    ensures MinJerk(0.0) == 0.0 && MinJerk(1.0) == 1.0
  {
  }

  /** The profile written about its half-way point. */
  lemma Centred(s: real)
    ensures MinJerk(0.5 + s) == 0.5 + 1.875 * s - 5.0 * Cube(s) + 6.0 * Fifth(s)
  {
    var tau, q := 0.5 + s, s * s;
    var cube, tail := tau * tau * tau, 10.0 - 15.0 * tau + 6.0 * tau * tau;
    assert cube == 0.125 + 0.75 * s + 1.5 * q + q * s;
    assert tail == 4.0 - 9.0 * s + 6.0 * q;
  }

  lemma PowerDifferences(m: real, h: real)
    ensures Cube(m + h) - Cube(m - h) == 2.0 * h * CubeSlope(m, h)
    ensures Fifth(m + h) - Fifth(m - h) == 2.0 * h * FifthSlope(m, h)
  {
    var x, y, p, q := m + h, m - h, m * m, h * h;
    assert x * x == p + 2.0 * (m * h) + q;
    assert y * y == p - 2.0 * (m * h) + q;
  }

  lemma Difference(m: real, h: real)
    ensures MinJerk(0.5 + (m + h)) - MinJerk(0.5 + (m - h)) == 2.0 * h * Slope(m, h)
  {
    hide MinJerk, Cube, Fifth, CubeSlope, FifthSlope;
    Centred(m + h);
    Centred(m - h);
    PowerDifferences(m, h);
    Distribute(2.0 * h, CubeSlope(m, h), FifthSlope(m, h), Slope(m, h));
    hide Slope;
    Combine(2.0 * h, Cube(m + h) - Cube(m - h), Fifth(m + h) - Fifth(m - h), Slope(m, h),
            CubeSlope(m, h), FifthSlope(m, h));
    assert MinJerk(0.5 + (m + h)) - MinJerk(0.5 + (m - h)) == 1.875 * (2.0 * h) - 5.0 * (Cube(m + h) - Cube(m - h)) + 6.0 * (Fifth(m + h) - Fifth(m - h));
  }

  lemma Combine(k: real, cubes: real, fifths: real, slope: real, a: real, b: real)
    requires cubes == k * a && fifths == k * b
    requires 1.875 * k - 5.0 * (k * a) + 6.0 * (k * b) == k * slope
    ensures 1.875 * k - 5.0 * cubes + 6.0 * fifths == k * slope
  {
  }

  lemma Distribute(k: real, a: real, b: real, sum: real)
    requires sum == 1.875 - 5.0 * a + 6.0 * b
    ensures 1.875 * k - 5.0 * (k * a) + 6.0 * (k * b) == k * sum
  {
  }

  /** The slope is an average of squares. */
  lemma SlopeAtLeastZero(m: real, h: real)
    ensures Slope(m, h) >= 0.0
  {
    var a, b, c := 0.25 - m * m - h * h / 3.0, m * h, h * h;
    assert Slope(m, h) == 30.0 * (a * a) + 40.0 * (b * b) + 30.0 * (c * c) * (4.0 / 45.0);
  }

  lemma SlopeAtMost(m: real, h: real)
    requires -0.5 <= m - h && m + h <= 0.5 && 0.0 <= h
    ensures Slope(m, h) <= 1.875
  {
    var p, q := m * m, h * h;
    ProductAtLeastZero(0.5 - m - h, 0.5 + m - h);
    ProductAtLeastZero(h, 1.0 - 2.0 * h);
    ProductAtLeastZero(h, h);
    assert p + q <= 0.25 by {
      assert (0.5 - m - h) * (0.5 + m - h) == 0.25 - h + q - p;
      assert h * (1.0 - 2.0 * h) == h - 2.0 * q;
    }
    SquareAtLeastZero(m, p);
    assert CubeSlope(m, h) == 3.0 * p + q;
    assert FifthSlope(m, h) == 5.0 * (p * p) + 10.0 * (p * q) + q * q;
    hide CubeSlope, FifthSlope;
    QuadraticBound(p, q);
  }

  lemma QuadraticBound(p: real, q: real)
    requires 0.0 <= p && 0.0 <= q && p + q <= 0.25
    ensures 6.0 * (5.0 * (p * p) + 10.0 * (p * q) + q * q) <= 5.0 * (3.0 * p + q)
  {
    ProductAtLeastZero(p, 0.25 - p - q);
    ProductAtLeastZero(p, 0.25 - q);
    ProductAtLeastZero(q, 0.25 - q);
  }

  /** Between any two points of [0, 1] the profile rises, by at most 15/8 of the distance. */
  lemma MinJerkRise(a: real, b: real)
    requires 0.0 <= a <= b <= 1.0
    ensures 0.0 <= MinJerk(b) - MinJerk(a) <= 1.875 * (b - a)
  {
    hide MinJerk, Slope;
    var m, h := (a + b) / 2.0 - 0.5, (b - a) / 2.0;
    Difference(m, h);
    SlopeAtLeastZero(m, h);
    SlopeAtMost(m, h);
    assert 0.5 + (m + h) == b && 0.5 + (m - h) == a;
    MulMono(0.0, Slope(m, h), 2.0 * h);
    MulMono(Slope(m, h), 1.875, 2.0 * h);
  }

  /** The profile starts flat, no faster than a cube, and ends as it starts: its speed and acceleration are zero at
    * both ends. */
  lemma FlatEnds(t: real)
    requires 0.0 <= t <= 1.0
    ensures 0.0 <= MinJerk(t) <= 10.0 * Cube(t)
    ensures MinJerk(1.0 - t) == 1.0 - MinJerk(t)
  {
    MinJerkRise(0.0, t);
    MinJerkEnds();
    var s := t - 0.5;
    Centred(s);
    Centred(-s);
    var cube, tail := t * t * t, 10.0 - 15.0 * t + 6.0 * t * t;
    ProductAtLeastZero(t, t);
    ProductAtLeastZero(t * t, t);
    ProductAtLeastZero(t, 1.0 - t);
    MulMono(tail, 10.0, cube);
    OddPowers(s);
  }

  lemma OddPowers(s: real)
    ensures Cube(-s) == -Cube(s) && Fifth(-s) == -Fifth(s)
  {
    var q := s * s;
    assert (-s) * (-s) == q;
  }
}
