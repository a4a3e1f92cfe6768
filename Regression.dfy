/**
 * The trend line of a series: the ordinary least-squares fit
 * y = slope * x + intercept, computed from sums over the points exactly as
 * the chart computes it, here over mathematical reals. The chart divides by
 * n * sumXX - sumX^2 without checking it; that quotient is undefined exactly
 * when every x is equal, which the model reports as `None`.
 */
module Regression {
  import opened Wrappers
  import opened ChartData

  /**
   * The running sums over a point set: the count, `d3.sum` of x, y, x*y and
   * x*x as the chart takes them, and the sum of y*y used to state optimality.
   */
  datatype Sums = Sums(n: real, x: real, y: real, xy: real, xx: real, yy: real)

  function AddPoint(p: Point, s: Sums): Sums
  {
    Sums(s.n + 1.0, p.x + s.x, p.y + s.y, p.x * p.y + s.xy, p.x * p.x + s.xx, p.y * p.y + s.yy)
  }

  function SumsOf(data: seq<Point>): (s: Sums)
    ensures s.n == |data| as real
  {
    if data == [] then Sums(0.0, 0.0, 0.0, 0.0, 0.0, 0.0) else AddPoint(data[0], SumsOf(data[1..]))
  }

  /** `n * sumXX - sumX * sumX`. */
  function Denominator(s: Sums): real
  {
    s.n * s.xx - s.x * s.x
  }

  predicate AllSameX(data: seq<Point>)
  {
    forall i, j :: 0 <= i < |data| && 0 <= j < |data| ==> data[i].x == data[j].x
  }

  datatype Fit = Fit(slope: real, intercept: real)

  /**
   * `linearRegression(data)`: slope and intercept, or `None` where the
   * chart's division by the denominator gives a non-finite value.
   */
  function LinearRegression(data: seq<Point>): (r: Option<Fit>)
    ensures r.None? <==> AllSameX(data)
  {
    var sums := SumsOf(data);
    DenominatorSign(data);
    if Denominator(sums) == 0.0 then None else Some(SlopeIntercept(sums))
  }

  /** The two divisions of `linearRegression`, for a non-zero denominator. */
  function SlopeIntercept(s: Sums): Fit
    requires s.n != 0.0 && Denominator(s) != 0.0
  {
    var slope := (s.n * s.xy - s.x * s.y) / Denominator(s);
    Fit(slope, (s.y - slope * s.x) / s.n)
  }

  // ---------------------------------------------------------------------
  // Arithmetic building blocks

  function Sq(d: real): real
  {
    d * d
  }

  lemma MulPositive(a: real, b: real)
    requires a > 0.0 && b > 0.0
    ensures a * b > 0.0
  {
  }

  lemma MulNonNegative(a: real, b: real)
    requires a >= 0.0 && b >= 0.0
    ensures a * b >= 0.0
  {
    if a > 0.0 && b > 0.0 {
      MulPositive(a, b);
    }
  }

  lemma Square(d: real)
    ensures Sq(d) >= 0.0
    ensures d != 0.0 ==> Sq(d) > 0.0
  {
    if d > 0.0 {
      calc { Sq(d); d * d; > { MulPositive(d, d); } 0.0; }
    } else if d < 0.0 {
      calc { Sq(d); d * d; (-d) * (-d); > { MulPositive(-d, -d); } 0.0; }
    } else {
      calc { Sq(d); 0.0 * 0.0; 0.0; }
    }
  }

  // Polynomial identities over plain reals; the lemmas about point sets
  // instantiate them with the fields of their running sums.

  lemma PositiveFactor(n: real, q: real)
    requires n > 0.0 && n * q >= 0.0
    ensures q >= 0.0
  {
    if q < 0.0 {
      MulPositive(n, -q);
    }
  }

  lemma DivMul(a: real, d: real)
    requires d != 0.0
    ensures (a / d) * d == a && d * (a / d) == a
  {
  }

  lemma DevPoly(x: real, a: real, n: real, sx: real, sxx: real)
    ensures (x - a) * (x - a) + (sxx - 2.0 * a * sx + n * a * a)
            == (x * x + sxx) - 2.0 * a * (x + sx) + (n + 1.0) * a * a
  {
  }

  lemma DenominatorPoly(x: real, n: real, sx: real, sxx: real)
    ensures (n + 1.0) * (x * x + sxx) - (x + sx) * (x + sx)
            == (n * sxx - sx * sx) + (sxx - 2.0 * x * sx + n * x * x)
  {
  }

  lemma ResidualPoly(x: real, y: real, m: real, b: real)
    ensures (y - (m * x + b)) * (y - (m * x + b))
            == y * y - 2.0 * m * (x * y) - 2.0 * b * y + m * m * (x * x) + 2.0 * m * b * x + b * b
  {
  }

  lemma QuadraticPoly(x: real, y: real, m: real, b: real, n: real, sx: real, sy: real, sxy: real, sxx: real, syy: real)
    ensures (y * y - 2.0 * m * (x * y) - 2.0 * b * y + m * m * (x * x) + 2.0 * m * b * x + b * b)
            + (syy - 2.0 * m * sxy - 2.0 * b * sy + m * m * sxx + 2.0 * m * b * sx + n * b * b)
            == (y * y + syy) - 2.0 * m * (x * y + sxy) - 2.0 * b * (y + sy) + m * m * (x * x + sxx)
               + 2.0 * m * b * (x + sx) + (n + 1.0) * b * b
  {
  }

  /** Moving from (m, b) to (m2, b2) changes the quadratic by a form in the steps, when the gradient at (m, b) vanishes. */
  lemma QuadraticDifferencePoly(n: real, sx: real, sy: real, sxy: real, sxx: real, syy: real,
                                m: real, b: real, m2: real, b2: real)
    requires n * b + m * sx == sy && b * sx + m * sxx == sxy
    ensures (syy - 2.0 * m2 * sxy - 2.0 * b2 * sy + m2 * m2 * sxx + 2.0 * m2 * b2 * sx + n * b2 * b2)
            - (syy - 2.0 * m * sxy - 2.0 * b * sy + m * m * sxx + 2.0 * m * b * sx + n * b * b)
            == (m2 - m) * (m2 - m) * sxx + 2.0 * (m2 - m) * (b2 - b) * sx + n * (b2 - b) * (b2 - b)
  {
    var dm, db := m2 - m, b2 - b;
    calc {
      (syy - 2.0 * m2 * sxy - 2.0 * b2 * sy + m2 * m2 * sxx + 2.0 * m2 * b2 * sx + n * b2 * b2)
      - (syy - 2.0 * m * sxy - 2.0 * b * sy + m * m * sxx + 2.0 * m * b * sx + n * b * b);
      dm * dm * sxx + 2.0 * dm * db * sx + n * db * db
        + 2.0 * dm * (b * sx + m * sxx - sxy) + 2.0 * db * (n * b + m * sx - sy);
      { assert b * sx + m * sxx - sxy == 0.0 && n * b + m * sx - sy == 0.0; }
      dm * dm * sxx + 2.0 * dm * db * sx + n * db * db;
    }
  }

  lemma CompletedSquarePoly(n: real, sx: real, sxx: real, dm: real, db: real)
    ensures n * (dm * dm * sxx + 2.0 * dm * db * sx + n * db * db)
            == (n * db + dm * sx) * (n * db + dm * sx) + (dm * dm) * (n * sxx - sx * sx)
  {
  }

  /** Over plain reals: where the normal equations hold, (m, b) minimises the quadratic. */
  lemma MinimumPoly(n: real, sx: real, sy: real, sxy: real, sxx: real, syy: real,
                    m: real, b: real, m2: real, b2: real)
    requires n > 0.0 && n * sxx - sx * sx >= 0.0
    requires n * b + m * sx == sy && b * sx + m * sxx == sxy
    ensures syy - 2.0 * m * sxy - 2.0 * b * sy + m * m * sxx + 2.0 * m * b * sx + n * b * b
            <= syy - 2.0 * m2 * sxy - 2.0 * b2 * sy + m2 * m2 * sxx + 2.0 * m2 * b2 * sx + n * b2 * b2
  {
    var dm, db := m2 - m, b2 - b;
    var q := dm * dm * sxx + 2.0 * dm * db * sx + n * db * db;
    QuadraticDifferencePoly(n, sx, sy, sxy, sxx, syy, m, b, m2, b2);
    CompletedSquarePoly(n, sx, sxx, dm, db);
    Square(n * db + dm * sx);
    Square(dm);
    MulNonNegative(dm * dm, n * sxx - sx * sx);
    PositiveFactor(n, q);
  }

  // ---------------------------------------------------------------------
  // The denominator

  /** Sum of squared distances of the x values from `a`. */
  function SqDev(data: seq<Point>, a: real): real
  {
    if data == [] then 0.0 else Sq(data[0].x - a) + SqDev(data[1..], a)
  }

  /** The same sum, written with the running sums. */
  function Dev(s: Sums, a: real): real
  {
    s.xx - 2.0 * a * s.x + s.n * a * a
  }

  lemma DevStep(p: Point, s: Sums, a: real)
    ensures Sq(p.x - a) + Dev(s, a) == Dev(AddPoint(p, s), a)
  {
    DevPoly(p.x, a, s.n, s.x, s.xx);
  }

  lemma {:induction false} SqDevExpand(data: seq<Point>, a: real)
    ensures SqDev(data, a) == Dev(SumsOf(data), a)
  {
    if data == [] {
      var s := SumsOf(data);
      assert s == Sums(0.0, 0.0, 0.0, 0.0, 0.0, 0.0);
      calc {
        Dev(s, a);
        0.0 - 2.0 * a * 0.0 + 0.0 * a * a;
        0.0;
      }
    } else {
      SqDevExpand(data[1..], a);
      DevStep(data[0], SumsOf(data[1..]), a);
    }
  }

  lemma {:induction false} SqDevZero(data: seq<Point>, a: real)
    ensures SqDev(data, a) >= 0.0
    ensures SqDev(data, a) == 0.0 <==> forall i :: 0 <= i < |data| ==> data[i].x == a
  {
    if data != [] {
      SqDevZero(data[1..], a);
      Square(data[0].x - a);
      if forall i :: 0 <= i < |data| ==> data[i].x == a {
        assert forall i :: 0 <= i < |data[1..]| ==> data[1..][i].x == a by {
          forall i | 0 <= i < |data[1..]| ensures data[1..][i].x == a {
            assert data[1..][i] == data[i + 1];
          }
        }
        assert Sq(data[0].x - a) == Sq(0.0);
      } else {
        var i :| 0 <= i < |data| && data[i].x != a;
        if i > 0 {
          assert data[1..][i - 1].x != a;
        }
      }
    }
  }

  /** Adding a point adds its squared distances from the earlier points. */
  lemma DenominatorStep(p: Point, s: Sums)
    ensures Denominator(AddPoint(p, s)) == Denominator(s) + Dev(s, p.x)
  {
    DenominatorPoly(p.x, s.n, s.x, s.xx);
  }

  /** All x are equal exactly when the later ones all equal the first. */
  lemma AllSameXCons(data: seq<Point>)
    requires data != []
    ensures AllSameX(data) <==> forall i :: 0 <= i < |data[1..]| ==> data[1..][i].x == data[0].x
    ensures AllSameX(data) ==> AllSameX(data[1..])
  {
    var rest := data[1..];
    if forall i :: 0 <= i < |rest| ==> rest[i].x == data[0].x {
      forall i, j | 0 <= i < |data| && 0 <= j < |data| ensures data[i].x == data[j].x {
        if i > 0 { assert data[i] == rest[i - 1]; }
        if j > 0 { assert data[j] == rest[j - 1]; }
      }
    }
    if AllSameX(data) {
      forall i | 0 <= i < |rest| ensures rest[i].x == data[0].x { assert rest[i] == data[i + 1]; }
      forall i, j | 0 <= i < |rest| && 0 <= j < |rest| ensures rest[i].x == rest[j].x {
        assert rest[i] == data[i + 1] && rest[j] == data[j + 1];
      }
    }
  }

  /** The denominator of a point set is that of its tail plus the tail's squared distances from the head. */
  lemma DenominatorSplit(data: seq<Point>)
    requires data != []
    ensures Denominator(SumsOf(data)) == Denominator(SumsOf(data[1..])) + SqDev(data[1..], data[0].x)
  {
    DenominatorStep(data[0], SumsOf(data[1..]));
    SqDevExpand(data[1..], data[0].x);
  }

  lemma NonNegativeSum(whole: real, part: real, dev: real)
    requires whole == part + dev && part >= 0.0 && dev >= 0.0
    ensures whole >= 0.0 && (whole == 0.0 <==> part == 0.0 && dev == 0.0)
  {
  }

  /**
   * The denominator is never negative, and it is zero exactly when all x are
   * equal (including the series with no point or one point).
   */
  lemma {:induction false} DenominatorSign(data: seq<Point>)
    ensures Denominator(SumsOf(data)) >= 0.0
    ensures Denominator(SumsOf(data)) == 0.0 <==> AllSameX(data)
  {
    if data == [] {
      assert Denominator(SumsOf(data)) == Denominator(Sums(0.0, 0.0, 0.0, 0.0, 0.0, 0.0)) == 0.0;
    } else {
      var rest, a := data[1..], data[0].x;
      DenominatorSign(rest);
      DenominatorSplit(data);
      SqDevZero(rest, a);
      AllSameXCons(data);
      NonNegativeSum(Denominator(SumsOf(data)), Denominator(SumsOf(rest)), SqDev(rest, a));
    }
  }

  // ---------------------------------------------------------------------
  // Order does not matter

  lemma AddPointCommutes(p: Point, q: Point, s: Sums)
    ensures AddPoint(p, AddPoint(q, s)) == AddPoint(q, AddPoint(p, s))
  {
  }

  lemma {:induction false} SumsRemove(data: seq<Point>, k: nat)
    requires k < |data|
    ensures SumsOf(data) == AddPoint(data[k], SumsOf(data[..k] + data[k + 1..]))
  {
    if k > 0 {
      var rest := data[..k] + data[k + 1..];
      SumsRemove(data[1..], k - 1);
      assert data[1..][..k - 1] + data[1..][k..] == rest[1..];
      assert rest[0] == data[0];
      AddPointCommutes(data[0], data[k], SumsOf(rest[1..]));
    } else {
      assert data[..k] + data[k + 1..] == data[1..];
    }
  }

  lemma MultisetCancel<T>(a: multiset<T>, b: multiset<T>, x: T)
    requires a + multiset{x} == b + multiset{x}
    ensures a == b
  {
    assert forall y :: a[y] == (a + multiset{x})[y] - multiset{x}[y];
  }

  /** `d3.sum` does not depend on the order of the points. */
  lemma {:induction false} SumsPermutation(s: seq<Point>, t: seq<Point>)
    requires multiset(s) == multiset(t)
    ensures SumsOf(s) == SumsOf(t)
  {
    if s == [] {
      assert |t| == |multiset(t)| == 0;
    } else {
      assert s[0] in multiset(t);
      var k :| 0 <= k < |t| && t[k] == s[0];
      var rest := t[..k] + t[k + 1..];
      assert t == t[..k] + [t[k]] + t[k + 1..];
      assert multiset(t) == multiset(rest) + multiset{s[0]};
      assert s == [s[0]] + s[1..];
      assert multiset(s) == multiset(s[1..]) + multiset{s[0]};
      MultisetCancel(multiset(s[1..]), multiset(rest), s[0]);
      SumsPermutation(s[1..], rest);
      SumsRemove(t, k);
    }
  }

  /** Reordering the points gives the same trend line. */
  lemma LinearRegressionPermutation(s: seq<Point>, t: seq<Point>)
    requires multiset(s) == multiset(t)
    ensures LinearRegression(s) == LinearRegression(t)
  {
    SumsPermutation(s, t);
  }

  // ---------------------------------------------------------------------
  // The fitted line is the least-squares line

  /** Sum of squared vertical residuals of the line y = slope * x + intercept. */
  function Sse(data: seq<Point>, slope: real, intercept: real): real
  {
    if data == [] then 0.0
    else Sq(data[0].y - (slope * data[0].x + intercept)) + Sse(data[1..], slope, intercept)
  }

  /** The same sum as a quadratic in slope and intercept over the running sums. */
  function Quadratic(s: Sums, m: real, b: real): real
  {
    s.yy - 2.0 * m * s.xy - 2.0 * b * s.y + m * m * s.xx + 2.0 * m * b * s.x + s.n * b * b
  }

  lemma QuadraticStep(p: Point, s: Sums, m: real, b: real)
    ensures Sq(p.y - (m * p.x + b)) + Quadratic(s, m, b) == Quadratic(AddPoint(p, s), m, b)
  {
    var x, y := p.x, p.y;
    assert Sq(y - (m * x + b)) == y * y - 2.0 * m * (x * y) - 2.0 * b * y + m * m * (x * x) + 2.0 * m * b * x + b * b by {
      ResidualPoly(x, y, m, b);
    }
    assert Quadratic(AddPoint(p, s), m, b)
           == (y * y + s.yy) - 2.0 * m * (x * y + s.xy) - 2.0 * b * (y + s.y) + m * m * (x * x + s.xx)
              + 2.0 * m * b * (x + s.x) + (s.n + 1.0) * b * b;
    QuadraticPoly(x, y, m, b, s.n, s.x, s.y, s.xy, s.xx, s.yy);
  }

  lemma {:induction false} SseExpand(data: seq<Point>, m: real, b: real)
    ensures Sse(data, m, b) == Quadratic(SumsOf(data), m, b)
  {
    if data == [] {
      var s := SumsOf(data);
      assert s == Sums(0.0, 0.0, 0.0, 0.0, 0.0, 0.0);
      calc {
        Quadratic(s, m, b);
        0.0 - 2.0 * m * 0.0 - 2.0 * b * 0.0 + m * m * 0.0 + 2.0 * m * b * 0.0 + 0.0 * b * b;
        0.0;
      }
    } else {
      SseExpand(data[1..], m, b);
      QuadraticStep(data[0], SumsOf(data[1..]), m, b);
    }
  }

  /**
   * The normal equations of least squares for the line `f` over the sums
   * `s`: the residuals sum to zero, and so do the residuals weighted by x.
   */
  predicate Normal(s: Sums, f: Fit)
  {
    s.n * f.intercept + f.slope * s.x == s.y && f.intercept * s.x + f.slope * s.xx == s.xy
  }

  /** Clearing the denominators of the two divisions gives the normal equations. */
  lemma NormalOfQuotients(n: real, x: real, y: real, xy: real, xx: real, m: real, b: real)
    requires n != 0.0
    requires m * (n * xx - x * x) == n * xy - x * y
    requires n * b == y - m * x
    ensures n * b + m * x == y && b * x + m * xx == xy
  {
    calc {
      n * (b * x + m * xx);
      (n * b) * x + m * (n * xx);
      (y - m * x) * x + m * (n * xx);
      x * y + m * (n * xx - x * x);
      n * xy;
    }
    calc {
      b * x + m * xx;
      (n * (b * x + m * xx)) / n;
      (n * xy) / n;
      xy;
    }
  }

  lemma SlopeInterceptNormal(s: Sums)
    requires s.n != 0.0 && Denominator(s) != 0.0
    ensures Normal(s, SlopeIntercept(s))
  {
    var f := SlopeIntercept(s);
    DivMul(s.n * s.xy - s.x * s.y, Denominator(s));
    DivMul(s.y - f.slope * s.x, s.n);
    NormalOfQuotients(s.n, s.x, s.y, s.xy, s.xx, f.slope, f.intercept);
  }

  /** A fitted line exists only for a non-empty point set, and it is the quotient of its sums. */
  lemma FitOfSums(data: seq<Point>)
    requires LinearRegression(data).Some?
    ensures data != [] && SumsOf(data).n > 0.0 && Denominator(SumsOf(data)) > 0.0
    ensures LinearRegression(data).value == SlopeIntercept(SumsOf(data))
  {
    DenominatorSign(data);
  }

  /** The fitted line satisfies the normal equations of least squares. */
  lemma NormalEquations(data: seq<Point>)
    requires LinearRegression(data).Some?
    ensures Normal(SumsOf(data), LinearRegression(data).value)
  {
    FitOfSums(data);
    SlopeInterceptNormal(SumsOf(data));
  }

  /** A line satisfying the normal equations minimises the quadratic. */
  lemma QuadraticMinimum(s: Sums, f: Fit, m': real, b': real)
    requires s.n > 0.0 && Denominator(s) >= 0.0 && Normal(s, f)
    ensures Quadratic(s, f.slope, f.intercept) <= Quadratic(s, m', b')
  {
    MinimumPoly(s.n, s.x, s.y, s.xy, s.xx, s.yy, f.slope, f.intercept, m', b');
  }

  /**
   * No line has a smaller sum of squared residuals than the fitted one:
   * `linearRegression` minimises squared vertical distances.
   */
  lemma LeastSquares(data: seq<Point>, slope: real, intercept: real)
    requires LinearRegression(data).Some?
    ensures Sse(data, LinearRegression(data).value.slope, LinearRegression(data).value.intercept)
            <= Sse(data, slope, intercept)
  {
    var f := LinearRegression(data).value;
    FitOfSums(data);
    NormalEquations(data);
    SseExpand(data, f.slope, f.intercept);
    SseExpand(data, slope, intercept);
    QuadraticMinimum(SumsOf(data), f, slope, intercept);
  }

  /** The collinear points (1, 10), (2, 30), (3, 50) give y = 20x - 10. */
  lemma CollinearExample()
    ensures LinearRegression([Point(1.0, 10.0), Point(2.0, 30.0), Point(3.0, 50.0)])
            == Some(Fit(20.0, -10.0))
  {
    var data := [Point(1.0, 10.0), Point(2.0, 30.0), Point(3.0, 50.0)];
    assert data[1..] == [Point(2.0, 30.0), Point(3.0, 50.0)];
    assert data[1..][1..] == [Point(3.0, 50.0)];
    assert data[1..][1..][1..] == [];
    assert SumsOf(data) == Sums(3.0, 6.0, 90.0, 220.0, 14.0, 3500.0);
    assert !AllSameX(data) by { assert data[0].x != data[1].x; }
  }
}
