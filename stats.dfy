/** Column statistics used by the outlier filter: sums, the mean, the
    population variance, and the two bounds on how many values of one column
    can lie more than three standard deviations from its mean. */
module Stats {

  /** Sum of a sequence, folded from the left like `reduce((s, v) => s + v, 0)`. */
  function Sum(s: seq<real>): real
  {
    if |s| == 0 then 0.0 else Sum(s[..|s| - 1]) + s[|s| - 1]
  }

  /** Sum of squares. */
  function SumSq(s: seq<real>): real
  {
    if |s| == 0 then 0.0 else SumSq(s[..|s| - 1]) + s[|s| - 1] * s[|s| - 1]
  }

  /** The deviations of the values of `col` from `m`. */
  function Deviations(col: seq<real>, m: real): (d: seq<real>)
    ensures |d| == |col|
  {
    seq(|col|, i requires 0 <= i < |col| => col[i] - m)
  }

  /** Arithmetic mean; the source divides by `col.length`. */
  function Mean(col: seq<real>): (m: real)
    requires |col| > 0
    ensures (|col| as real) * m == Sum(col)
  {
    Sum(col) / (|col| as real)
  }

  /** Population variance (divide by n, not n - 1). */
  function Variance(col: seq<real>): (v: real)
    requires |col| > 0
    ensures v >= 0.0
    ensures (|col| as real) * v == SumSq(Deviations(col, Mean(col)))
  {
    SumSqNonNegative(Deviations(col, Mean(col)));
    SumSq(Deviations(col, Mean(col))) / (|col| as real)
  }

  /** The z-score test `|v - mean| / stdDev > 3`, squared so that no square
      root is needed. On a zero-variance column it is false, as is the
      source's `0 / 0 > 3`. */
  predicate Deviates(v: real, mean: real, variance: real)
  {
    (v - mean) * (v - mean) > 9.0 * variance
  }

  /** Indices below `n` of the values of `col` that fail the z-score test. */
  ghost function DeviatingSet(col: seq<real>, mean: real, variance: real, n: nat): set<nat>
    requires n <= |col|
  {
    set i: nat | i < n && Deviates(col[i], mean, variance)
  }

  // ---------------------------------------------------------------------------
  // Sums
  // ---------------------------------------------------------------------------

  lemma {:induction false} SumAppend(a: seq<real>, b: seq<real>)
    ensures Sum(a + b) == Sum(a) + Sum(b)
    ensures SumSq(a + b) == SumSq(a) + SumSq(b)
  {
    if |b| > 0 {
      var b' := b[..|b| - 1];
      assert (a + b)[..|a + b| - 1] == a + b';
      SumAppend(a, b');
    } else {
      assert a + b == a;
    }
  }

  lemma {:induction false} SumSqNonNegative(s: seq<real>)
    ensures SumSq(s) >= 0.0
  {
    if |s| > 0 {
      SumSqNonNegative(s[..|s| - 1]);
    }
  }

  /** The deviations from `m` add up to `Sum(col) - n * m`. */
  lemma {:induction false} SumOfDeviations(col: seq<real>, m: real)
    ensures Sum(Deviations(col, m)) == Sum(col) - (|col| as real) * m
  {
    if |col| > 0 {
      var k := |col| - 1;
      assert Deviations(col, m)[..k] == Deviations(col[..k], m);
      SumOfDeviations(col[..k], m);
    }
  }

  /** The deviations from the mean add up to zero. */
  lemma DeviationsFromMeanSumToZero(col: seq<real>)
    requires |col| > 0
    ensures Sum(Deviations(col, Mean(col))) == 0.0
  {
    SumOfDeviations(col, Mean(col));
  }

  /** Cauchy-Schwarz against the all-ones vector: n * sum of squares is at
      least the square of the sum. */
  lemma {:induction false} SquareOfSumBound(s: seq<real>)
    ensures (|s| as real) * SumSq(s) >= Sum(s) * Sum(s)
  {
    if |s| > 0 {
      var k := |s| - 1;
      SquareOfSumBound(s[..k]);
      SumSqNonNegative(s[..k]);
      if k == 0 {
        assert s[..k] == [];
      } else {
        CauchyStep(k as real, Sum(s[..k]), SumSq(s[..k]), s[k]);
      }
    }
  }

  /** The inductive step of SquareOfSumBound, as plain arithmetic. */
  lemma CauchyStep(k: real, t: real, q: real, x: real)
    requires k > 0.0 && k * q >= t * t
    ensures (k + 1.0) * (q + x * x) >= (t + x) * (t + x)
  {
    var y := t - k * x;
    Square(y);
    // k (q + k x^2 - 2 t x) = k q - t^2 + y^2 >= 0
    var e := q + k * x * x - 2.0 * t * x;
    assert k * e == k * q - t * t + y * y;
    PositiveFactor(k, e);
    calc {
      (k + 1.0) * (q + x * x);
      == k * q + q + (k + 1.0) * x * x;
      >= t * t + 2.0 * t * x + x * x;
      == (t + x) * (t + x);
    }
  }

  lemma Square(y: real)
    ensures y * y >= 0.0
  {
    if y < 0.0 {
      assert y * y == (-y) * (-y);
    }
  }

  lemma PositiveFactor(k: real, e: real)
    requires k > 0.0 && k * e >= 0.0
    ensures e >= 0.0
  {
  }

  // ---------------------------------------------------------------------------
  // Chebyshev: fewer than n / 9 values of a column fail the z-score test
  // ---------------------------------------------------------------------------

  /** Number of entries of `d` whose square exceeds `t`. */
  function CountAbove(d: seq<real>, t: real): nat
  {
    if |d| == 0 then 0
    else CountAbove(d[..|d| - 1], t) + (if d[|d| - 1] * d[|d| - 1] > t then 1 else 0)
  }

  lemma {:induction false} SumSqAboveCount(d: seq<real>, t: real)
    requires t >= 0.0
    ensures SumSq(d) >= t * (CountAbove(d, t) as real)
    ensures CountAbove(d, t) > 0 ==> SumSq(d) > t * (CountAbove(d, t) as real)
  {
    if |d| > 0 {
      var k := |d| - 1;
      SumSqAboveCount(d[..k], t);
      SumSqNonNegative(d[..k]);
    }
  }

  lemma {:induction false} DeviatingSetSize(col: seq<real>, mean: real, variance: real, n: nat)
    requires n <= |col|
    ensures |DeviatingSet(col, mean, variance, n)| == CountAbove(Deviations(col, mean)[..n], 9.0 * variance)
  {
    if n > 0 {
      DeviatingSetSize(col, mean, variance, n - 1);
      DeviatingSetStep(col, mean, variance, n);
      CountAboveStep(col, mean, variance, n);
    }
  }

  /** Index n - 1 joins the deviating set exactly when its value deviates. */
  lemma DeviatingSetStep(col: seq<real>, mean: real, variance: real, n: nat)
    requires 0 < n <= |col|
    ensures |DeviatingSet(col, mean, variance, n)| ==
      |DeviatingSet(col, mean, variance, n - 1)| + if Deviates(col[n - 1], mean, variance) then 1 else 0
  {
    var prev := DeviatingSet(col, mean, variance, n - 1);
    if Deviates(col[n - 1], mean, variance) {
      assert DeviatingSet(col, mean, variance, n) == prev + {n - 1};
    } else {
      assert DeviatingSet(col, mean, variance, n) == prev;
    }
  }

  /** The count of deviations above 9 v grows by one exactly when value
      n - 1 deviates. */
  lemma CountAboveStep(col: seq<real>, mean: real, variance: real, n: nat)
    requires 0 < n <= |col|
    ensures CountAbove(Deviations(col, mean)[..n], 9.0 * variance) ==
      CountAbove(Deviations(col, mean)[..n - 1], 9.0 * variance) + if Deviates(col[n - 1], mean, variance) then 1 else 0
  {
    var d := Deviations(col, mean);
    assert d[..n][..n - 1] == d[..n - 1];
    SameSquare(d[..n][n - 1], col[n - 1] - mean, 9.0 * variance);
  }

  lemma SameSquare(e: real, e': real, t: real)
    requires e == e'
    ensures e * e > t <==> e' * e' > t
  {
  }

  /** Over the reals, fewer than n / 9 values of a non-empty column fail the
      z-score test against that column's own mean and variance. */
  lemma ColumnOutlierBound(col: seq<real>)
    requires |col| > 0
    ensures 9 * |DeviatingSet(col, Mean(col), Variance(col), |col|)| < |col|
  {
    var m, v := Mean(col), Variance(col);
    var d := Deviations(col, m);
    DeviatingSetSize(col, m, v, |col|);
    assert d[..|col|] == d;
    ChebyshevCount(d, v);
  }

  /** Of n numbers whose sum of squares is n v, fewer than n / 9 have a
      square above 9 v. */
  lemma ChebyshevCount(d: seq<real>, v: real)
    requires |d| > 0 && v >= 0.0 && (|d| as real) * v == SumSq(d)
    ensures 9 * CountAbove(d, 9.0 * v) < |d|
  {
    var t := 9.0 * v;
    var c := CountAbove(d, t);
    SumSqAboveCount(d, t);
    ChebyshevArithmetic(|d| as real, v, t, SumSq(d), c as real);
  }

  /** With n v a sum of squares s of which c terms exceed t == 9 v each:
      9 c < n. */
  lemma ChebyshevArithmetic(n: real, v: real, t: real, s: real, c: real)
    requires n > 0.0 && v >= 0.0 && c >= 0.0 && t == 9.0 * v
    requires n * v == s && s >= t * c
    requires c > 0.0 ==> s > t * c
    ensures 9.0 * c < n
  {
    if c > 0.0 {
      assert v * (n - 9.0 * c) > 0.0;
      PositiveFactor(v, n - 9.0 * c);
    }
  }

  // ---------------------------------------------------------------------------
  // Samuelson: no value of a column of at most 10 values fails the test
  // ---------------------------------------------------------------------------

  /** If one value of a column fails the z-score test, the column has at
      least 11 values (Samuelson's inequality: |v - mean| <= stdDev * sqrt(n - 1)). */
  lemma SmallColumnHasNoOutlier(col: seq<real>, i: nat)
    requires i < |col|
    requires Deviates(col[i], Mean(col), Variance(col))
    ensures |col| >= 11
  {
    var m, v := Mean(col), Variance(col);
    var d := Deviations(col, m);
    assert d[i] == col[i] - m;
    DeviationsFromMeanSumToZero(col);
    SamuelsonBound(d, i, v);
  }

  /** Samuelson's inequality on numbers that add up to zero and whose sum of
      squares is n v: none of them has a square above 9 v unless n > 10. */
  lemma SamuelsonBound(d: seq<real>, i: nat, v: real)
    requires i < |d| && Sum(d) == 0.0 && v >= 0.0
    requires (|d| as real) * v == SumSq(d)
    requires d[i] * d[i] > 9.0 * v
    ensures |d| >= 11
  {
    var n, x := |d| as real, d[i];
    var k, r, t := n - 1.0, SumSq(d) - x * x, Sum(d) - x;
    OthersBound(d, i, k, r, t);
    SamuelsonArithmetic(n, v, x, SumSq(d), k, r, t);
  }

  /** Cauchy-Schwarz on all entries but `d[i]`: with k the number of the
      others, r their sum of squares and t their sum, k r >= t^2. */
  lemma {:induction false} OthersBound(d: seq<real>, i: nat, k: real, r: real, t: real)
    requires i < |d|
    requires k == (|d| as real) - 1.0 && r == SumSq(d) - d[i] * d[i] && t == Sum(d) - d[i]
    ensures k * r >= t * t
  {
    var m := |d| - 1;
    var p, y := d[..m], d[m];
    if i == m {
      SquareOfSumBound(p);
      DropLast(|p| as real, SumSq(p), Sum(p), k, r, t);
    } else {
      assert p[i] == d[i];
      var k', r', t' := (|p| as real) - 1.0, SumSq(p) - p[i] * p[i], Sum(p) - p[i];
      OthersBound(p, i, k', r', t');
      if m == 1 {
        assert p == [d[i]];
      }
      AddLast(k', r', t', k, r, t, y);
    }
  }

  /** Without the last entry, the others are the prefix. */
  lemma DropLast(k: real, q: real, t: real, k': real, q': real, t': real)
    requires k == k' && q == q' && t == t' && k * q >= t * t
    ensures k' * q' >= t' * t'
  {
  }

  /** One more entry y keeps Cauchy-Schwarz: from k q >= t^2 for k numbers to
      k' q' >= t'^2 with k' == k + 1, q' == q + y^2, t' == t + y. */
  lemma AddLast(k: real, q: real, t: real, k': real, q': real, t': real, y: real)
    requires k >= 0.0 && k * q >= t * t
    requires k == 0.0 ==> q == 0.0 && t == 0.0
    requires k' == k + 1.0 && q' == q + y * y && t' == t + y
    ensures k' * q' >= t' * t'
  {
    if k > 0.0 {
      CauchyStep(k, t, q, y);
    }
  }

  /** With n v == q the sum of squares of n deviations that add up to 0, and
      k == n - 1, r == q - x^2 and s == -x the count, the sum of squares and
      the sum of the others than x: k r >= s^2 by Cauchy-Schwarz, and with
      x^2 > 9 v that forces n > 10. */
  lemma SamuelsonArithmetic(n: real, v: real, x: real, q: real, k: real, r: real, s: real)
    requires n >= 1.0 && v >= 0.0 && n * v == q
    requires k == n - 1.0 && r == q - x * x && s == 0.0 - x
    requires k * r >= s * s
    requires x * x > 9.0 * v
    ensures n > 10.0
  {
    assert s * s == x * x;
    assert (n - 1.0) * (n * v - x * x) >= x * x;
    assert (n - 1.0) * (n * v) >= n * (x * x);
    assert n * ((n - 1.0) * v - x * x) >= 0.0;
    PositiveFactor(n, (n - 1.0) * v - x * x);
    assert (n - 10.0) * v > 0.0;
  }

  // ---------------------------------------------------------------------------
  // The squared test is the source's z-score test
  // ---------------------------------------------------------------------------

  function Abs(x: real): real
  {
    if x < 0.0 then -x else x
  }

  /** Where the standard deviation `sd` is positive, `|v - mean| / sd > 3`
      holds exactly when the squared test does. */
  lemma ZScoreMatchesSquaredTest(v: real, mean: real, sd: real)
    requires sd > 0.0
    ensures Abs(v - mean) / sd > 3.0 <==> Deviates(v, mean, sd * sd)
  {
    var a := Abs(v - mean);
    assert a * a == (v - mean) * (v - mean);
    assert (3.0 * sd) * (3.0 * sd) == 9.0 * (sd * sd);
    DivideAbove(a, sd);
    if a > 3.0 * sd {
      assert a * a > (3.0 * sd) * a >= (3.0 * sd) * (3.0 * sd);
    } else {
      assert (3.0 * sd - a) * a >= 0.0;
      assert (3.0 * sd - a) * (3.0 * sd) >= 0.0;
      assert a * a <= (3.0 * sd) * a <= (3.0 * sd) * (3.0 * sd);
    }
  }

  lemma DivideAbove(a: real, sd: real)
    requires sd > 0.0
    ensures a / sd > 3.0 <==> a > 3.0 * sd
  {
    var z := a / sd;
    assert z * sd == a;
    assert (z - 3.0) * sd == a - 3.0 * sd;
    if z > 3.0 {
      assert (z - 3.0) * sd > 0.0;
    } else {
      assert (3.0 - z) * sd >= 0.0;
    }
  }

  /** A column whose values are all equal has the common value as mean and
      zero variance, so no value of it fails the test (the source computes
      `0 / 0`, which is NaN, and `NaN > 3` is false). */
  lemma {:induction false} ConstantColumn(col: seq<real>, c: real)
    requires |col| > 0
    requires forall i :: 0 <= i < |col| ==> col[i] == c
    ensures Mean(col) == c && Variance(col) == 0.0
    ensures forall i :: 0 <= i < |col| ==> !Deviates(col[i], Mean(col), Variance(col))
  {
    SumOfDeviations(col, c);
    DeviationsOfConstant(col, c);
    assert Deviations(col, c) == seq(|col|, i => 0.0);
    ZeroSum(|col|);
    assert Sum(col) == (|col| as real) * c;
  }

  lemma {:induction false} ZeroSum(n: nat)
    ensures Sum(seq(n, i => 0.0)) == 0.0 && SumSq(seq(n, i => 0.0)) == 0.0
  {
    if n > 0 {
      assert seq(n, i => 0.0)[..n - 1] == seq(n - 1, i => 0.0);
      ZeroSum(n - 1);
    }
  }

  lemma DeviationsOfConstant(col: seq<real>, c: real)
    requires forall i :: 0 <= i < |col| ==> col[i] == c
    ensures Deviations(col, c) == seq(|col|, i => 0.0)
  {
  }
}
