/** The column-wise min/max normaliser of `trainModel` in
    src/utils/trainingUtils.ts: bounds folded over the cleaned feature rows,
    then `(val - min[i]) / (max[i] - min[i])` applied to features and, with
    the same feature bounds, to labels. */
module Normalizer {
  import opened Wrappers
  import Outliers

  /** `featureNormalizer`: per-column lower and upper bounds. */
  datatype Bounds = Bounds(min: seq<real>, max: seq<real>)

  function Min(a: real, b: real): real { if a <= b then a else b }
  function Max(a: real, b: real): real { if a >= b then a else b }

  /** `row.map((val, i) => Math.min(val, min[i]))`. */
  function MinRow(acc: seq<real>, row: seq<real>): seq<real>
    requires |row| <= |acc|
  {
    seq(|row|, i requires 0 <= i < |row| => Min(row[i], acc[i]))
  }

  /** `row.map((val, i) => Math.max(val, max[i]))`. */
  function MaxRow(acc: seq<real>, row: seq<real>): seq<real>
    requires |row| <= |acc|
  {
    seq(|row|, i requires 0 <= i < |row| => Max(row[i], acc[i]))
  }

  /** `rows.reduce((min, row) => MinRow(min, row), acc)`: the column-wise
      minimum of `acc` and every row, each entry attained by one of them. */
  function FoldMin(acc: seq<real>, rows: seq<seq<real>>): (r: seq<real>)
    requires forall k :: 0 <= k < |rows| ==> |rows[k]| == |acc|
    ensures |r| == |acc|
    ensures forall i :: 0 <= i < |acc| ==> r[i] <= acc[i]
    ensures forall k, i :: 0 <= k < |rows| && 0 <= i < |acc| ==> r[i] <= rows[k][i]
    ensures forall i :: 0 <= i < |acc| ==>
      r[i] == acc[i] || exists k :: 0 <= k < |rows| && rows[k][i] == r[i]
    decreases |rows|
  {
    if |rows| == 0 then acc
    else
      var r := FoldMin(MinRow(acc, rows[0]), rows[1..]);
      assert forall k :: 1 <= k < |rows| ==> rows[k] == rows[1..][k - 1];
      r
  }

  /** `rows.reduce((max, row) => MaxRow(max, row), acc)`. */
  function FoldMax(acc: seq<real>, rows: seq<seq<real>>): (r: seq<real>)
    requires forall k :: 0 <= k < |rows| ==> |rows[k]| == |acc|
    ensures |r| == |acc|
    ensures forall i :: 0 <= i < |acc| ==> acc[i] <= r[i]
    ensures forall k, i :: 0 <= k < |rows| && 0 <= i < |acc| ==> rows[k][i] <= r[i]
    ensures forall i :: 0 <= i < |acc| ==>
      r[i] == acc[i] || exists k :: 0 <= k < |rows| && rows[k][i] == r[i]
    decreases |rows|
  {
    if |rows| == 0 then acc
    else
      var r := FoldMax(MaxRow(acc, rows[0]), rows[1..]);
      assert forall k :: 1 <= k < |rows| ==> rows[k] == rows[1..][k - 1];
      r
  }

  /** Both reductions start from the first row. For every column, min is
      the smallest and max the largest value of it, and both are attained. */
  function FitBounds(rows: seq<seq<real>>): (b: Bounds)
    requires |rows| > 0 && Outliers.IsMatrix(rows)
    ensures |b.min| == |b.max| == |rows[0]|
    ensures forall k, i :: 0 <= k < |rows| && 0 <= i < |rows[0]| ==>
      b.min[i] <= rows[k][i] <= b.max[i]
    ensures forall i :: 0 <= i < |rows[0]| ==>
      (exists k :: 0 <= k < |rows| && rows[k][i] == b.min[i])
    ensures forall i :: 0 <= i < |rows[0]| ==>
      (exists k :: 0 <= k < |rows| && rows[k][i] == b.max[i])
  {
    var b := Bounds(FoldMin(rows[0], rows), FoldMax(rows[0], rows));
    assert forall i :: 0 <= i < |rows[0]| ==> rows[0][i] == rows[0][i];
    b
  }

  /** `(val - min) / (max - min)`. Where `max == min` the source divides by
      zero and gets NaN or an infinity: `None`. */
  function Scale(v: real, lo: real, hi: real): (x: Option<real>)
    ensures x.None? <==> hi == lo
    ensures x.Some? ==> lo + x.value * (hi - lo) == v
  {
    if hi == lo then None else Some((v - lo) / (hi - lo))
  }

  /** `row.map((val, i) => Scale(val, min[i], max[i]))`. */
  function NormalizeRow(row: seq<real>, b: Bounds): (r: seq<Option<real>>)
    requires |row| <= |b.min| && |row| <= |b.max|
    ensures |r| == |row|
    ensures forall i :: 0 <= i < |row| ==> r[i] == Scale(row[i], b.min[i], b.max[i])
  {
    seq(|row|, i requires 0 <= i < |row| => Scale(row[i], b.min[i], b.max[i]))
  }

  /** `rows.map(row => NormalizeRow(row, b))`. */
  function NormalizeRows(rows: seq<seq<real>>, b: Bounds): (r: seq<seq<Option<real>>>)
    requires forall k :: 0 <= k < |rows| ==> |rows[k]| <= |b.min| && |rows[k]| <= |b.max|
    ensures |r| == |rows|
    ensures forall k :: 0 <= k < |rows| ==> r[k] == NormalizeRow(rows[k], b)
  {
    seq(|rows|, k requires 0 <= k < |rows| => NormalizeRow(rows[k], b))
  }

  // ---------------------------------------------------------------------------
  // Properties of one scaled value
  // ---------------------------------------------------------------------------

  /** With `lo < hi` the scaled value is defined, lies in [0, 1] exactly when
      `v` lies in [lo, hi], maps back to `v`, and is 0 at `lo` and 1 at `hi`. */
  lemma ScaleInterval(v: real, lo: real, hi: real)
    requires lo < hi
    ensures Scale(v, lo, hi).Some?
    ensures var x := Scale(v, lo, hi).value;
      && v == lo + x * (hi - lo)
      && (0.0 <= x <= 1.0 <==> lo <= v <= hi)
      && (v == lo ==> x == 0.0)
      && (v == hi ==> x == 1.0)
  {
    var d := hi - lo;
    var x := (v - lo) / d;
    assert x * d == v - lo;
    SignOfProduct(x, d);
    SignOfProduct(1.0 - x, d);
    assert (1.0 - x) * d == d - x * d;
  }

  /** Scaling with `lo < hi` keeps the order of two values, in both directions. */
  lemma ScaleMonotone(v1: real, v2: real, lo: real, hi: real)
    requires lo < hi
    ensures Scale(v1, lo, hi).Some? && Scale(v2, lo, hi).Some?
    ensures v1 <= v2 <==> Scale(v1, lo, hi).value <= Scale(v2, lo, hi).value
  {
    ScaleInterval(v1, lo, hi);
    ScaleInterval(v2, lo, hi);
    var x1, x2 := Scale(v1, lo, hi).value, Scale(v2, lo, hi).value;
    assert v2 - v1 == (x2 - x1) * (hi - lo);
    SignOfProduct(x2 - x1, hi - lo);
  }

  /** With `d > 0`, `x * d` has the sign of `x`. */
  lemma SignOfProduct(x: real, d: real)
    requires d > 0.0
    ensures x >= 0.0 <==> x * d >= 0.0
  {
    if x < 0.0 {
      assert (-x) * d > 0.0;
    }
  }

  // ---------------------------------------------------------------------------
  // Properties of the normalised features
  // ---------------------------------------------------------------------------

  /** Every normalised feature in a column whose bounds differ lies in
      [0, 1]; the row attaining the minimum maps to 0 and the row attaining
      the maximum to 1. */
  lemma NormalizedFeaturesInUnitInterval(rows: seq<seq<real>>, k: nat, i: nat)
    requires |rows| > 0 && Outliers.IsMatrix(rows)
    requires k < |rows| && i < |rows[0]|
    requires FitBounds(rows).min[i] < FitBounds(rows).max[i]
    ensures var x := NormalizeRows(rows, FitBounds(rows))[k][i];
      && x.Some? && 0.0 <= x.value <= 1.0
      && (rows[k][i] == FitBounds(rows).min[i] ==> x.value == 0.0)
      && (rows[k][i] == FitBounds(rows).max[i] ==> x.value == 1.0)
  {
    var b := FitBounds(rows);
    var v := rows[k][i];
    assert NormalizeRows(rows, b)[k][i] == Scale(v, b.min[i], b.max[i]);
    ScaleInterval(v, b.min[i], b.max[i]);
  }

  /** Within one column whose bounds differ, normalisation keeps the order of
      the rows' values, in both directions. */
  lemma NormalizedFeaturesKeepOrder(rows: seq<seq<real>>, k1: nat, k2: nat, i: nat)
    requires |rows| > 0 && Outliers.IsMatrix(rows)
    requires k1 < |rows| && k2 < |rows| && i < |rows[0]|
    requires FitBounds(rows).min[i] < FitBounds(rows).max[i]
    ensures var n := NormalizeRows(rows, FitBounds(rows));
      && n[k1][i].Some? && n[k2][i].Some?
      && (rows[k1][i] <= rows[k2][i] <==> n[k1][i].value <= n[k2][i].value)
  {
    var b := FitBounds(rows);
    ScaleMonotone(rows[k1][i], rows[k2][i], b.min[i], b.max[i]);
  }

  /** A column's bounds coincide exactly when all its values are equal; the
      source then divides 0 by 0 and every entry of that column is NaN. */
  lemma DegenerateColumn(rows: seq<seq<real>>, i: nat)
    requires |rows| > 0 && Outliers.IsMatrix(rows) && i < |rows[0]|
    ensures FitBounds(rows).min[i] == FitBounds(rows).max[i] <==>
      forall k :: 0 <= k < |rows| ==> rows[k][i] == rows[0][i]
    ensures FitBounds(rows).min[i] == FitBounds(rows).max[i] ==>
      forall k :: 0 <= k < |rows| ==> NormalizeRows(rows, FitBounds(rows))[k][i] == None
  {
  }

  /** The column [10, 20, 30] normalises to [0, 0.5, 1]. */
  lemma ColumnExample()
    ensures NormalizeRows([[10.0], [20.0], [30.0]], FitBounds([[10.0], [20.0], [30.0]]))
         == [[Some(0.0)], [Some(0.5)], [Some(1.0)]]
  {
    var rows := [[10.0], [20.0], [30.0]];
    var b := FitBounds(rows);
    assert b.min[0] == 10.0 by {
      assert b.min[0] <= rows[0][0];
    }
    assert b.max[0] == 30.0 by {
      assert b.max[0] >= rows[2][0];
    }
    var n := NormalizeRows(rows, b);
    assert n[0] == [Scale(10.0, 10.0, 30.0)] == [Some(0.0)];
    assert n[1] == [Scale(20.0, 10.0, 30.0)] == [Some(0.5)];
    assert n[2] == [Scale(30.0, 10.0, 30.0)] == [Some(1.0)];
  }

  // ---------------------------------------------------------------------------
  // Labels are scaled with the feature bounds
  // ---------------------------------------------------------------------------

  /** Label column j is scaled with the bounds of feature column j, so a
      label lands in [0, 1] exactly when it lies between those feature
      bounds, whatever the labels' own range. */
  lemma LabelInUnitIntervalIff(features: seq<seq<real>>, labels: seq<seq<real>>, k: nat, j: nat)
    requires |features| > 0 && Outliers.IsMatrix(features)
    requires forall m :: 0 <= m < |labels| ==> |labels[m]| <= |features[0]|
    requires k < |labels| && j < |labels[k]|
    requires FitBounds(features).min[j] < FitBounds(features).max[j]
    ensures var x := NormalizeRows(labels, FitBounds(features))[k][j];
      && x.Some?
      && (0.0 <= x.value <= 1.0 <==>
            FitBounds(features).min[j] <= labels[k][j] <= FitBounds(features).max[j])
  {
    var b := FitBounds(features);
    ScaleInterval(labels[k][j], b.min[j], b.max[j]);
  }

  /** With latitudes 0 and 1, a price label of 20 normalises to 20, far
      outside [0, 1]. */
  lemma LabelOutsideUnitInterval()
    ensures NormalizeRows([[20.0, 5.0]], FitBounds([[0.0, 0.0], [1.0, 10.0]]))[0][0] == Some(20.0)
  {
    var rows := [[0.0, 0.0], [1.0, 10.0]];
    var b := FitBounds(rows);
    assert b.min[0] == 0.0 by {
      assert b.min[0] <= rows[0][0];
    }
    assert b.max[0] == 1.0 by {
      assert b.max[0] >= rows[1][0];
    }
  }
}
