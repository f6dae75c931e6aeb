/** `detectOutliers` and `removeOutliers` of src/utils/trainingUtils.ts: a row
    is an outlier when some value of it lies more than three population
    standard deviations from its column's mean; outliers are removed from the
    features and from the labels by the same indices. */
module Outliers {
  import opened Wrappers
  import opened Stats

  /** Every row has the width of the first. The only caller builds every
      feature row with the same six fields. */
  predicate IsMatrix(rows: seq<seq<real>>)
  {
    forall i :: 0 <= i < |rows| ==> |rows[i]| == |rows[0]|
  }

  /** Column `j` of a matrix, `features.map(row => row[colIndex])`. */
  function Column(rows: seq<seq<real>>, j: nat): (col: seq<real>)
    requires IsMatrix(rows) && (|rows| > 0 ==> j < |rows[0]|)
    ensures |col| == |rows|
    ensures forall i :: 0 <= i < |rows| ==> col[i] == rows[i][j]
  {
    seq(|rows|, i requires 0 <= i < |rows| => rows[i][j])
  }

  /** Mean and population variance of one column. */
  datatype ColumnStat = ColumnStat(mean: real, variance: real)

  /** `columnStats`: one entry per column of the first row. */
  function ColumnStats(rows: seq<seq<real>>): (stats: seq<ColumnStat>)
    requires |rows| > 0 && IsMatrix(rows)
    ensures |stats| == |rows[0]|
    ensures forall j :: 0 <= j < |stats| ==>
      stats[j] == ColumnStat(Mean(Column(rows, j)), Variance(Column(rows, j)))
  {
    seq(|rows[0]|, j requires 0 <= j < |rows[0]| =>
      ColumnStat(Mean(Column(rows, j)), Variance(Column(rows, j))))
  }

  /** `row.some(...)`: some value of the row fails the z-score test of its column. */
  predicate IsOutlierRow(row: seq<real>, stats: seq<ColumnStat>)
    requires |row| <= |stats|
  {
    exists j :: 0 <= j < |row| && Deviates(row[j], stats[j].mean, stats[j].variance)
  }

  predicate StrictlyIncreasing(s: seq<nat>)
  {
    forall a, b :: 0 <= a < b < |s| ==> s[a] < s[b]
  }

  /** The rows below `n` that are outliers. */
  ghost function FlaggedSet(rows: seq<seq<real>>, stats: seq<ColumnStat>, n: nat): set<nat>
    requires n <= |rows|
    requires forall i :: 0 <= i < |rows| ==> |rows[i]| <= |stats|
  {
    set i: nat | i < n && IsOutlierRow(rows[i], stats)
  }

  /** The `map` to index-or-minus-one followed by `filter(index !== -1)`,
      over the first `n` rows: the outlier indices in increasing order. */
  function OutlierIndices(rows: seq<seq<real>>, stats: seq<ColumnStat>, n: nat): (r: seq<nat>)
    requires n <= |rows|
    requires forall i :: 0 <= i < |rows| ==> |rows[i]| <= |stats|
    ensures StrictlyIncreasing(r)
    ensures forall k :: 0 <= k < |r| ==> r[k] < n
    ensures forall i :: 0 <= i < n ==> (i in r <==> IsOutlierRow(rows[i], stats))
  {
    if n == 0 then []
    else
      var prev := OutlierIndices(rows, stats, n - 1);
      if IsOutlierRow(rows[n - 1], stats) then prev + [n - 1] else prev
  }

  /** `detectOutliers(features)`. With no rows the source reads `features[0]`
      as `undefined` and throws a TypeError: `None`. */
  function DetectOutliers(features: seq<seq<real>>): (r: Option<seq<nat>>)
    requires IsMatrix(features)
    ensures r.None? <==> |features| == 0
    ensures r.Some? ==> StrictlyIncreasing(r.value)
    ensures r.Some? ==> forall k :: 0 <= k < |r.value| ==> r.value[k] < |features|
    ensures r.Some? ==> forall i :: 0 <= i < |features| ==>
      (i in r.value <==> IsOutlierRow(features[i], ColumnStats(features)))
  {
    if |features| == 0 then None
    else Some(OutlierIndices(features, ColumnStats(features), |features|))
  }

  // ---------------------------------------------------------------------------
  // removeOutliers
  // ---------------------------------------------------------------------------

  /** The indices below `n` that are not in `drop`, in increasing order: the
      rows that survive `filter((_, index) => !outlierIndices.includes(index))`. */
  function KeptIndices(n: nat, drop: seq<nat>): (r: seq<nat>)
    ensures StrictlyIncreasing(r)
    ensures forall k :: 0 <= k < |r| ==> r[k] < n
    ensures forall i :: 0 <= i < n ==> (i in r <==> i !in drop)
  {
    if n == 0 then []
    else
      var prev := KeptIndices(n - 1, drop);
      if n - 1 in drop then prev else prev + [n - 1]
  }

  /** `xs.filter((_, index) => !drop.includes(index))`: the survivors are the
      elements at the kept indices, in their original order. */
  function Filter<T>(xs: seq<T>, drop: seq<nat>): (r: seq<T>)
    ensures |r| == |KeptIndices(|xs|, drop)|
    ensures forall k :: 0 <= k < |r| ==> r[k] == xs[KeptIndices(|xs|, drop)[k]]
  {
    if |xs| == 0 then []
    else
      var prev := Filter(xs[..|xs| - 1], drop);
      if |xs| - 1 in drop then prev else prev + [xs[|xs| - 1]]
  }

  datatype Cleaned = Cleaned(features: seq<seq<real>>, labels: seq<seq<real>>)

  /** `removeOutliers(features, labels)`: both filtered by the outlier
      indices of the features. `None` where `detectOutliers` throws. */
  function RemoveOutliers(features: seq<seq<real>>, labels: seq<seq<real>>): (r: Option<Cleaned>)
    requires IsMatrix(features)
    ensures r.None? <==> |features| == 0
    ensures r.Some? ==>
      var kept := KeptIndices(|features|, DetectOutliers(features).value);
      && |r.value.features| == |kept|
      && (forall k :: 0 <= k < |kept| ==> r.value.features[k] == features[kept[k]])
      && (|labels| == |features| ==>
            |r.value.labels| == |kept|
            && forall k :: 0 <= k < |kept| ==> r.value.labels[k] == labels[kept[k]])
  {
    match DetectOutliers(features)
    case None => None
    case Some(outliers) => Some(Cleaned(Filter(features, outliers), Filter(labels, outliers)))
  }

  // ---------------------------------------------------------------------------
  // Counting
  // ---------------------------------------------------------------------------

  lemma {:induction false} OutlierIndicesCount(rows: seq<seq<real>>, stats: seq<ColumnStat>, n: nat)
    requires n <= |rows|
    requires forall i :: 0 <= i < |rows| ==> |rows[i]| <= |stats|
    ensures |OutlierIndices(rows, stats, n)| == |FlaggedSet(rows, stats, n)|
  {
    if n > 0 {
      OutlierIndicesCount(rows, stats, n - 1);
      FlaggedStep(rows, stats, n);
    }
  }

  /** Row n - 1 joins the flagged set exactly when it is an outlier. */
  lemma FlaggedStep(rows: seq<seq<real>>, stats: seq<ColumnStat>, n: nat)
    requires 0 < n <= |rows|
    requires forall i :: 0 <= i < |rows| ==> |rows[i]| <= |stats|
    ensures |FlaggedSet(rows, stats, n)| ==
      |FlaggedSet(rows, stats, n - 1)| + if IsOutlierRow(rows[n - 1], stats) then 1 else 0
  {
    var prev := FlaggedSet(rows, stats, n - 1);
    if IsOutlierRow(rows[n - 1], stats) {
      assert FlaggedSet(rows, stats, n) == prev + {n - 1};
    } else {
      assert FlaggedSet(rows, stats, n) == prev;
    }
  }

  /** The kept and the dropped indices below `n` together number `n`. */
  lemma {:induction false} KeptCount(n: nat, drop: seq<nat>)
    ensures |KeptIndices(n, drop)| + |DroppedBelow(n, drop)| == n
  {
    if n > 0 {
      KeptCount(n - 1, drop);
      DroppedStep(n, drop);
    }
  }

  /** The indices below `n` that `drop` lists. */
  ghost function DroppedBelow(n: nat, drop: seq<nat>): set<nat>
  {
    set i: nat | i < n && i in drop
  }

  lemma DroppedStep(n: nat, drop: seq<nat>)
    requires n > 0
    ensures |DroppedBelow(n, drop)| == |DroppedBelow(n - 1, drop)| + if n - 1 in drop then 1 else 0
  {
    var prev := DroppedBelow(n - 1, drop);
    if n - 1 in drop {
      assert DroppedBelow(n, drop) == prev + {n - 1};
    } else {
      assert DroppedBelow(n, drop) == prev;
    }
  }

  /** The rows below `n` that fail the test in one of the first `c` columns. */
  ghost function FlaggedByColumns(rows: seq<seq<real>>, stats: seq<ColumnStat>, c: nat): set<nat>
    requires |rows| > 0 && IsMatrix(rows) && c <= |rows[0]| <= |stats|
  {
    set i: nat | i < |rows| && exists j :: 0 <= j < c && Deviates(rows[i][j], stats[j].mean, stats[j].variance)
  }

  /** Each column flags fewer than n / 9 rows, so `c` columns flag at most
      c (n - 1) / 9 rows between them. */
  lemma {:induction false} FlaggedByColumnsBound(rows: seq<seq<real>>, c: nat)
    requires |rows| > 0 && IsMatrix(rows) && c <= |rows[0]|
    ensures 9 * |FlaggedByColumns(rows, ColumnStats(rows), c)| <= c * (|rows| - 1)
  {
    var stats := ColumnStats(rows);
    if c == 0 {
      assert FlaggedByColumns(rows, stats, c) == {};
    } else {
      var j := c - 1;
      var before := FlaggedByColumns(rows, stats, j);
      var inColumn := DeviatingSet(Column(rows, j), stats[j].mean, stats[j].variance, |rows|);
      FlaggedByColumnsBound(rows, j);
      ColumnFlagBound(rows, j);
      AddColumn(rows, stats, j);
      assert |before + inColumn| <= |before| + |inColumn|;
      BoundStep(|before|, |inColumn|, |before + inColumn|, j, |rows| - 1);
    }
  }

  /** One column flags at most (n - 1) / 9 of the n rows. */
  lemma ColumnFlagBound(rows: seq<seq<real>>, j: nat)
    requires |rows| > 0 && IsMatrix(rows) && j < |rows[0]|
    ensures var stats := ColumnStats(rows);
      9 * |DeviatingSet(Column(rows, j), stats[j].mean, stats[j].variance, |rows|)| <= |rows| - 1
  {
    var col := Column(rows, j);
    ColumnOutlierBound(col);
  }

  /** Adding a column's at most m / 9 flags to j m / 9 gives (j + 1) m / 9. */
  lemma BoundStep(a: nat, b: nat, u: nat, j: nat, m: nat)
    requires u <= a + b && 9 * a <= j * m && 9 * b <= m
    ensures 9 * u <= (j + 1) * m
  {
    MulSucc(j, m);
  }

  lemma MulSucc(j: nat, m: nat)
    ensures (j + 1) * m == j * m + m
  {
  }

  lemma AddColumn(rows: seq<seq<real>>, stats: seq<ColumnStat>, j: nat)
    requires |rows| > 0 && IsMatrix(rows) && j < |rows[0]| <= |stats|
    ensures FlaggedByColumns(rows, stats, j + 1)
         == FlaggedByColumns(rows, stats, j)
          + DeviatingSet(Column(rows, j), stats[j].mean, stats[j].variance, |rows|)
  {
  }

  // ---------------------------------------------------------------------------
  // Properties
  // ---------------------------------------------------------------------------

  /** With w columns, at most w (n - 1) / 9 of n rows are outliers. */
  lemma OutlierCountBound(features: seq<seq<real>>)
    requires |features| > 0 && IsMatrix(features)
    ensures 9 * |DetectOutliers(features).value| <= |features[0]| * (|features| - 1)
  {
    var stats := ColumnStats(features);
    var w := |features[0]|;
    OutlierIndicesCount(features, stats, |features|);
    assert FlaggedSet(features, stats, |features|) == FlaggedByColumns(features, stats, w);
    FlaggedByColumnsBound(features, w);
  }

  /** A non-empty six-column matrix keeps more than a third of its rows, so it
      never becomes empty. */
  lemma SixColumnsKeepAThird(features: seq<seq<real>>)
    requires |features| > 0 && IsMatrix(features) && |features[0]| == 6
    ensures 3 * |DetectOutliers(features).value| <= 2 * (|features| - 1)
    ensures |DetectOutliers(features).value| < |features|
  {
    OutlierCountBound(features);
  }

  /** Ten rows or fewer: no row is an outlier. */
  lemma SmallInputHasNoOutliers(features: seq<seq<real>>)
    requires 0 < |features| <= 10 && IsMatrix(features)
    ensures DetectOutliers(features) == Some([])
  {
    var r := DetectOutliers(features).value;
    var stats := ColumnStats(features);
    if |r| > 0 {
      var i := r[0];
      assert IsOutlierRow(features[i], stats);
      var j :| 0 <= j < |features[i]| && Deviates(features[i][j], stats[j].mean, stats[j].variance);
      SmallColumnHasNoOutlier(Column(features, j), i);
    }
  }

  /** A column whose values are all equal flags no row. */
  lemma ConstantColumnFlagsNothing(features: seq<seq<real>>, j: nat)
    requires |features| > 0 && IsMatrix(features) && j < |features[0]|
    requires forall i :: 0 <= i < |features| ==> features[i][j] == features[0][j]
    ensures forall i :: 0 <= i < |features| ==>
      !Deviates(features[i][j], ColumnStats(features)[j].mean, ColumnStats(features)[j].variance)
  {
    ConstantColumn(Column(features, j), features[0][j]);
  }

  /** Rows 0, 1 and 100 in every column: none is flagged, since three rows
      are too few for any value to be three standard deviations out. */
  lemma ThreeRowExample()
    ensures DetectOutliers([[0.0, 0.0, 0.0, 0.0, 0.0, 0.0],
                            [1.0, 1.0, 1.0, 1.0, 1.0, 1.0],
                            [100.0, 100.0, 100.0, 100.0, 100.0, 100.0]]) == Some([])
  {
    SmallInputHasNoOutliers([[0.0, 0.0, 0.0, 0.0, 0.0, 0.0],
                             [1.0, 1.0, 1.0, 1.0, 1.0, 1.0],
                             [100.0, 100.0, 100.0, 100.0, 100.0, 100.0]]);
  }

  /** `removeOutliers` drops exactly the outliers: with aligned inputs the
      outputs stay aligned, number n minus the outliers, and keep their order. */
  lemma RemoveOutliersCount(features: seq<seq<real>>, labels: seq<seq<real>>)
    requires |features| > 0 && IsMatrix(features) && |labels| == |features|
    ensures
      var c := RemoveOutliers(features, labels).value;
      var outliers := DetectOutliers(features).value;
      && |c.features| == |c.labels| == |features| - |outliers|
      && (forall k :: 0 <= k < |c.features| ==>
            KeptIndices(|features|, outliers)[k] !in outliers)
  {
    var outliers := DetectOutliers(features).value;
    var stats := ColumnStats(features);
    KeptCount(|features|, outliers);
    OutlierIndicesCount(features, stats, |features|);
    assert DroppedBelow(|features|, outliers) == FlaggedSet(features, stats, |features|);
  }
}
