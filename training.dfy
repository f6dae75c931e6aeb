/** The preprocessing half of `trainModel` in src/utils/trainingUtils.ts:
    build features and labels, remove outliers from both, fit the bounds on
    the cleaned features, and normalise features and labels with them. */
module Training {
  import opened Wrappers
  import opened Dataset
  import opened Outliers
  import opened Normalizer
  import opened Segments

  /** What is handed to the network: normalised features and labels, and the
      feature bounds used for both. */
  datatype Prepared = Prepared(
    features: seq<seq<Option<real>>>,
    labels: seq<seq<Option<real>>>,
    bounds: Bounds)

  /** The indices of the rides that survive outlier removal. */
  function Survivors(data: seq<Ride>): seq<nat>
    requires |data| > 0
  {
    KeptIndices(|data|, DetectOutliers(Features(data)).value)
  }

  /** The cleaned feature and label rows: as many as the survivors, at
      least one, six and two wide, each pair taken from the same ride. */
  lemma CleanedShape(data: seq<Ride>)
    requires |data| > 0
    ensures var c := RemoveOutliers(Features(data), Labels(data)).value;
      var kept := Survivors(data);
      && |c.features| == |c.labels| == |kept| == |data| - |DetectOutliers(Features(data)).value|
      && 0 < |kept| && 3 * (|data| - |kept|) <= 2 * (|data| - 1)
      && (|data| <= 10 ==> |kept| == |data|)
      && (forall k :: 0 <= k < |kept| ==>
            c.features[k] == FeatureRow(data[kept[k]]) && c.labels[k] == LabelRow(data[kept[k]]))
      && IsMatrix(c.features) && |c.features[0]| == 6
      && (forall k :: 0 <= k < |kept| ==> |c.labels[k]| == 2)
  {
    var features, labels := Features(data), Labels(data);
    RemoveOutliersCount(features, labels);
    SixColumnsKeepAThird(features);
    if |data| <= 10 {
      SmallInputHasNoOutliers(features);
    }
  }

  /** Lines 87-116 of `trainModel`. With no rows `detectOutliers` throws and
      the whole call fails: `None`. Otherwise one normalised feature row and
      one normalised label row per surviving ride, and at least one of each. */
  function Prepare(data: seq<Ride>): (r: Option<Prepared>)
    ensures r.None? <==> |data| == 0
    ensures r.Some? ==>
      && |r.value.features| == |r.value.labels| == |data| - |DetectOutliers(Features(data)).value|
      && |r.value.features| > 0
      && |r.value.bounds.min| == |r.value.bounds.max| == 6
      && (forall k :: 0 <= k < |r.value.features| ==> |r.value.features[k]| == 6)
  {
    match RemoveOutliers(Features(data), Labels(data))
    case None => None
    case Some(cleaned) =>
      CleanedShape(data);
      var bounds := FitBounds(cleaned.features);
      Some(Prepared(
        NormalizeRows(cleaned.features, bounds),
        NormalizeRows(cleaned.labels, bounds),
        bounds))
  }

  /** Row k of the prepared features and row k of the prepared labels are
      the normalised feature and label rows of the same ride, the k-th
      survivor; both are scaled with the bounds of the cleaned features. */
  lemma PreparedRowsAligned(data: seq<Ride>, k: nat)
    requires |data| > 0 && k < |Survivors(data)|
    ensures var p := Prepare(data).value;
      var ride := data[Survivors(data)[k]];
      && k < |p.features| && k < |p.labels|
      && |p.bounds.min| == |p.bounds.max| == 6
      && p.bounds == FitBounds(RemoveOutliers(Features(data), Labels(data)).value.features)
      && p.features[k] == NormalizeRow(FeatureRow(ride), p.bounds)
      && p.labels[k] == NormalizeRow(LabelRow(ride), p.bounds)
  {
    CleanedShape(data);
  }

  /** Few rows are lost: more than a third of the rides survive, and with
      ten rides or fewer all of them do. */
  lemma PreparedKeepsMostRows(data: seq<Ride>)
    requires |data| > 0
    ensures var n := |Prepare(data).value.features|;
      && 3 * (|data| - n) <= 2 * (|data| - 1)
      && (|data| <= 10 ==> n == |data|)
  {
    CleanedShape(data);
  }

  /** Every feature the network sees lies in [0, 1], in each column whose
      bounds differ. */
  lemma PreparedFeaturesInUnitInterval(data: seq<Ride>, k: nat, i: nat)
    requires |data| > 0 && k < |Prepare(data).value.features| && i < 6
    requires Prepare(data).value.bounds.min[i] < Prepare(data).value.bounds.max[i]
    ensures var x := Prepare(data).value.features[k][i];
      x.Some? && 0.0 <= x.value <= 1.0
  {
    var cf := RemoveOutliers(Features(data), Labels(data)).value.features;
    CleanedShape(data);
    var b := FitBounds(cf);
    assert Prepare(data).value.features[k] == NormalizeRow(cf[k], b);
    NormalizedFeaturesInUnitInterval(cf, k, i);
  }

  /** Two rides at latitudes 0 and 1: the first ride's price of 20 is scaled
      with the latitude bounds [0, 1] and reaches the network as 20, far
      outside [0, 1]. */
  lemma PreparedLabelOutsideUnitInterval()
    ensures Prepare([Ride(0.0, 0.0, 0.0, 0.0, 0.0, 0.0, 20.0, 5.0, None, None),
                     Ride(1.0, 0.0, 0.0, 0.0, 0.0, 0.0, 30.0, 5.0, None, None)]).value.labels[0][0]
         == Some(20.0)
  {
    var data := [Ride(0.0, 0.0, 0.0, 0.0, 0.0, 0.0, 20.0, 5.0, None, None),
                 Ride(1.0, 0.0, 0.0, 0.0, 0.0, 0.0, 30.0, 5.0, None, None)];
    SmallInputHasNoOutliers(Features(data));
    CleanedShape(data);
    var kept := Survivors(data);
    assert kept[0] == 0 && kept[1] == 1;
    PreparedRowsAligned(data, 0);
    var cf := RemoveOutliers(Features(data), Labels(data)).value.features;
    var b := Prepare(data).value.bounds;
    assert cf[0][0] == 0.0 && cf[1][0] == 1.0;
    assert b.min[0] == 0.0 by {
      assert b.min[0] <= cf[0][0];
    }
    assert b.max[0] == 1.0 by {
      assert b.max[0] >= cf[1][0];
    }
    assert Prepare(data).value.labels[0] == NormalizeRow(LabelRow(data[0]), b);
  }

  // ---------------------------------------------------------------------------
  // The whole preprocessing step
  // ---------------------------------------------------------------------------

  /** What `trainModel` computes before it builds the network: the prepared
      matrices and the ride segments. */
  datatype Trained = Trained(prepared: Prepared, segments: map<string, Segment>)

  /** Lines 84-116 of `trainModel`, network left out. With no rows
      `removeOutliers` throws before the segments are built: `None`.
      Otherwise the matrices keep only the surviving rides, while the
      segments are built from every ride, outliers included. */
  method TrainModel(data: seq<Ride>) returns (r: Option<Trained>)
    ensures r.None? <==> |data| == 0
    ensures r.Some? ==>
      && Prepare(data) == Some(r.value.prepared)
      && |r.value.prepared.features| == |data| - |DetectOutliers(Features(data)).value|
      && r.value.segments.Keys == CabTypes(data)
      && (forall k :: k in r.value.segments ==> r.value.segments[k] == WithAverages(Totals(data, k)))
      && SegmentRides(r.value.segments, CabTypeOrder(data)) == |data|
  {
    var prepared := Prepare(data);
    if prepared.None? {
      return None;
    }
    var segments := SegmentRidesByCabType(data);
    return Some(Trained(prepared.value, segments));
  }

  // ---------------------------------------------------------------------------
  // Labels scaled with their own bounds
  // ---------------------------------------------------------------------------

  /** The preparation with the label rows scaled by bounds fitted on the
      cleaned labels themselves, rather than by the feature bounds. */
  datatype PreparedSeparately = PreparedSeparately(
    features: seq<seq<Option<real>>>,
    labels: seq<seq<Option<real>>>,
    featureBounds: Bounds,
    labelBounds: Bounds)

  /** Lines 87-116 with `normalizedLabels` computed from label bounds: the
      same rows as `Prepare`, the same feature scaling. */
  function PrepareSeparately(data: seq<Ride>): (r: Option<PreparedSeparately>)
    ensures r.None? <==> |data| == 0
    ensures r.Some? ==>
      && Prepare(data).Some?
      && r.value.features == Prepare(data).value.features
      && r.value.featureBounds == Prepare(data).value.bounds
      && |r.value.labels| == |r.value.features| > 0
      && |r.value.labelBounds.min| == |r.value.labelBounds.max| == 2
      && (forall k :: 0 <= k < |r.value.labels| ==> |r.value.labels[k]| == 2)
  {
    match RemoveOutliers(Features(data), Labels(data))
    case None => None
    case Some(cleaned) =>
      CleanedShape(data);
      var featureBounds := FitBounds(cleaned.features);
      var labelBounds := FitBounds(cleaned.labels);
      Some(PreparedSeparately(
        NormalizeRows(cleaned.features, featureBounds),
        NormalizeRows(cleaned.labels, labelBounds),
        featureBounds,
        labelBounds))
  }

  /** With its own bounds every label lies in [0, 1], in each label column
      whose bounds differ: the property the feature bounds do not give. */
  lemma SeparateLabelsInUnitInterval(data: seq<Ride>, k: nat, j: nat)
    requires |data| > 0 && k < |PrepareSeparately(data).value.labels| && j < 2
    requires PrepareSeparately(data).value.labelBounds.min[j] < PrepareSeparately(data).value.labelBounds.max[j]
    ensures var x := PrepareSeparately(data).value.labels[k][j];
      x.Some? && 0.0 <= x.value <= 1.0
  {
    var cl := RemoveOutliers(Features(data), Labels(data)).value.labels;
    CleanedShape(data);
    assert IsMatrix(cl);
    NormalizedFeaturesInUnitInterval(cl, k, j);
  }
}
