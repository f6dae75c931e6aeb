/** One parsed ride record and the feature and label rows that `trainModel`
    in src/utils/trainingUtils.ts builds from it. Rows arrive already
    numeric; `cabType` and `duration` are the optional columns. */
module Dataset {
  import opened Wrappers
  import Outliers

  datatype Ride = Ride(
    latitude: real,
    longitude: real,
    temperature: real,
    humidity: real,
    windSpeed: real,
    precipProbability: real,
    price: real,
    distance: real,
    duration: Option<real>,
    cabType: Option<string>)

  /** The six-value feature row: position, then weather. */
  function FeatureRow(r: Ride): seq<real>
  {
    [r.latitude, r.longitude, r.temperature, r.humidity, r.windSpeed, r.precipProbability]
  }

  /** The two-value label row `[price, distance]`. */
  function LabelRow(r: Ride): seq<real>
  {
    [r.price, r.distance]
  }

  /** `data.map(row => FeatureRow(row))`: one row of width six per ride, in
      the order of the rides. */
  function Features(data: seq<Ride>): (f: seq<seq<real>>)
    ensures |f| == |data| && Outliers.IsMatrix(f)
    ensures forall i :: 0 <= i < |data| ==> |f[i]| == 6 && f[i] == FeatureRow(data[i])
  {
    seq(|data|, i requires 0 <= i < |data| => FeatureRow(data[i]))
  }

  /** `data.map(row => LabelRow(row))`: one row of width two per ride,
      index-aligned with `Features(data)`. */
  function Labels(data: seq<Ride>): (l: seq<seq<real>>)
    ensures |l| == |data|
    ensures forall i :: 0 <= i < |data| ==> |l[i]| == 2 && l[i] == LabelRow(data[i])
  {
    seq(|data|, i requires 0 <= i < |data| => LabelRow(data[i]))
  }
}
