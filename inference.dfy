/** The pure pieces of src/utils/mlUtils.ts: which loader `loadModel` picks
    from the file name, the six-value input encoding of `preprocessInput`,
    and the bearing wrap of `calculateBearing`. The great-circle distance and
    the raw `atan2` bearing are inputs here. */
module Inference {

  datatype ModelFormat = Onnx | LayersModel

  /** `name.split('.').pop()`: the text after the last '.', or the whole
      name when it has none. */
  function LastSegment(name: string): (ext: string)
    ensures |ext| <= |name| && ext == name[|name| - |ext|..]
    ensures '.' !in ext
    ensures |ext| == |name| || name[|name| - |ext| - 1] == '.'
  {
    if |name| == 0 then ""
    else if name[|name| - 1] == '.' then ""
    else LastSegment(name[..|name| - 1]) + [name[|name| - 1]]
  }

  /** `toLowerCase` on ASCII letters. */
  function LowerChar(c: char): char
  {
    if 'A' <= c <= 'Z' then (c as int + 32) as char else c
  }

  function ToLower(s: string): (r: string)
    ensures |r| == |s| && forall i :: 0 <= i < |s| ==> r[i] == LowerChar(s[i])
  {
    seq(|s|, i requires 0 <= i < |s| => LowerChar(s[i]))
  }

  /** `fileExtension` of `loadModel`: the dot-free suffix that is the whole
      name or follows its last '.', lowercased. */
  function Extension(name: string): (ext: string)
    ensures |ext| <= |name| && ext == ToLower(name[|name| - |ext|..])
    ensures '.' !in ext
    ensures |ext| == |name| || name[|name| - |ext| - 1] == '.'
  {
    ToLower(LastSegment(name))
  }

  /** `fileExtension === 'onnx'` picks the ONNX runtime; every other name
      goes to the TensorFlow.js loader. The runtime is chosen exactly when
      the name's last four characters spell "onnx" in any case and are the
      whole name or follow a '.'. */
  function ChooseLoader(name: string): (f: ModelFormat)
    ensures f == Onnx <==>
      && |name| >= 4
      && ToLower(name[|name| - 4..]) == "onnx"
      && (|name| == 4 || name[|name| - 5] == '.')
  {
    OnnxIff(name);
    if Extension(name) == "onnx" then Onnx else LayersModel
  }

  /** A dot-free suffix that is the whole name or follows a '.' is unique:
      it is the last segment. */
  lemma LastSegmentUnique(name: string, n: nat)
    requires n <= |name| && '.' !in name[|name| - n..]
    requires n == |name| || name[|name| - n - 1] == '.'
    ensures LastSegment(name) == name[|name| - n..]
  {
  }

  /** A name without '.' is its own extension, lowercased. */
  lemma NoDotWholeName(name: string)
    requires '.' !in name
    ensures Extension(name) == ToLower(name)
  {
    assert name[|name| - |name|..] == name;
    LastSegmentUnique(name, |name|);
  }

  /** A name ending in '.' has the empty extension. */
  lemma TrailingDotEmpty(name: string)
    requires |name| > 0 && name[|name| - 1] == '.'
    ensures Extension(name) == ""
  {
  }

  /** The extension is "onnx" exactly when the name's last four characters
      spell "onnx" in any case and are the whole name or follow a '.'. */
  lemma OnnxIff(name: string)
    ensures Extension(name) == "onnx" <==>
      && |name| >= 4
      && ToLower(name[|name| - 4..]) == "onnx"
      && (|name| == 4 || name[|name| - 5] == '.')
  {
    var n := |name|;
    if |name| >= 4 && ToLower(name[n - 4..]) == "onnx" && (n == 4 || name[n - 5] == '.') {
      var tail := name[n - 4..];
      forall i | 0 <= i < 4
        ensures tail[i] != '.'
      {
        assert LowerChar(tail[i]) == "onnx"[i];
      }
      LastSegmentUnique(name, 4);
    }
  }

  /** Upper-case and lower-case ONNX names pick the ONNX runtime. */
  lemma OnnxExamples()
    ensures ChooseLoader("M.ONNX") == Onnx
    ensures ChooseLoader("model.onnx") == Onnx
  {
    LastSegmentUnique("M.ONNX", 4);
    assert "M.ONNX"[2..] == "ONNX";
    assert ToLower("ONNX") == "onnx";
    LastSegmentUnique("model.onnx", 4);
    assert "model.onnx"[6..] == "onnx";
    assert ToLower("onnx") == "onnx";
  }

  /** A pickle file and a name with a second extension after ".onnx" go to
      the other loader. */
  lemma LayersModelExamples()
    ensures ChooseLoader("x.pkl") == LayersModel
    ensures ChooseLoader("model.onnx.json") == LayersModel
  {
    LastSegmentUnique("x.pkl", 3);
    LastSegmentUnique("model.onnx.json", 4);
    assert "model.onnx.json"[11..] == "json";
    assert ToLower("json")[0] == 'j';
  }

  // ---------------------------------------------------------------------------
  // Bearing wrap
  // ---------------------------------------------------------------------------

  /** Truncation toward zero, as JavaScript's `%` uses. */
  function Trunc(q: real): int
  {
    if q >= 0.0 then q.Floor else -((-q).Floor)
  }

  /** JavaScript `x % y` on numbers: the remainder of the quotient truncated
      toward zero, which takes the sign of `x`. */
  function JsRemainder(x: real, y: real): (r: real)
    requires y > 0.0
    ensures x >= 0.0 ==> 0.0 <= r < y
    ensures x <= 0.0 ==> -y < r <= 0.0
    ensures x - r == (Trunc(x / y) as real) * y
  {
    RemainderBounds(x, y);
    x - (Trunc(x / y) as real) * y
  }

  lemma RemainderBounds(x: real, y: real)
    requires y > 0.0
    ensures var r := x - (Trunc(x / y) as real) * y;
      && (x >= 0.0 ==> 0.0 <= r < y)
      && (x <= 0.0 ==> -y < r <= 0.0)
  {
    var q := x / y;
    var t := Trunc(q) as real;
    assert q * y == x;
    TruncBounds(q);
    if x >= 0.0 {
      assert q >= 0.0 by { SignOfQuotient(x, y); }
      ScaledFraction(x, y, q, t);
    }
    if x <= 0.0 {
      assert q <= 0.0 by { SignOfQuotient(-x, y); assert -x / y == -q; }
      ScaledFraction(-x, y, -q, -t);
      assert x - t * y == -(-x - (-t) * y);
    }
  }

  /** If `x == q * y` and `t` is at most `q` and within one of it, then `x`
      less `t` times `y` lies in [0, y). */
  lemma ScaledFraction(x: real, y: real, q: real, t: real)
    requires y > 0.0 && q * y == x && 0.0 <= q - t < 1.0
    ensures 0.0 <= x - t * y < y
  {
    var a := q - t;
    assert a * y == q * y - t * y;
    assert x - t * y == a * y;
    FractionOfDivisor(a, y);
  }

  lemma TruncBounds(q: real)
    ensures q >= 0.0 ==> 0.0 <= q - (Trunc(q) as real) < 1.0
    ensures q <= 0.0 ==> 0.0 <= (Trunc(q) as real) - q < 1.0
  {
  }

  lemma SignOfQuotient(x: real, y: real)
    requires x >= 0.0 && y > 0.0
    ensures x / y >= 0.0
  {
  }

  lemma FractionOfDivisor(a: real, y: real)
    requires 0.0 <= a < 1.0 && y > 0.0
    ensures 0.0 <= a * y < y
  {
    assert (1.0 - a) * y > 0.0;
  }

  /** `(bearing + 360) % 360`: from any bearing above -360, a value in
      [0, 360) that differs from the bearing by whole turns. */
  function WrapBearing(bearing: real): (w: real)
    ensures bearing >= -360.0 ==> 0.0 <= w < 360.0
    ensures bearing - w == ((Trunc((bearing + 360.0) / 360.0) - 1) as real) * 360.0
  {
    JsRemainder(bearing + 360.0, 360.0)
  }

  /** For a raw bearing in [-180, 180], the range of `atan2` in degrees, the
      wrapped bearing lies in [0, 360) and is the same direction: the bearing
      itself when non-negative, the bearing plus 360 when negative. */
  lemma WrapBearingRange(bearing: real)
    requires -180.0 <= bearing <= 180.0
    ensures 0.0 <= WrapBearing(bearing) < 360.0
    ensures WrapBearing(bearing) == if bearing < 0.0 then bearing + 360.0 else bearing
  {
    var x := bearing + 360.0;
    var q := x / 360.0;
    assert q * 360.0 == x;
    if bearing < 0.0 {
      assert 0.0 < q < 1.0;
      assert Trunc(q) == 0;
    } else {
      assert 1.0 <= q < 2.0;
      assert Trunc(q) == 1;
    }
  }

  // ---------------------------------------------------------------------------
  // Input encoding
  // ---------------------------------------------------------------------------

  /** `ModelPredictionInput`. */
  datatype PredictionInput = PredictionInput(startLat: real, startLng: real, endLat: real, endLng: real)

  /** `preprocessInput`, given the great-circle distance in km and the raw
      bearing in degrees that the trigonometry would compute. */
  function PreprocessInput(input: PredictionInput, distance: real, rawBearing: real): (v: seq<real>)
    ensures |v| == 6
  {
    [input.startLat / 90.0,
     input.startLng / 180.0,
     input.endLat / 90.0,
     input.endLng / 180.0,
     distance / 100.0,
     WrapBearing(rawBearing) / 360.0]
  }

  predicate ValidCoordinates(input: PredictionInput)
  {
    && -90.0 <= input.startLat <= 90.0 && -180.0 <= input.startLng <= 180.0
    && -90.0 <= input.endLat <= 90.0 && -180.0 <= input.endLng <= 180.0
  }

  /** For valid coordinates the four position features lie in [-1, 1], and
      for any `atan2` bearing the bearing feature lies in [0, 1). */
  lemma InputFeaturesInRange(input: PredictionInput, distance: real, rawBearing: real)
    requires ValidCoordinates(input)
    requires -180.0 <= rawBearing <= 180.0
    ensures var v := PreprocessInput(input, distance, rawBearing);
      && (forall i :: 0 <= i < 4 ==> -1.0 <= v[i] <= 1.0)
      && 0.0 <= v[5] < 1.0
      && (distance >= 0.0 ==> v[4] >= 0.0)
  {
    WrapBearingRange(rawBearing);
  }

  /** The encoding keeps every input: each of the six values can be scaled
      back to the quantity it came from. */
  lemma PreprocessInputInvertible(input: PredictionInput, distance: real, rawBearing: real)
    ensures var v := PreprocessInput(input, distance, rawBearing);
      && v[0] * 90.0 == input.startLat && v[1] * 180.0 == input.startLng
      && v[2] * 90.0 == input.endLat && v[3] * 180.0 == input.endLng
      && v[4] * 100.0 == distance && v[5] * 360.0 == WrapBearing(rawBearing)
  {
  }
}
