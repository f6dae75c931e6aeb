/** `segmentRidesByCabType` of src/utils/trainingUtils.ts: running totals per
    cab type, accumulated in a dictionary one ride at a time, then a second
    pass that writes each segment's averages. */
module Segments {
  import opened Wrappers
  import opened Dataset

  datatype Segment = Segment(
    totalRides: nat,
    totalDistance: real,
    totalPrice: real,
    totalDuration: real,
    /** `None` where the source computes a non-zero price over zero distance (an infinity). */
    averagePricePerKm: Option<real>,
    averageDuration: real)

  /** The object a new key starts with. */
  const NewSegment := Segment(0, 0.0, 0.0, 0.0, Some(0.0), 0.0)

  /** `String(ride.cabType || 'Unknown')`: a missing or empty cab type
      is counted as "Unknown". */
  function CabType(r: Ride): (key: string)
    ensures key != ""
    ensures key == "Unknown" <==>
      r.cabType == None || r.cabType == Some("") || r.cabType == Some("Unknown")
    ensures r.cabType.Some? && r.cabType.value != "" ==> key == r.cabType.value
  {
    match r.cabType
    case None => "Unknown"
    case Some(s) => if s == "" then "Unknown" else s
  }

  /** `Number(ride.duration || 0)`: a missing duration contributes 0. */
  function DurationOf(r: Ride): real
  {
    match r.duration
    case None => 0.0
    case Some(d) => d
  }

  /** The four `+=` updates of one ride. */
  function AddRide(s: Segment, r: Ride): Segment
  {
    s.(totalRides := s.totalRides + 1,
       totalDistance := s.totalDistance + r.distance,
       totalPrice := s.totalPrice + r.price,
       totalDuration := s.totalDuration + DurationOf(r))
  }

  /** The totals of the rides of `data` whose cab type is `key`: an
      independent, per-key statement of what the dictionary should hold. */
  function Totals(data: seq<Ride>, key: string): Segment
  {
    if |data| == 0 then NewSegment
    else
      var prev := Totals(data[..|data| - 1], key);
      if CabType(data[|data| - 1]) == key then AddRide(prev, data[|data| - 1]) else prev
  }

  /** The cab types that occur in `data`. */
  function CabTypes(data: seq<Ride>): set<string>
  {
    set i | 0 <= i < |data| :: CabType(data[i])
  }

  /** `totalPrice / totalDistance || 0`: 0 when both totals are 0 (NaN is
      falsy), `None` when only the distance is 0 (an infinity, which is kept). */
  function PricePerKm(price: real, distance: real): (p: Option<real>)
    ensures p.None? <==> distance == 0.0 && price != 0.0
    ensures p.Some? && distance != 0.0 ==> p.value * distance == price
    ensures distance == 0.0 && price == 0.0 ==> p == Some(0.0)
  {
    if distance != 0.0 then Some(price / distance)
    else if price == 0.0 then Some(0.0)
    else None
  }

  /** The second pass over one segment: the totals are kept, the average
      duration times the ride count is the total duration, and with no rides
      `NaN || 0` gives 0. */
  function WithAverages(s: Segment): (t: Segment)
    ensures && t.totalRides == s.totalRides && t.totalDistance == s.totalDistance
            && t.totalPrice == s.totalPrice && t.totalDuration == s.totalDuration
    ensures t.averagePricePerKm == PricePerKm(s.totalPrice, s.totalDistance)
    ensures s.totalRides > 0 ==> t.averageDuration * (s.totalRides as real) == s.totalDuration
    ensures s.totalRides == 0 ==> t.averageDuration == 0.0
  {
    s.(averagePricePerKm := PricePerKm(s.totalPrice, s.totalDistance),
       averageDuration := if s.totalRides == 0 then 0.0 else s.totalDuration / (s.totalRides as real))
  }

  /** The dictionary is built by one pass over the rides, creating a segment
      on the first ride of its cab type, then each segment gets its averages.
      The result holds exactly the cab types that occur, each with the totals
      of its own rides and the averages of those totals. */
  method SegmentRidesByCabType(data: seq<Ride>) returns (segments: map<string, Segment>)
    ensures segments.Keys == CabTypes(data)
    ensures forall k :: k in segments ==> segments[k] == WithAverages(Totals(data, k))
    ensures SegmentRides(segments, CabTypeOrder(data)) == |data|
  {
    var acc: map<string, Segment> := map[];
    var i := 0;
    while i < |data|
      invariant 0 <= i <= |data|
      invariant acc.Keys == CabTypes(data[..i])
      invariant forall k :: k in acc ==> acc[k] == Totals(data[..i], k)
    {
      var ride := data[i];
      var cabType := CabType(ride);
      assert data[..i + 1][..i] == data[..i];
      if cabType !in acc {
        AbsentKeyHasNoTotals(data[..i], cabType);
        acc := acc[cabType := NewSegment];
      }
      acc := acc[cabType := AddRide(acc[cabType], ride)];
      assert CabTypes(data[..i + 1]) == CabTypes(data[..i]) + {cabType};
      i := i + 1;
    }
    assert data[..i] == data;

    segments := acc;
    var todo := segments.Keys;
    while todo != {}
      invariant todo <= segments.Keys && segments.Keys == CabTypes(data)
      invariant forall k :: k in segments ==>
        segments[k] == if k in todo then Totals(data, k) else WithAverages(Totals(data, k))
      decreases todo
    {
      var cabType :| cabType in todo;
      segments := segments[cabType := WithAverages(segments[cabType])];
      todo := todo - {cabType};
    }
    SegmentRidesMatchTotals(segments, data, CabTypeOrder(data));
    RidesConserved(data);
  }

  // ---------------------------------------------------------------------------
  // Properties of the totals
  // ---------------------------------------------------------------------------

  lemma {:induction false} AbsentKeyHasNoTotals(data: seq<Ride>, key: string)
    requires key !in CabTypes(data)
    ensures Totals(data, key) == NewSegment
  {
    if |data| > 0 {
      var prefix := data[..|data| - 1];
      assert CabTypes(prefix) <= CabTypes(data);
      AbsentKeyHasNoTotals(prefix, key);
    }
  }

  /** A key has a segment exactly when at least one ride carries it. */
  lemma {:induction false} SegmentIffRide(data: seq<Ride>, key: string)
    ensures key in CabTypes(data) <==> Totals(data, key).totalRides >= 1
  {
    if |data| > 0 {
      var prefix := data[..|data| - 1];
      SegmentIffRide(prefix, key);
      assert CabTypes(data) == CabTypes(prefix) + {CabType(data[|data| - 1])};
    }
  }

  /** Every segment the method returns has at least one ride, so its
      average duration is the true quotient and never the `|| 0` fallback. */
  lemma SegmentsHaveRides(data: seq<Ride>, key: string)
    requires key in CabTypes(data)
    ensures var s := WithAverages(Totals(data, key));
      && s.totalRides >= 1
      && s.averageDuration == s.totalDuration / (s.totalRides as real)
  {
    SegmentIffRide(data, key);
  }

  /** One more ride changes only its own cab type's totals. */
  lemma OneRideOneSegment(data: seq<Ride>, r: Ride, key: string)
    ensures Totals(data + [r], key) ==
      if key == CabType(r) then AddRide(Totals(data, key), r) else Totals(data, key)
  {
    assert (data + [r])[..|data|] == data;
  }

  /** A ride with no cab type, or an empty one, is counted under "Unknown". */
  lemma MissingCabTypeIsUnknown(data: seq<Ride>, i: nat)
    requires i < |data| && (data[i].cabType == None || data[i].cabType == Some(""))
    ensures "Unknown" in CabTypes(data)
    ensures Totals(data, "Unknown").totalRides >= 1
  {
    assert CabType(data[i]) == "Unknown";
    SegmentIffRide(data, "Unknown");
  }

  // ---------------------------------------------------------------------------
  // Ride counts are conserved
  // ---------------------------------------------------------------------------

  /** Each cab type of `data` listed once, in order of first appearance: an
      order to sum the segments in, not the order `Object.keys` returns. */
  function CabTypeOrder(data: seq<Ride>): (ks: seq<string>)
    ensures forall a, b :: 0 <= a < b < |ks| ==> ks[a] != ks[b]
    ensures forall k :: k in ks <==> k in CabTypes(data)
  {
    if |data| == 0 then []
    else
      var prefix := data[..|data| - 1];
      var prev := CabTypeOrder(prefix);
      var key := CabType(data[|data| - 1]);
      assert CabTypes(data) == CabTypes(prefix) + {key};
      if key in prev then prev else prev + [key]
  }

  /** The sum of `totalRides` over the keys `ks`. */
  function RidesOver(ks: seq<string>, data: seq<Ride>): nat
  {
    if |ks| == 0 then 0
    else RidesOver(ks[..|ks| - 1], data) + Totals(data, ks[|ks| - 1]).totalRides
  }

  lemma {:induction false} RidesOverOneMore(ks: seq<string>, data: seq<Ride>, r: Ride)
    requires forall a, b :: 0 <= a < b < |ks| ==> ks[a] != ks[b]
    ensures RidesOver(ks, data + [r]) == RidesOver(ks, data) + if CabType(r) in ks then 1 else 0
  {
    if |ks| > 0 {
      var last := ks[|ks| - 1];
      RidesOverOneMore(ks[..|ks| - 1], data, r);
      OneRideOneSegment(data, r, last);
      assert CabType(r) in ks <==> CabType(r) in ks[..|ks| - 1] || CabType(r) == last;
      assert last !in ks[..|ks| - 1];
    }
  }

  /** The sum of `totalRides` over the keys `ks` of a segment dictionary. */
  function SegmentRides(segments: map<string, Segment>, ks: seq<string>): nat
    requires forall k :: k in ks ==> k in segments
  {
    if |ks| == 0 then 0
    else SegmentRides(segments, ks[..|ks| - 1]) + segments[ks[|ks| - 1]].totalRides
  }

  /** A dictionary whose ride counts are those of `Totals` sums them alike. */
  lemma {:induction false} SegmentRidesMatchTotals(segments: map<string, Segment>, data: seq<Ride>, ks: seq<string>)
    requires forall k :: k in ks ==> k in segments && segments[k].totalRides == Totals(data, k).totalRides
    ensures SegmentRides(segments, ks) == RidesOver(ks, data)
  {
    if |ks| > 0 {
      var prefix := ks[..|ks| - 1];
      assert forall k :: k in prefix ==> k in ks;
      SegmentRidesMatchTotals(segments, data, prefix);
    }
  }

  /** The segments' ride counts add up to the number of rides. */
  lemma {:induction false} RidesConserved(data: seq<Ride>)
    ensures RidesOver(CabTypeOrder(data), data) == |data|
  {
    if |data| > 0 {
      var prefix := data[..|data| - 1];
      var r := data[|data| - 1];
      var key := CabType(r);
      var prev := CabTypeOrder(prefix);
      assert data == prefix + [r];
      RidesConserved(prefix);
      RidesOverOneMore(prev, prefix, r);
      if key !in prev {
        AbsentKeyHasNoTotals(prefix, key);
        OneRideOneSegment(prefix, r, key);
        assert (prev + [key])[..|prev|] == prev;
      }
    }
  }

  /** Two UberX rides of 5 km at 20 and 30 make one segment of two rides,
      10 km, and 5 per km. */
  lemma UberXExample(r1: Ride, r2: Ride)
    requires r1.cabType == Some("UberX") && r1.price == 20.0 && r1.distance == 5.0
    requires r2.cabType == Some("UberX") && r2.price == 30.0 && r2.distance == 5.0
    ensures var s := WithAverages(Totals([r1, r2], "UberX"));
      && s.totalRides == 2 && s.totalDistance == 10.0 && s.averagePricePerKm == Some(5.0)
  {
    var d0: seq<Ride> := [];
    var d1 := d0 + [r1];
    var d2 := d1 + [r2];
    assert CabType(r1) == "UberX" && CabType(r2) == "UberX";
    OneRideOneSegment(d0, r1, "UberX");
    OneRideOneSegment(d1, r2, "UberX");
    var s := Totals(d2, "UberX");
    assert s.totalRides == 2 && s.totalDistance == 10.0 && s.totalPrice == 50.0;
    assert PricePerKm(50.0, 10.0) == Some(5.0);
    assert d2 == [r1, r2];
  }
}
