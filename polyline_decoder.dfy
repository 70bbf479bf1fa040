/**
 * Route decoding and sampling (src/geo/polyline-decoder.ts).
 *
 * The encoded-polyline codec is foreign: `decode` is a parameter that turns the summary
 * polyline into its points. A point is a (latitude, longitude) pair.
 */
module Polyline {
  import opened Util
  import opened Activities

  type Point = (real, real)

  datatype Bounds = Bounds(north: real, south: real, east: real, west: real)

  datatype DecodedRoute = DecodedRoute(activityId: int, coordinates: seq<Point>, bounds: Bounds, pointCount: nat)

  /**
   * The bounds loop: starting from north -90, south 90, east -180 and west 180, every
   * point widens the box. The box holds every point, and each side is its starting value
   * or the coordinate of some point.
   */
  method BoundsOf(coords: seq<Point>) returns (b: Bounds)
    ensures forall j :: 0 <= j < |coords| ==>
      b.south <= coords[j].0 <= b.north && b.west <= coords[j].1 <= b.east
    ensures b.north == -90.0 || exists j :: 0 <= j < |coords| && coords[j].0 == b.north
    ensures b.south == 90.0 || exists j :: 0 <= j < |coords| && coords[j].0 == b.south
    ensures b.east == -180.0 || exists j :: 0 <= j < |coords| && coords[j].1 == b.east
    ensures b.west == 180.0 || exists j :: 0 <= j < |coords| && coords[j].1 == b.west
    ensures b.north >= -90.0 && b.south <= 90.0 && b.east >= -180.0 && b.west <= 180.0
  {
    var north, south, east, west := -90.0, 90.0, -180.0, 180.0;
    for i := 0 to |coords|
      invariant forall j :: 0 <= j < i ==> south <= coords[j].0 <= north && west <= coords[j].1 <= east
      invariant north == -90.0 || exists j :: 0 <= j < i && coords[j].0 == north
      invariant south == 90.0 || exists j :: 0 <= j < i && coords[j].0 == south
      invariant east == -180.0 || exists j :: 0 <= j < i && coords[j].1 == east
      invariant west == 180.0 || exists j :: 0 <= j < i && coords[j].1 == west
      invariant north >= -90.0 && south <= 90.0 && east >= -180.0 && west <= 180.0
    {
      var (lat, lng) := coords[i];
      if lat > north { north := lat; }
      if lat < south { south := lat; }
      if lng > east { east := lng; }
      if lng < west { west := lng; }
    }
    b := Bounds(north, south, east, west);
  }

  /** A summary polyline that is present and not empty. */
  predicate HasPolyline(a: Activity) {
    a.summaryPolyline.Some? && a.summaryPolyline.value != ""
  }

  /**
   * decodeActivityPolyline: nothing without a polyline or when it decodes to no point;
   * otherwise the points, their count, the activity's id and their bounds: the box around
   * every point whose sides are the extreme coordinates (or the starting values, which
   * no point passes).
   */
  method DecodeActivityPolyline(a: Activity, decode: string -> seq<Point>) returns (r: Option<DecodedRoute>)
    ensures r.None? <==> !HasPolyline(a) || decode(a.summaryPolyline.value) == []
    ensures r.Some? ==>
      && r.value.activityId == a.id
      && r.value.coordinates == decode(a.summaryPolyline.value)
      && r.value.pointCount == |r.value.coordinates|
    ensures r.Some? ==> var b := r.value.bounds;
      forall p :: p in r.value.coordinates ==> b.south <= p.0 <= b.north && b.west <= p.1 <= b.east
    ensures r.Some? ==> var b, cs := r.value.bounds, r.value.coordinates;
      && (b.north == -90.0 || exists j :: 0 <= j < |cs| && cs[j].0 == b.north)
      && (b.south == 90.0 || exists j :: 0 <= j < |cs| && cs[j].0 == b.south)
      && (b.east == -180.0 || exists j :: 0 <= j < |cs| && cs[j].1 == b.east)
      && (b.west == 180.0 || exists j :: 0 <= j < |cs| && cs[j].1 == b.west)
  {
    if a.summaryPolyline.None? || a.summaryPolyline.value == "" {
      return None;
    }
    var coordinates := decode(a.summaryPolyline.value);
    if |coordinates| == 0 {
      return None;
    }
    var bounds := BoundsOf(coordinates);
    r := Some(DecodedRoute(a.id, coordinates, bounds, |coordinates|));
  }

  // ---------------------------------------------------------------- sampling

  /** The points the loop `i = from; i < n - 1; i += step` pushes. */
  function Walk(coords: seq<Point>, from: nat, step: nat): seq<Point>
    requires step > 0
    decreases |coords| - from
  {
    if from < |coords| - 1 then [coords[from]] + Walk(coords, from + step, step) else []
  }

  /**
   * sampleRoutePoints with a given step: nothing of nothing, all of at most five points,
   * otherwise the first point, the walk, and the last point unless the last one kept
   * equals it.
   */
  function Sample(coords: seq<Point>, step: nat): seq<Point>
    requires step > 0
  {
    if |coords| == 0 then []
    else if |coords| <= 5 then coords
    else
      var kept := [coords[0]] + Walk(coords, step, step);
      if kept[|kept| - 1] == coords[|coords| - 1] then kept else kept + [coords[|coords| - 1]]
  }

  /** The indices the walk visits. */
  function Stride(from: nat, step: nat, n: nat): (r: seq<nat>)
    requires step > 0
    ensures forall k :: 0 <= k < |r| ==> from <= r[k] < n - 1
    ensures r != [] <==> from < n - 1
    ensures r != [] ==> r[0] == from && r[|r| - 1] + step >= n - 1
    decreases n - from
  {
    if from < n - 1 then [from] + Stride(from + step, step, n) else []
  }

  /** The indices of a walk increase strictly. */
  lemma {:induction false} StrideIncreasing(from: nat, step: nat, n: nat)
    requires step > 0
    ensures forall j, k :: 0 <= j < k < |Stride(from, step, n)| ==> Stride(from, step, n)[j] < Stride(from, step, n)[k]
    decreases n - from
  {
    if from < n - 1 {
      StrideIncreasing(from + step, step, n);
      var r := Stride(from, step, n);
      assert forall k :: 0 < k < |r| ==> r[k] == Stride(from + step, step, n)[k - 1];
    }
  }

  /** The points at the given indices, in order. */
  function Pick(coords: seq<Point>, idx: seq<nat>): (r: seq<Point>)
    requires forall k :: 0 <= k < |idx| ==> idx[k] < |coords|
    ensures |r| == |idx|
  {
    if idx == [] then [] else [coords[idx[0]]] + Pick(coords, idx[1..])
  }

  /** The k-th point picked is the point at the k-th index. */
  lemma {:induction false} PickAt(coords: seq<Point>, idx: seq<nat>, k: nat)
    requires forall j :: 0 <= j < |idx| ==> idx[j] < |coords|
    requires k < |idx|
    ensures Pick(coords, idx)[k] == coords[idx[k]]
    decreases k
  {
    if k > 0 {
      PickAt(coords, idx[1..], k - 1);
    }
  }

  lemma {:induction false} PickSnoc(coords: seq<Point>, idx: seq<nat>, j: nat)
    requires forall k :: 0 <= k < |idx| ==> idx[k] < |coords|
    requires j < |coords|
    ensures Pick(coords, idx + [j]) == Pick(coords, idx) + [coords[j]]
  {
    if idx != [] {
      assert (idx + [j])[1..] == idx[1..] + [j];
      PickSnoc(coords, idx[1..], j);
    }
  }

  /** A walk picks the points at its indices. */
  lemma {:induction false} WalkPicksStride(coords: seq<Point>, from: nat, step: nat)
    requires step > 0
    ensures Walk(coords, from, step) == Pick(coords, Stride(from, step, |coords|))
    decreases |coords| - from
  {
    var idx := Stride(from, step, |coords|);
    if from < |coords| - 1 {
      var rest := Stride(from + step, step, |coords|);
      WalkPicksStride(coords, from + step, step);
      assert idx == [from] + rest;
      assert idx[1..] == rest;
      assert Pick(coords, idx) == [coords[from]] + Pick(coords, rest);
    }
  }

  /** The first index, then every step-th one below the last. */
  function Kept(step: nat, n: nat): (kept: seq<nat>)
    requires step > 0 && n > 1
    ensures |kept| >= 1 && kept[0] == 0
    ensures forall k :: 0 <= k < |kept| ==> kept[k] < n - 1
  {
    [0] + Stride(step, step, n)
  }

  /** The kept indices increase strictly. */
  lemma KeptIncreasing(step: nat, n: nat)
    requires step > 0 && n > 1
    ensures var kept := Kept(step, n); forall j, k :: 0 <= j < k < |kept| ==> kept[j] < kept[k]
  {
    var kept, rest := Kept(step, n), Stride(step, step, n);
    StrideIncreasing(step, step, n);
    forall j, k | 0 <= j < k < |kept| ensures kept[j] < kept[k] {
      assert kept[k] == rest[k - 1];
      if j > 0 {
        assert kept[j] == rest[j - 1];
      }
    }
  }

  /**
   * The indices a sampling of more than five points keeps: the kept ones, then the last
   * index unless the point last kept already equals the last point.
   */
  function SampleIndices(coords: seq<Point>, step: nat): (idx: seq<nat>)
    requires step > 0 && |coords| > 5
    ensures |idx| >= 1 && idx[0] == 0
    ensures forall k :: 0 <= k < |idx| ==> idx[k] < |coords|
    ensures forall j, k :: 0 <= j < k < |idx| ==> idx[j] < idx[k]
    ensures coords[idx[|idx| - 1]] == coords[|coords| - 1]
  {
    var kept := Kept(step, |coords|);
    KeptIncreasing(step, |coords|);
    if coords[kept[|kept| - 1]] == coords[|coords| - 1] then kept else kept + [|coords| - 1]
  }

  /**
   * A sampling keeps nothing of nothing and all of at most five points; of more points it
   * keeps the points at strictly increasing indices that start at the first point and end
   * at a point equal to the last.
   */
  lemma SampleSpec(coords: seq<Point>, step: nat)
    requires step > 0
    ensures var r := Sample(coords, step);
      && (|coords| == 0 ==> r == [])
      && (|coords| <= 5 ==> r == coords)
      && (|coords| > 5 ==>
        var idx := SampleIndices(coords, step);
        && r == Pick(coords, idx)
        && r[0] == coords[0]
        && r[|r| - 1] == coords[|coords| - 1]
        && (forall j, k :: 0 <= j < k < |idx| ==> idx[j] < idx[k]))
  {
    if |coords| > 5 {
      var n := |coords|;
      var kept := Kept(step, n);
      WalkPicksStride(coords, step, step);
      PickCons(coords, 0, Stride(step, step, n));
      PickAt(coords, kept, |kept| - 1);
      if coords[kept[|kept| - 1]] != coords[n - 1] {
        PickSnoc(coords, kept, n - 1);
      }
      var idx := SampleIndices(coords, step);
      PickAt(coords, idx, 0);
      PickAt(coords, idx, |idx| - 1);
    }
  }

  lemma PickCons(coords: seq<Point>, i: nat, rest: seq<nat>)
    requires i < |coords| && forall k :: 0 <= k < |rest| ==> rest[k] < |coords|
    ensures Pick(coords, [i] + rest) == [coords[i]] + Pick(coords, rest)
  {
    assert ([i] + rest)[1..] == rest;
  }

  /** The sampling step of the source, `Math.floor(n / 10)`, zero below ten points. */
  function StepAsWritten(n: nat): nat {
    n / 10
  }

  /** The step at least one, which is what the loop needs to move forward. */
  function Step(n: nat): (step: nat)
    ensures step > 0
    ensures n >= 10 ==> step == StepAsWritten(n)
  {
    if n / 10 < 1 then 1 else n / 10
  }

  /**
   * The source's loop for six to nine points: the step is 0, the index starts at 0 below
   * n - 1, and any number of steps leaves it there, so the loop never ends.
   */
  lemma AsWrittenNeverAdvances(n: nat, steps: nat)
    requires 6 <= n <= 9
    ensures StepAsWritten(n) == 0
    ensures StepAsWritten(n) + steps * StepAsWritten(n) == 0 < n - 1
  {
  }

  /** sampleRoutePoints as written, for the lengths where its loop ends. */
  method SampleRoutePointsAsWritten(coords: seq<Point>) returns (sampled: seq<Point>)
    requires |coords| <= 5 || |coords| >= 10
    ensures sampled == Sample(coords, Step(|coords|))
  {
    var n := |coords|;
    if n == 0 {
      return [];
    }
    if n <= 5 {
      return coords;
    }
    sampled := SampleLoop(coords, StepAsWritten(n));
  }

  /** sampleRoutePoints with the step kept at one or more, so that every length ends. */
  method SampleRoutePoints(coords: seq<Point>) returns (sampled: seq<Point>)
    ensures sampled == Sample(coords, Step(|coords|))
  {
    var n := |coords|;
    if n == 0 {
      return [];
    }
    if n <= 5 {
      return coords;
    }
    sampled := SampleLoop(coords, Step(n));
  }

  /** The first point, every step-th point below the last, then the last unless equal to the last kept. */
  method SampleLoop(coords: seq<Point>, step: nat) returns (sampled: seq<Point>)
    requires |coords| > 5 && step > 0
    ensures sampled == Sample(coords, step)
  {
    var n := |coords|;
    sampled := [coords[0]];
    var i := step;
    while i < n - 1
      invariant sampled + Walk(coords, i, step) == [coords[0]] + Walk(coords, step, step)
      decreases n - i
    {
      sampled := sampled + [coords[i]];
      i := i + step;
    }
    var lastPoint := coords[n - 1];
    var lastSampled := sampled[|sampled| - 1];
    if lastPoint.0 != lastSampled.0 || lastPoint.1 != lastSampled.1 {
      sampled := sampled + [lastPoint];
    }
  }
}
