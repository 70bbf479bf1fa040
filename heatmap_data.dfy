/**
 * The build-time heatmap extraction (scripts/compute-heatmap-data.mjs): decode every route's
 * polyline into points, counting the routes processed, the routes skipped and the points.
 *
 * Routes are the `Json` entries of the route list. The polyline codec is the parameter
 * `decode` (None when polyline.decode throws). A property read on a `null` route throws
 * outside the try block and ends the script: `None` here. Reading the route list, writing
 * the output file and the console summary are left out.
 */
module HeatmapData {
  import opened Util
  import opened JsonModel
  import opened Sorting
  import RouteData
  import Polyline

  /** One entry of all-points.json. */
  datatype HeatRoute = HeatRoute(id: Option<Json>, date: Option<Json>, points: seq<Polyline.Point>)

  /** What the loop has built: the entries and its three counters. */
  datatype Heatmap = Heatmap(heatmapRoutes: seq<HeatRoute>, totalPoints: nat, processedRoutes: nat, skippedRoutes: nat)

  /** What one route does: skipped for want of a polyline, skipped as undecodable, emitted, or thrown on. */
  datatype Step = NoPolyline | Undecodable | Emit(entry: HeatRoute) | Throw

  function PointCount(e: HeatRoute): int {
    |e.points|
  }

  /**
   * One pass of the loop: a `null` route throws; a route without a truthy polyline is
   * skipped; a polyline that fails to decode is skipped; any other route is emitted with
   * its id, date and decoded points.
   */
  function HeatStep(route: Json, decode: Json -> Option<seq<Polyline.Point>>): (s: Step)
    ensures s.Throw? <==> route == JNull
    ensures s.NoPolyline? <==> route != JNull && (Field(route, "polyline").None? || !RouteData.Truthy(Field(route, "polyline").value))
    ensures s.Emit? ==>
      && Field(route, "polyline").Some?
      && decode(Field(route, "polyline").value) == Some(s.entry.points)
      && s.entry.id == Field(route, "id") && s.entry.date == Field(route, "date")
  {
    if route == JNull then Throw
    else
      var polyline := Field(route, "polyline");
      if polyline.None? || !RouteData.Truthy(polyline.value) then NoPolyline
      else
        match decode(polyline.value)
        case None => Undecodable
        case Some(points) => Emit(HeatRoute(Field(route, "id"), Field(route, "date"), points))
  }

  function Tally(h: Heatmap, s: Step): Heatmap
    requires !s.Throw?
  {
    match s
    case Emit(entry) =>
      Heatmap(h.heatmapRoutes + [entry], h.totalPoints + |entry.points|, h.processedRoutes + 1, h.skippedRoutes)
    case NoPolyline => h.(skippedRoutes := h.skippedRoutes + 1)
    case Undecodable => h.(skippedRoutes := h.skippedRoutes + 1)
  }

  /** Two results one after the other. */
  function Join(x: Heatmap, y: Heatmap): Heatmap {
    Heatmap(x.heatmapRoutes + y.heatmapRoutes, x.totalPoints + y.totalPoints,
            x.processedRoutes + y.processedRoutes, x.skippedRoutes + y.skippedRoutes)
  }

  lemma JoinTally(x: Heatmap, y: Heatmap, s: Step)
    requires !s.Throw?
    ensures Tally(Join(x, y), s) == Join(x, Tally(y, s))
  {
    if s.Emit? {
      assert (x.heatmapRoutes + y.heatmapRoutes) + [s.entry] == x.heatmapRoutes + (y.heatmapRoutes + [s.entry]);
    }
  }

  /**
   * The loop's result over `routes`, or None when a route throws: every route is processed
   * or skipped, every processed route has an entry, and the points counted are the points
   * emitted.
   */
  function HeatmapOf(routes: seq<Json>, decode: Json -> Option<seq<Polyline.Point>>): (r: Option<Heatmap>)
    ensures r.Some? ==>
      && r.value.processedRoutes + r.value.skippedRoutes == |routes|
      && r.value.processedRoutes == |r.value.heatmapRoutes|
      && r.value.totalPoints == SumOf(r.value.heatmapRoutes, PointCount)
  {
    if routes == [] then Some(Heatmap([], 0, 0, 0))
    else
      var n := |routes| - 1;
      match HeatmapOf(routes[..n], decode)
      case None => None
      case Some(h) =>
        var s := HeatStep(routes[n], decode);
        if s.Throw? then None
        else
          assert s.Emit? ==> (h.heatmapRoutes + [s.entry])[..|h.heatmapRoutes|] == h.heatmapRoutes;
          Some(Tally(h, s))
  }

  /** decodeRoutesToHeatmapData: the loop over the routes, updating the counters in place. */
  method DecodeRoutesToHeatmapData(routes: seq<Json>, decode: Json -> Option<seq<Polyline.Point>>)
    returns (r: Option<Heatmap>)
    ensures r == HeatmapOf(routes, decode)
  {
    var heatmapRoutes: seq<HeatRoute> := [];
    var totalPoints: nat, processedRoutes: nat, skippedRoutes: nat := 0, 0, 0;
    for i := 0 to |routes|
      invariant HeatmapOf(routes[..i], decode) == Some(Heatmap(heatmapRoutes, totalPoints, processedRoutes, skippedRoutes))
    {
      if routes[i] == JNull {
        NullStops(routes, i, decode);
        return None;
      }
      HeatmapSnoc(routes, i, decode);
      ghost var before := Heatmap(heatmapRoutes, totalPoints, processedRoutes, skippedRoutes);
      ghost var step := HeatStep(routes[i], decode);
      var polyline := Field(routes[i], "polyline");
      if polyline.None? || !RouteData.Truthy(polyline.value) {
        assert step == NoPolyline;
        skippedRoutes := skippedRoutes + 1;
        assert Heatmap(heatmapRoutes, totalPoints, processedRoutes, skippedRoutes) == Tally(before, step);
        continue;
      }
      var points := decode(polyline.value);
      if points.Some? {
        var entry := HeatRoute(Field(routes[i], "id"), Field(routes[i], "date"), points.value);
        assert step == Emit(entry);
        heatmapRoutes := heatmapRoutes + [entry];
        totalPoints := totalPoints + |points.value|;
        processedRoutes := processedRoutes + 1;
      } else {
        assert step == Undecodable;
        skippedRoutes := skippedRoutes + 1;
      }
      assert Heatmap(heatmapRoutes, totalPoints, processedRoutes, skippedRoutes) == Tally(before, step);
    }
    assert routes[..|routes|] == routes;
    r := Some(Heatmap(heatmapRoutes, totalPoints, processedRoutes, skippedRoutes));
  }

  /** One more route that is not `null`: one more step of the loop. */
  lemma HeatmapSnoc(routes: seq<Json>, i: nat, decode: Json -> Option<seq<Polyline.Point>>)
    requires i < |routes| && routes[i] != JNull && HeatmapOf(routes[..i], decode).Some?
    ensures HeatmapOf(routes[..i + 1], decode) == Some(Tally(HeatmapOf(routes[..i], decode).value, HeatStep(routes[i], decode)))
  {
    assert routes[..i + 1][..i] == routes[..i];
    assert routes[..i + 1][i] == routes[i];
  }

  /** A `null` route at `i` ends the loop with a throw. */
  lemma {:induction false} NullStops(routes: seq<Json>, i: nat, decode: Json -> Option<seq<Polyline.Point>>)
    requires i < |routes| && routes[i] == JNull
    ensures HeatmapOf(routes, decode).None?
  {
    if i < |routes| - 1 {
      NullStops(routes[..|routes| - 1], i, decode);
    }
  }

  /** The loop fails exactly when some route is `null`. */
  lemma {:induction false} HeatmapFailsIffNull(routes: seq<Json>, decode: Json -> Option<seq<Polyline.Point>>)
    ensures HeatmapOf(routes, decode).None? <==> JNull in routes
  {
    if routes != [] {
      var n := |routes| - 1;
      HeatmapFailsIffNull(routes[..n], decode);
      assert routes == routes[..n] + [routes[n]];
    }
  }

  /**
   * Entries keep input order: the routes of a list split in two give the entries of the
   * first part followed by those of the second, and the counters add up.
   */
  lemma {:induction false} HeatmapAppend(a: seq<Json>, b: seq<Json>, decode: Json -> Option<seq<Polyline.Point>>)
    requires HeatmapOf(a + b, decode).Some?
    ensures HeatmapOf(a, decode).Some? && HeatmapOf(b, decode).Some?
    ensures HeatmapOf(a + b, decode).value == Join(HeatmapOf(a, decode).value, HeatmapOf(b, decode).value)
  {
    if b == [] {
      assert a + b == a;
      assert HeatmapOf(b, decode) == Some(Heatmap([], 0, 0, 0));
      assert HeatmapOf(a, decode).value.heatmapRoutes + [] == HeatmapOf(a, decode).value.heatmapRoutes;
    } else {
      var n := |b| - 1;
      var ab := a + b;
      assert ab[..|ab| - 1] == a + b[..n];
      assert ab[|ab| - 1] == b[n];
      var s := HeatStep(b[n], decode);
      assert HeatmapOf(a + b[..n], decode).Some? && !s.Throw?;
      HeatmapAppend(a, b[..n], decode);
      var ha, hb := HeatmapOf(a, decode).value, HeatmapOf(b[..n], decode).value;
      assert HeatmapOf(ab, decode) == Some(Tally(Join(ha, hb), s));
      assert HeatmapOf(b, decode) == Some(Tally(hb, s));
      JoinTally(ha, hb, s);
    }
  }

  /** Each route alone: an entry exactly when it is emitted, and a skip otherwise. */
  lemma HeatmapSingle(route: Json, decode: Json -> Option<seq<Polyline.Point>>)
    requires route != JNull
    ensures HeatmapOf([route], decode).Some?
    ensures var h := HeatmapOf([route], decode).value;
      && (HeatStep(route, decode).Emit? ==> h == Heatmap([HeatStep(route, decode).entry], |HeatStep(route, decode).entry.points|, 1, 0))
      && (!HeatStep(route, decode).Emit? ==> h == Heatmap([], 0, 0, 1))
  {
    assert [route][..0] == [];
  }
}
