/**
 * The build-time route extraction (scripts/compute-route-data.mjs): read the activity
 * files, keep the activities with a polyline and start coordinates, order them newest
 * first, and take the latest twenty.
 *
 * The script reads raw JSON, so activities are `Json` values and JavaScript's truthiness,
 * property access and array destructuring are written out. A TypeError that escapes
 * (a property read on `null`, destructuring a value that is not iterable) ends the script:
 * it is `None` here. Date parsing is the parameter `instant`; the file system, the
 * directory creation and the console output are left out.
 */
module RouteData {
  import opened Util
  import opened JsonModel
  import opened Sorting

  const LatestRunsCount := 20

  /** What a route-list entry holds; None is a property that was undefined. */
  datatype Route = Route(
    id: Option<Json>,
    name: Option<Json>,
    date: Option<Json>,
    distance: Option<Json>,
    movingTime: Option<Json>,
    polyline: Json,
    startLat: Option<Json>,
    startLng: Option<Json>)

  /** JavaScript truthiness of a JSON value. */
  predicate Truthy(j: Json) {
    match j
    case JNull => false
    case JBool(b) => b
    case JNum(n) => n != 0.0
    case JStr(s) => s != ""
    case _ => true
  }

  /** The element at `i` of an array or the character at `i` of a string, as destructuring reads it. */
  function ElementAt(j: Json, i: nat): (r: Option<Json>)
    requires j.JArr? || j.JStr?
    ensures j.JArr? ==> (r.Some? <==> i < |j.items|)
    ensures j.JStr? ==> (r.Some? <==> i < |j.s|)
  {
    if j.JArr? then (if i < |j.items| then Some(j.items[i]) else None)
    else if i < |j.s| then Some(JStr([j.s[i]])) else None
  }

  /** `activity.map?.summary_polyline`. */
  function PolylineOf(a: Json): (r: Option<Json>)
    ensures r.Some? ==> a.JObj? && "map" in a.fields
  {
    match Field(a, "map")
    case Some(m) => if m == JNull then None else Field(m, "summary_polyline")
    case None => None
  }

  /** What one activity does to the route list. */
  datatype Step = Skip | Keep(route: Route) | Throw

  predicate IsNullAt(j: Json, i: nat)
    requires j.JArr? || j.JStr?
  {
    ElementAt(j, i) == Some(JNull)
  }

  /**
   * One pass of extractRouteData's loop. A `null` activity throws. An activity without a
   * truthy polyline is skipped. Otherwise `start_latlng || [null, null]` is destructured,
   * which throws unless it is an array or a string. The activity is skipped when either
   * coordinate is null, and kept otherwise; an empty array gives undefined coordinates,
   * which are kept.
   */
  function RouteStep(a: Json): (s: Step)
    ensures s.Throw? ==> a == JNull || (PolylineOf(a).Some? && Truthy(PolylineOf(a).value))
    ensures s.Keep? <==>
      && a != JNull
      && PolylineOf(a).Some? && Truthy(PolylineOf(a).value)
      && var c := Field(a, "start_latlng");
      && c.Some? && Truthy(c.value) && (c.value.JArr? || c.value.JStr?)
      && !IsNullAt(c.value, 0) && !IsNullAt(c.value, 1)
    ensures s.Keep? ==>
      && s.route.polyline == PolylineOf(a).value
      && s.route.id == Field(a, "id") && s.route.name == Field(a, "name")
      && s.route.date == Field(a, "start_date_local") && s.route.distance == Field(a, "distance")
      && s.route.movingTime == Field(a, "moving_time")
      && s.route.startLat == ElementAt(Field(a, "start_latlng").value, 0)
      && s.route.startLng == ElementAt(Field(a, "start_latlng").value, 1)
  {
    if a == JNull then Throw
    else
      var polyline := PolylineOf(a);
      if polyline.None? || !Truthy(polyline.value) then Skip
      else
        var given := Field(a, "start_latlng");
        var coords := if given.Some? && Truthy(given.value) then given.value else JArr([JNull, JNull]);
        if !(coords.JArr? || coords.JStr?) then Throw
        else
          var lat, lng := ElementAt(coords, 0), ElementAt(coords, 1);
          if lat == Some(JNull) || lng == Some(JNull) then Skip
          else Keep(Route(Field(a, "id"), Field(a, "name"), Field(a, "start_date_local"),
                          Field(a, "distance"), Field(a, "moving_time"), polyline.value, lat, lng))
  }

  /** The routes the loop pushes, in input order, or None when an activity throws. */
  function Collected(activities: seq<Json>): (r: Option<seq<Route>>)
    ensures r.Some? ==> |r.value| <= |activities|
  {
    if activities == [] then Some([])
    else
      var n := |activities| - 1;
      match Collected(activities[..n])
      case None => None
      case Some(routes) =>
        match RouteStep(activities[n])
        case Throw => None
        case Skip => Some(routes)
        case Keep(route) => Some(routes + [route])
  }

  /** The sort comparator `new Date(b.date) - new Date(a.date)`: newer dates first. */
  function Newer(instant: Option<Json> -> int): (Route, Route) -> bool {
    (a: Route, b: Route) => instant(b.date) - instant(a.date) <= 0
  }

  lemma NewerTotalPreorder(instant: Option<Json> -> int)
    ensures TotalPreorder(Newer(instant))
  {
  }

  /** `routes.sort(...)`: the same routes, newest first. */
  function NewestFirst(routes: seq<Route>, instant: Option<Json> -> int): (r: seq<Route>)
    ensures |r| == |routes| && multiset(r) == multiset(routes)
    ensures forall i, j :: 0 <= i < j < |r| ==> instant(r[j].date) <= instant(r[i].date)
  {
    NewerTotalPreorder(instant);
    SortBy(routes, Newer(instant))
  }

  /**
   * extractRouteData: the kept routes, pushed in input order and then sorted newest first;
   * None when an activity throws.
   */
  method ExtractRouteData(activities: seq<Json>, instant: Option<Json> -> int) returns (r: Option<seq<Route>>)
    ensures r.None? <==> Collected(activities).None?
    ensures r.Some? ==> r.value == NewestFirst(Collected(activities).value, instant)
  {
    var routes: seq<Route> := [];
    for i := 0 to |activities|
      invariant Collected(activities[..i]) == Some(routes)
    {
      assert activities[..i + 1][..i] == activities[..i];
      var step := RouteStep(activities[i]);
      assert activities[..i + 1][i] == activities[i];
      match step {
        case Throw =>
          ThrowStops(activities, i + 1);
          return None;
        case Skip =>
        case Keep(route) =>
          routes := routes + [route];
      }
    }
    assert activities[..|activities|] == activities;
    r := Some(NewestFirst(routes, instant));
  }

  /** Once an activity throws, nothing after it matters. */
  lemma {:induction false} ThrowStops(activities: seq<Json>, i: nat)
    requires 0 < i <= |activities|
    requires Collected(activities[..i]).None?
    ensures Collected(activities).None?
  {
    if i < |activities| {
      assert activities[..|activities| - 1][..i] == activities[..i];
      ThrowStops(activities[..|activities| - 1], i);
    } else {
      assert activities[..i] == activities;
    }
  }

  /** The extraction fails exactly when some activity throws. */
  lemma {:induction false} CollectedFailsIffThrow(activities: seq<Json>)
    ensures Collected(activities).None? <==> exists i :: 0 <= i < |activities| && RouteStep(activities[i]).Throw?
  {
    if activities != [] {
      var n := |activities| - 1;
      CollectedFailsIffThrow(activities[..n]);
      if exists i :: 0 <= i < n && RouteStep(activities[..n][i]).Throw? {
        var i :| 0 <= i < n && RouteStep(activities[..n][i]).Throw?;
        assert activities[i] == activities[..n][i];
      }
      if exists i :: 0 <= i < |activities| && RouteStep(activities[i]).Throw? {
        var i :| 0 <= i < |activities| && RouteStep(activities[i]).Throw?;
        if i < n {
          assert activities[..n][i] == activities[i];
        }
      }
    }
  }

  /** One more activity after `activities`: a throw fails, a skip adds nothing, a kept route goes last. */
  lemma CollectedSnoc(activities: seq<Json>, activity: Json)
    ensures Collected(activities + [activity]) ==
      match Collected(activities)
      case None => None
      case Some(routes) =>
        match RouteStep(activity)
        case Throw => None
        case Skip => Some(routes)
        case Keep(route) => Some(routes + [route])
  {
    var s := activities + [activity];
    assert s[..|s| - 1] == activities && s[|s| - 1] == activity;
  }

  /** One activity: a throw fails, a skip pushes nothing, a kept route is pushed alone. */
  lemma CollectedSingle(activity: Json)
    ensures Collected([activity]) ==
      match RouteStep(activity)
      case Throw => None
      case Skip => Some([])
      case Keep(route) => Some([route])
  {
    CollectedSnoc([], activity);
    assert [] + [activity] == [activity];
    match RouteStep(activity)
    case Throw =>
    case Skip =>
    case Keep(route) =>
      assert [] + [route] == [route];
  }

  /** The step of CollectedAppend: one more activity at the end of `b`. */
  lemma CollectedAppendStep(a: seq<Json>, init: seq<Json>, last: Json)
    requires Collected(a).Some? && Collected(init).Some? && Collected(init + [last]).Some?
    requires Collected(a + init) == Some(Collected(a).value + Collected(init).value)
    ensures Collected(a + (init + [last])) == Some(Collected(a).value + Collected(init + [last]).value)
  {
    assert a + (init + [last]) == (a + init) + [last];
    CollectedSnoc(init, last);
    CollectedSnoc(a + init, last);
    var ca, ci := Collected(a).value, Collected(init).value;
    match RouteStep(last)
    case Throw =>
    case Skip =>
    case Keep(route) =>
      assert ca + ci + [route] == ca + (ci + [route]);
  }

  /**
   * Without a throw, collecting two runs of activities one after the other pushes the
   * routes of the first, then those of the second: each keeping activity gives its route
   * once, in input order.
   */
  lemma {:induction false} CollectedAppend(a: seq<Json>, b: seq<Json>)
    requires Collected(a).Some? && Collected(b).Some?
    ensures Collected(a + b) == Some(Collected(a).value + Collected(b).value)
  {
    if b == [] {
      assert a + b == a;
      assert Collected(a).value + [] == Collected(a).value;
    } else {
      var init, last := b[..|b| - 1], b[|b| - 1];
      assert b == init + [last];
      CollectedSnoc(init, last);
      CollectedAppend(a, init);
      CollectedAppendStep(a, init, last);
    }
  }

  /**
   * Without a throw, the routes are exactly the kept activities' routes: each route comes
   * from a kept activity, and each kept activity's route is there.
   */
  lemma {:induction false} CollectedAreKept(activities: seq<Json>)
    requires Collected(activities).Some?
    ensures forall route :: route in Collected(activities).value <==>
      exists i :: 0 <= i < |activities| && RouteStep(activities[i]) == Keep(route)
  {
    if activities != [] {
      var n := |activities| - 1;
      var init := activities[..n];
      CollectedAreKept(init);
      var prev, step := Collected(init).value, RouteStep(activities[n]);
      var routes := Collected(activities).value;
      assert routes == if step.Keep? then prev + [step.route] else prev;
      forall route ensures route in routes <==>
        exists i :: 0 <= i < |activities| && RouteStep(activities[i]) == Keep(route)
      {
        assert route in routes <==> route in prev || step == Keep(route);
        if exists i :: 0 <= i < n && RouteStep(init[i]) == Keep(route) {
          var i :| 0 <= i < n && RouteStep(init[i]) == Keep(route);
          assert activities[i] == init[i];
        }
        if exists i :: 0 <= i < |activities| && RouteStep(activities[i]) == Keep(route) {
          var i :| 0 <= i < |activities| && RouteStep(activities[i]) == Keep(route);
          if i < n {
            assert init[i] == activities[i];
          }
        }
      }
    }
  }

  /**
   * What extractRouteData returns: the collected routes reordered newest first, so the
   * kept routes and no others, no more of them than activities.
   */
  lemma ExtractedRoutes(activities: seq<Json>, instant: Option<Json> -> int)
    requires Collected(activities).Some?
    ensures var r := NewestFirst(Collected(activities).value, instant);
      && |r| <= |activities|
      && multiset(r) == multiset(Collected(activities).value)
      && (forall i, j :: 0 <= i < j < |r| ==> instant(r[j].date) <= instant(r[i].date))
      && (forall route :: route in r <==>
            exists i :: 0 <= i < |activities| && RouteStep(activities[i]) == Keep(route))
  {
    var r := NewestFirst(Collected(activities).value, instant);
    CollectedAreKept(activities);
    forall route ensures route in r <==> route in Collected(activities).value {
      assert route in r <==> route in multiset(r);
    }
  }

  /** latest-runs: the first min(n, 20) routes. */
  function LatestRuns(routes: seq<Route>): (r: seq<Route>)
    ensures |r| == if |routes| < LatestRunsCount then |routes| else LatestRunsCount
    ensures r == routes[..|r|]
  {
    if |routes| < LatestRunsCount then routes else routes[..LatestRunsCount]
  }

  /** The `.json` names of a directory listing that read and parse, in listing order. */
  function Readable(names: seq<string>, read: string -> Option<Json>): (r: seq<Json>)
    ensures |r| <= |names|
  {
    if names == [] then []
    else
      var n := |names| - 1;
      var rest := Readable(names[..n], read);
      if EndsWith(names[n], ".json") && read(names[n]).Some? then rest + [read(names[n]).value] else rest
  }

  /**
   * readActivities: the `.json` files of the directory, each read and parsed; a file that
   * fails is skipped, the others are all read. `read` stands for reading the file and
   * JSON.parse on its text, None when either throws.
   */
  method ReadActivities(names: seq<string>, read: string -> Option<Json>) returns (activities: seq<Json>)
    ensures activities == Readable(names, read)
  {
    activities := [];
    for i := 0 to |names|
      invariant activities == Readable(names[..i], read)
    {
      assert names[..i + 1][..i] == names[..i];
      if EndsWith(names[i], ".json") {
        var parsed := read(names[i]);
        if parsed.Some? {
          activities := activities + [parsed.value];
        }
      }
    }
    assert names[..|names|] == names;
  }

  /** Every parsed file is an activity, in listing order, and every activity came from a parsed `.json` file. */
  lemma {:induction false} ReadableSpec(names: seq<string>, read: string -> Option<Json>)
    ensures forall a :: a in Readable(names, read) <==>
      exists i :: 0 <= i < |names| && EndsWith(names[i], ".json") && read(names[i]) == Some(a)
  {
    if names != [] {
      var n := |names| - 1;
      ReadableSpec(names[..n], read);
      forall a ensures a in Readable(names, read) <==>
        exists i :: 0 <= i < |names| && EndsWith(names[i], ".json") && read(names[i]) == Some(a)
      {
        if exists i :: 0 <= i < n && EndsWith(names[..n][i], ".json") && read(names[..n][i]) == Some(a) {
          var i :| 0 <= i < n && EndsWith(names[..n][i], ".json") && read(names[..n][i]) == Some(a);
          assert names[i] == names[..n][i];
        }
        if exists i :: 0 <= i < |names| && EndsWith(names[i], ".json") && read(names[i]) == Some(a) {
          var i :| 0 <= i < |names| && EndsWith(names[i], ".json") && read(names[i]) == Some(a);
          if i < n {
            assert names[..n][i] == names[i];
          }
        }
      }
    }
  }

  const KB: real := 1024.0
  const MB: real := 1048576.0

  /**
   * formatBytes: whole bytes below 1 KB, kilobytes below 1 MB, megabytes from there on.
   * `show` is the number's text and `fixed1` is toFixed(1).
   */
  function FormatBytes(bytes: nat, show: nat -> string, fixed1: real -> string): (r: string)
    ensures bytes < 1024 ==> r == show(bytes) + " B"
    ensures 1024 <= bytes < 1048576 ==> r == fixed1(bytes as real / KB) + " KB"
    ensures 1048576 <= bytes ==> r == fixed1(bytes as real / MB) + " MB"
  {
    if bytes < 1024 then show(bytes) + " B"
    else if bytes < 1024 * 1024 then fixed1(bytes as real / KB) + " KB"
    else fixed1(bytes as real / MB) + " MB"
  }

  /** The amount shown for kilobytes is in [1, 1024), and for megabytes at least 1. */
  lemma FormatBytesAmount(bytes: nat)
    ensures 1024 <= bytes < 1048576 ==> 1.0 <= bytes as real / KB < 1024.0
    ensures 1048576 <= bytes ==> 1.0 <= bytes as real / MB
  {
  }
}
