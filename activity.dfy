/**
 * A Strava activity as the source reads it (src/types/strava.types.ts): the fields the
 * core looks at, with the whole record as received kept in `raw` (the file the sync
 * writes holds that record verbatim). Dates are instants in milliseconds since the
 * Unix epoch; `startLocal` is the local wall-clock time read as if it were UTC, which
 * is what `new Date(start_date_local)` gives for Strava's "Z"-suffixed local strings.
 */
module Activities {
  import opened Util
  import opened JsonModel

  datatype Activity = Activity(
    id: int,
    name: string,
    kind: string,
    start: int,
    startLocal: int,
    distance: real,
    movingTime: int,
    elevationGain: real,
    startLatLng: Option<seq<real>>,
    summaryPolyline: Option<string>,
    raw: Json)

  predicate IsRun(a: Activity) {
    a.kind == "Run"
  }

  /** `activities.filter(a => a.type === 'Run')`. */
  function Runs(activities: seq<Activity>): (r: seq<Activity>)
    ensures |r| <= |activities|
  {
    if activities == [] then []
    else
      var rest := Runs(activities[..|activities| - 1]);
      var last := activities[|activities| - 1];
      if IsRun(last) then rest + [last] else rest
  }

  /** The Runs are exactly the activities whose type is "Run". */
  lemma {:induction false} RunsMembers(activities: seq<Activity>)
    ensures forall a :: a in Runs(activities) <==> a in activities && IsRun(a)
    ensures forall i :: 0 <= i < |Runs(activities)| ==> IsRun(Runs(activities)[i])
  {
    if activities != [] {
      var init := activities[..|activities| - 1];
      var last := activities[|activities| - 1];
      RunsMembers(init);
      assert activities == init + [last];
    }
  }

  lemma {:induction false} RunsAppend(a: seq<Activity>, b: seq<Activity>)
    ensures Runs(a + b) == Runs(a) + Runs(b)
    decreases |b|
  {
    if b == [] {
      assert a + b == a;
    } else {
      assert (a + b)[..|a + b| - 1] == a + b[..|b| - 1];
      RunsAppend(a, b[..|b| - 1]);
    }
  }

  /** Filtering twice is filtering once. */
  lemma {:induction false} RunsIdempotent(activities: seq<Activity>)
    ensures Runs(Runs(activities)) == Runs(activities)
  {
    if activities != [] {
      var init := activities[..|activities| - 1];
      var last := activities[|activities| - 1];
      RunsIdempotent(init);
      if IsRun(last) {
        RunsAppend(Runs(init), [last]);
        assert Runs([last]) == [last] by {
          assert [last][..0] == [];
        }
      }
    }
  }

  /** Seconds since the epoch, rounded down: `Math.floor(getTime() / 1000)`. */
  function EpochSeconds(a: Activity): (s: int)
    ensures s * 1000 <= a.start < s * 1000 + 1000
  {
    a.start / 1000
  }
}
