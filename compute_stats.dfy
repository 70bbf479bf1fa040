/**
 * computeAllStats (src/analytics/compute-stats.ts): the runs among the activity files,
 * sorted by start, grouped into Monday-based weeks, calendar months and calendar years
 * (UTC), with all-time totals and a metadata record.
 *
 * Reading the directory and parsing the files is left to the caller: the input is the
 * parsed activities. The five output files are returned as values instead of written.
 * A period is keyed by the instant of its start; the source keys by that instant's ISO
 * text, whose order is the same for the years 0 to 9999.
 */
module Stats {
  import opened Util
  import opened Activities
  import opened DateUtils
  import opened Sorting

  /** The running sums kept per period and for all time. */
  datatype Totals = Totals(
    distanceMeters: real,
    km: real,
    runCount: nat,
    movingTimeSec: int,
    elevationGain: real)

  const Zero := Totals(0.0, 0.0, 0, 0, 0.0)

  /** One run added to the sums. */
  function AddRun(t: Totals, a: Activity): (r: Totals)
    ensures r.runCount == t.runCount + 1
    ensures r.distanceMeters == t.distanceMeters + a.distance
    ensures r.movingTimeSec == t.movingTimeSec + a.movingTime
    ensures t.km == t.distanceMeters / 1000.0 ==> r.km == r.distanceMeters / 1000.0
  {
    Totals(
      t.distanceMeters + a.distance,
      t.km + a.distance / 1000.0,
      t.runCount + 1,
      t.movingTimeSec + a.movingTime,
      t.elevationGain + a.elevationGain)
  }

  /** The sums over a sequence of runs: one per run, and kilometres are metres / 1000. */
  function TotalOf(runs: seq<Activity>): (t: Totals)
    ensures t.runCount == |runs|
    ensures t.km == t.distanceMeters / 1000.0
  {
    if runs == [] then Zero else AddRun(TotalOf(runs[..|runs| - 1]), runs[|runs| - 1])
  }

  datatype Period = Week | Month | Year

  /** The start of the period holding instant `t`: getWeekStart, getMonthStart or getYearStart. */
  function PeriodStart(p: Period, t: int): int {
    match p
    case Week => GetWeekStart(t)
    case Month => GetMonthStart(t)
    case Year => GetYearStart(t)
  }

  /** The period key of a run. */
  function KeyOf(p: Period): Activity -> int {
    (a: Activity) => PeriodStart(p, a.start)
  }

  /** The runs whose key is `k`, in input order. */
  function RunsIn(runs: seq<Activity>, key: Activity -> int, k: int): (r: seq<Activity>)
    ensures |r| <= |runs|
    ensures forall a :: a in r <==> a in runs && key(a) == k
  {
    if runs == [] then []
    else
      var init := runs[..|runs| - 1];
      var a := runs[|runs| - 1];
      assert forall b :: b in runs <==> b in init || b == a;
      if key(a) == k then RunsIn(init, key, k) + [a] else RunsIn(init, key, k)
  }

  /** The bucket map after the runs, as the bucketing loop leaves it. */
  function Buckets(runs: seq<Activity>, key: Activity -> int): map<int, Totals> {
    if runs == [] then map[]
    else
      var m := Buckets(runs[..|runs| - 1], key);
      var a := runs[|runs| - 1];
      var k := key(a);
      m[k := AddRun(if k in m then m[k] else Zero, a)]
  }

  /** The keys of the bucket map in insertion order, which is the order a Map iterates in. */
  function KeyOrder(runs: seq<Activity>, key: Activity -> int): seq<int> {
    if runs == [] then []
    else
      var ks := KeyOrder(runs[..|runs| - 1], key);
      var k := key(runs[|runs| - 1]);
      if k in ks then ks else ks + [k]
  }

  /** Each run lands in exactly one bucket: the bucket of a key holds the sums of its runs. */
  lemma {:induction false} BucketsAreTotals(runs: seq<Activity>, key: Activity -> int)
    ensures forall k :: k in Buckets(runs, key) <==> RunsIn(runs, key, k) != []
    ensures forall k :: k in Buckets(runs, key) ==> Buckets(runs, key)[k] == TotalOf(RunsIn(runs, key, k))
  {
    if runs != [] {
      var init := runs[..|runs| - 1];
      var a := runs[|runs| - 1];
      BucketsAreTotals(init, key);
      forall k ensures k in Buckets(runs, key) ==> Buckets(runs, key)[k] == TotalOf(RunsIn(runs, key, k)) {
        if k == key(a) {
          var r := RunsIn(runs, key, k);
          assert r[..|r| - 1] == RunsIn(init, key, k);
        }
      }
    }
  }

  /** The key order lists every key of the map once. */
  lemma {:induction false} KeyOrderIsDomain(runs: seq<Activity>, key: Activity -> int)
    ensures forall k :: k in KeyOrder(runs, key) <==> k in Buckets(runs, key)
    ensures Distinct(KeyOrder(runs, key))
  {
    if runs != [] {
      KeyOrderIsDomain(runs[..|runs| - 1], key);
    }
  }

  /**
   * The bucketing loop: each run is added to the sums of its period, and a period seen
   * for the first time is appended to the key order.
   */
  method GroupByPeriod(runs: seq<Activity>, key: Activity -> int) returns (buckets: map<int, Totals>, keys: seq<int>)
    ensures buckets == Buckets(runs, key)
    ensures keys == KeyOrder(runs, key)
  {
    buckets := map[];
    keys := [];
    for i := 0 to |runs|
      invariant buckets == Buckets(runs[..i], key)
      invariant keys == KeyOrder(runs[..i], key)
    {
      var a := runs[i];
      var k := key(a);
      KeyOrderIsDomain(runs[..i], key);
      var existing := if k in buckets then buckets[k] else Zero;
      if k !in buckets {
        keys := keys + [k];
      }
      buckets := buckets[k := AddRun(existing, a)];
      assert runs[..i + 1][..i] == runs[..i];
    }
    assert runs[..|runs|] == runs;
  }

  /** Number of runs whose key is in `ks`. */
  function CountIn(runs: seq<Activity>, key: Activity -> int, ks: set<int>): (n: nat)
    ensures n <= |runs|
    ensures (forall a :: a in runs ==> key(a) in ks) ==> n == |runs|
  {
    if runs == [] then 0
    else
      var init := runs[..|runs| - 1];
      assert forall a :: a in init ==> a in runs;
      CountIn(init, key, ks) + (if key(runs[|runs| - 1]) in ks then 1 else 0)
  }

  lemma {:induction false} CountInNone(runs: seq<Activity>, key: Activity -> int)
    ensures CountIn(runs, key, {}) == 0
  {
    if runs != [] {
      CountInNone(runs[..|runs| - 1], key);
    }
  }

  lemma {:induction false} CountInAdd(runs: seq<Activity>, key: Activity -> int, ks: set<int>, k: int)
    requires k !in ks
    ensures CountIn(runs, key, ks + {k}) == CountIn(runs, key, ks) + |RunsIn(runs, key, k)|
  {
    if runs != [] {
      CountInAdd(runs[..|runs| - 1], key, ks, k);
    }
  }

  /** The number of runs of each key. */
  function SizeIn(runs: seq<Activity>, key: Activity -> int): int -> int {
    k => |RunsIn(runs, key, k)|
  }

  /** Summed over distinct keys, the run counts count the runs with one of those keys. */
  lemma {:induction false} SumOverKeys(runs: seq<Activity>, key: Activity -> int, ks: seq<int>)
    requires Distinct(ks)
    ensures SumOf(ks, SizeIn(runs, key)) == CountIn(runs, key, set k | k in ks)
  {
    if ks != [] {
      var init := ks[..|ks| - 1];
      var k := ks[|ks| - 1];
      assert Distinct(init);
      SumOverKeys(runs, key, init);
      var before := set x | x in init;
      assert k !in before by {
        forall i | 0 <= i < |init| ensures init[i] != k {
          assert init[i] == ks[i];
        }
      }
      assert (set x | x in ks) == before + {k};
      CountInAdd(runs, key, before, k);
      assert SumOf(ks, SizeIn(runs, key)) == SumOf(init, SizeIn(runs, key)) + SizeIn(runs, key)(k);
      assert SizeIn(runs, key)(k) == |RunsIn(runs, key, k)|;
    } else {
      assert (set k | k in ks) == {};
      CountInNone(runs, key);
    }
  }

  /** The keys of the bucket map in increasing order, as the source sorts them. */
  function SortedKeys(runs: seq<Activity>, key: Activity -> int): (ks: seq<int>)
    ensures forall k :: k in ks <==> k in Buckets(runs, key)
    ensures forall i, j :: 0 <= i < j < |ks| ==> ks[i] < ks[j]
  {
    KeyOrderIsDomain(runs, key);
    IntLeTotalPreorder();
    var order := KeyOrder(runs, key);
    var ks := SortBy(order, IntLe);
    assert forall k :: k in ks <==> k in order by {
      forall k ensures k in ks <==> k in order {
        assert k in ks <==> k in multiset(ks);
        assert k in order <==> k in multiset(order);
      }
    }
    PermutationKeepsDistinct(ks, order);
    ks
  }

  /** The sorted keys count every run once. */
  lemma SortedKeysCountAll(runs: seq<Activity>, key: Activity -> int)
    ensures SumOf(SortedKeys(runs, key), SizeIn(runs, key)) == |runs|
  {
    KeyOrderIsDomain(runs, key);
    BucketsAreTotals(runs, key);
    IntLeTotalPreorder();
    var order := KeyOrder(runs, key);
    SumOfSortBy(order, IntLe, SizeIn(runs, key));
    SumOverKeys(runs, key, order);
    forall a | a in runs ensures key(a) in (set k | k in order) {
      assert a in RunsIn(runs, key, key(a));
    }
  }

  /** One output entry: weeklyStats carry no label, months "Jan 2024", years "2024". */
  datatype PeriodStat = PeriodStat(
    periodStart: int,
    periodLabel: Option<string>,
    totalKm: real,
    runCount: nat,
    avgPaceMinPerKm: real,
    elevationGain: real,
    totalMovingTimeMin: real)

  /** Minutes per kilometre, and 0 when there is no distance. */
  function Pace(t: Totals): (pace: real)
    ensures t.distanceMeters <= 0.0 ==> pace == 0.0
    ensures t.distanceMeters > 0.0 ==> pace * (t.distanceMeters / 1000.0) == t.movingTimeSec as real / 60.0
  {
    if t.distanceMeters > 0.0 then (t.movingTimeSec as real / 60.0) / (t.distanceMeters / 1000.0) else 0.0
  }

  function Label(p: Period, k: int): Option<string> {
    match p
    case Week => None
    case Month => Some(FormatMonthLabel(k))
    case Year => Some(IntToString(CivilOf(k).year))
  }

  function StatOf(p: Period, k: int, t: Totals): PeriodStat {
    PeriodStat(k, Label(p, k), t.km, t.runCount, Pace(t), t.elevationGain, t.movingTimeSec as real / 60.0)
  }

  /** The entries of the given periods, in the given order. */
  function StatsFor(p: Period, ks: seq<int>, buckets: map<int, Totals>): (r: seq<PeriodStat>)
    requires forall k :: k in ks ==> k in buckets
    ensures |r| == |ks|
    ensures forall i :: 0 <= i < |ks| ==> r[i] == StatOf(p, ks[i], buckets[ks[i]])
    ensures forall i :: 0 <= i < |ks| ==> r[i].periodStart == ks[i] && r[i].runCount == buckets[ks[i]].runCount
  {
    if ks == [] then [] else StatsFor(p, ks[..|ks| - 1], buckets) + [StatOf(p, ks[|ks| - 1], buckets[ks[|ks| - 1]])]
  }

  /** The entries of one grouping, sorted by period start. */
  function GroupStats(p: Period, runs: seq<Activity>, key: Activity -> int): seq<PeriodStat> {
    StatsFor(p, SortedKeys(runs, key), Buckets(runs, key))
  }

  /** weeklyStats, monthlyStats or yearlyStats: the period map's entries sorted by period start. */
  function PeriodStats(runs: seq<Activity>, p: Period): seq<PeriodStat> {
    GroupStats(p, runs, KeyOf(p))
  }

  function RunCount(s: PeriodStat): int {
    s.runCount
  }

  lemma {:induction false} StatsForRunCounts(p: Period, runs: seq<Activity>, key: Activity -> int, ks: seq<int>)
    requires forall k :: k in ks ==> k in Buckets(runs, key)
    ensures SumOf(StatsFor(p, ks, Buckets(runs, key)), RunCount) == SumOf(ks, SizeIn(runs, key))
  {
    if ks != [] {
      var init := ks[..|ks| - 1];
      var b := Buckets(runs, key);
      StatsForRunCounts(p, runs, key, init);
      BucketsAreTotals(runs, key);
      assert StatsFor(p, ks, b)[..|ks| - 1] == StatsFor(p, init, b);
    }
  }

  /**
   * The entries of a grouping: one per key that holds a run, in strictly increasing
   * order of key, each counting exactly the runs of its key.
   */
  lemma GroupStatsSpec(p: Period, runs: seq<Activity>, key: Activity -> int)
    ensures var r := GroupStats(p, runs, key);
      && (forall i, j :: 0 <= i < j < |r| ==> r[i].periodStart < r[j].periodStart)
      && (forall i :: 0 <= i < |r| ==> RunsIn(runs, key, r[i].periodStart) != [])
      && (forall i :: 0 <= i < |r| ==> r[i].runCount == |RunsIn(runs, key, r[i].periodStart)|)
      && (forall a :: a in runs ==> exists i :: 0 <= i < |r| && r[i].periodStart == key(a))
  {
    BucketsAreTotals(runs, key);
    var ks := SortedKeys(runs, key);
    var buckets := Buckets(runs, key);
    var r := GroupStats(p, runs, key);
    assert r == StatsFor(p, ks, buckets);
    forall i | 0 <= i < |r|
      ensures r[i].periodStart == ks[i]
      ensures RunsIn(runs, key, r[i].periodStart) != []
      ensures r[i].runCount == |RunsIn(runs, key, r[i].periodStart)|
    {
      assert ks[i] in ks;
      assert buckets[ks[i]] == TotalOf(RunsIn(runs, key, ks[i]));
    }
    forall a | a in runs ensures exists i :: 0 <= i < |r| && r[i].periodStart == key(a) {
      assert a in RunsIn(runs, key, key(a));
      assert key(a) in ks;
      var i :| 0 <= i < |ks| && ks[i] == key(a);
      assert r[i].periodStart == key(a);
    }
  }

  /** The run counts of a grouping add up to the number of runs. */
  lemma GroupStatsCountAll(p: Period, runs: seq<Activity>, key: Activity -> int)
    ensures SumOf(GroupStats(p, runs, key), RunCount) == |runs|
  {
    StatsForRunCounts(p, runs, key, SortedKeys(runs, key));
    SortedKeysCountAll(runs, key);
  }

  /**
   * weeklyStats, monthlyStats and yearlyStats: one entry per period holding a run, in
   * increasing order of period start, each counting exactly the runs that start in it,
   * and the counts summing to the number of runs.
   */
  lemma PeriodStatsSpec(runs: seq<Activity>, p: Period)
    ensures var r := PeriodStats(runs, p);
      && (forall i, j :: 0 <= i < j < |r| ==> r[i].periodStart < r[j].periodStart)
      && (forall i :: 0 <= i < |r| ==> r[i].runCount == |RunsIn(runs, KeyOf(p), r[i].periodStart)| > 0)
      && (forall a :: a in runs ==> exists i :: 0 <= i < |r| && r[i].periodStart == PeriodStart(p, a.start))
      && SumOf(r, RunCount) == |runs|
  {
    GroupStatsSpec(p, runs, KeyOf(p));
    GroupStatsCountAll(p, runs, KeyOf(p));
  }

  /** Two sums added together, field by field. */
  function Plus(a: Totals, b: Totals): Totals {
    Totals(
      a.distanceMeters + b.distanceMeters,
      a.km + b.km,
      a.runCount + b.runCount,
      a.movingTimeSec + b.movingTimeSec,
      a.elevationGain + b.elevationGain)
  }

  lemma PlusZero(t: Totals)
    ensures Plus(t, Zero) == t
  {
  }

  lemma PlusAddRun(t: Totals, u: Totals, a: Activity)
    ensures AddRun(Plus(t, u), a) == Plus(t, AddRun(u, a))
  {
  }

  /** The sums over two stretches of runs add up. */
  lemma {:induction false} TotalOfConcat(a: seq<Activity>, b: seq<Activity>)
    ensures TotalOf(a + b) == Plus(TotalOf(a), TotalOf(b))
    decreases |b|
  {
    if b == [] {
      assert a + b == a;
      assert TotalOf(b) == Zero;
      PlusZero(TotalOf(a));
    } else {
      var init := b[..|b| - 1];
      assert (a + b)[..|a + b| - 1] == a + init;
      var x := b[|b| - 1];
      TotalOfConcat(a, init);
      PlusAddRun(TotalOf(a), TotalOf(init), x);
      calc {
        TotalOf(a + b);
        AddRun(TotalOf(a + init), x);
        AddRun(Plus(TotalOf(a), TotalOf(init)), x);
        Plus(TotalOf(a), AddRun(TotalOf(init), x));
        Plus(TotalOf(a), TotalOf(b));
      }
    }
  }

  lemma {:induction false} TotalOfInsert(x: Activity, s: seq<Activity>, le: (Activity, Activity) -> bool)
    ensures TotalOf(Insert(x, s, le)) == Plus(TotalOf([x]), TotalOf(s))
  {
    if s == [] || le(x, s[0]) {
      TotalOfConcat([x], s);
    } else {
      TotalOfInsert(x, s[1..], le);
      TotalOfConcat([s[0]], Insert(x, s[1..], le));
      TotalOfConcat([s[0]], s[1..]);
      assert [s[0]] + s[1..] == s;
    }
  }

  /** The sums do not depend on the order of the runs: sorting them changes nothing. */
  lemma {:induction false} TotalOfSortBy(s: seq<Activity>, le: (Activity, Activity) -> bool)
    requires TotalPreorder(le)
    ensures TotalOf(SortBy(s, le)) == TotalOf(s)
  {
    if s != [] {
      TotalOfSortBy(s[1..], le);
      TotalOfInsert(s[0], SortBy(s[1..], le), le);
      TotalOfConcat([s[0]], s[1..]);
      assert [s[0]] + s[1..] == s;
    }
  }

  /** The order of `activities.sort`: by start instant. */
  predicate StartLe(a: Activity, b: Activity) {
    a.start <= b.start
  }

  lemma StartLeTotalPreorder()
    ensures TotalPreorder(StartLe)
  {
  }

  /** The loading loop: the runs among the parsed files, in directory order. */
  method LoadRuns(activities: seq<Activity>) returns (runs: seq<Activity>)
    ensures runs == Runs(activities)
  {
    runs := [];
    for i := 0 to |activities|
      invariant runs == Runs(activities[..i])
    {
      assert activities[..i + 1][..i] == activities[..i];
      if IsRun(activities[i]) {
        runs := runs + [activities[i]];
      }
    }
    assert activities[..|activities|] == activities;
  }

  /** The all-time loop: every run added to the running sums. */
  method SumAll(runs: seq<Activity>) returns (t: Totals)
    ensures t == TotalOf(runs)
  {
    t := Zero;
    for i := 0 to |runs|
      invariant t == TotalOf(runs[..i])
    {
      assert runs[..i + 1][..i] == runs[..i];
      t := AddRun(t, runs[i]);
    }
    assert runs[..|runs|] == runs;
  }

  /** One grouping: the bucketing loop, then the entries sorted by period start. */
  method ComputePeriodStats(runs: seq<Activity>, p: Period) returns (r: seq<PeriodStat>)
    ensures r == PeriodStats(runs, p)
  {
    var buckets, keys := GroupByPeriod(runs, KeyOf(p));
    KeyOrderIsDomain(runs, KeyOf(p));
    IntLeTotalPreorder();
    var sorted := SortBy(keys, IntLe);
    assert forall k :: k in sorted ==> k in multiset(keys);
    r := StatsFor(p, sorted, buckets);
  }

  datatype AllTimeTotals = AllTimeTotals(
    totalKm: real,
    totalRuns: nat,
    totalHours: real,
    totalElevation: real,
    avgPaceMinPerKm: real,
    firstActivityDate: int,
    lastActivityDate: int,
    generatedAt: int)

  datatype StatsMetadata = StatsMetadata(
    generatedAt: int,
    activityCount: nat,
    from: int,
    to: int,
    files: seq<string>)

  /** The contents of the five files the computation writes. */
  datatype StatsOutput = StatsOutput(
    weeklyStats: seq<PeriodStat>,
    allTimeTotals: AllTimeTotals,
    monthlyStats: seq<PeriodStat>,
    yearlyStats: seq<PeriodStat>,
    metadata: StatsMetadata)

  const OutputFiles: seq<string> :=
    ["weekly-distance.json", "all-time-totals.json", "monthly-stats.json", "yearly-stats.json", "metadata.json"]

  /** The runs in the order the source processes them. */
  function SortedRuns(activities: seq<Activity>): (r: seq<Activity>)
    ensures |r| == |Runs(activities)|
    ensures multiset(r) == multiset(Runs(activities))
    ensures forall i, j :: 0 <= i < j < |r| ==> r[i].start <= r[j].start
  {
    StartLeTotalPreorder();
    SortBy(Runs(activities), StartLe)
  }

  /** The first and last of the runs sorted by start are the earliest and the latest. */
  lemma SortedEnds(runs: seq<Activity>, sorted: seq<Activity>)
    requires sorted != []
    requires multiset(sorted) == multiset(runs)
    requires forall i, j :: 0 <= i < j < |sorted| ==> sorted[i].start <= sorted[j].start
    ensures sorted[0] in runs && sorted[|sorted| - 1] in runs
    ensures forall a :: a in runs ==> sorted[0].start <= a.start <= sorted[|sorted| - 1].start
  {
    assert sorted[0] in multiset(runs) && sorted[|sorted| - 1] in multiset(runs);
    forall a | a in runs ensures sorted[0].start <= a.start <= sorted[|sorted| - 1].start {
      assert a in multiset(sorted);
      var i :| 0 <= i < |sorted| && sorted[i] == a;
    }
  }

  /**
   * computeAllStats on the parsed activity files, at instant `nowMs`: nothing when there
   * is no run; otherwise the three groupings of the runs sorted by start, the all-time
   * sums over every run, the first and last start, and the metadata.
   */
  method ComputeAllStats(activities: seq<Activity>, nowMs: int) returns (r: Option<StatsOutput>)
    ensures r.None? <==> Runs(activities) == []
    ensures r.Some? ==> r.value.weeklyStats == PeriodStats(SortedRuns(activities), Week)
    ensures r.Some? ==> r.value.monthlyStats == PeriodStats(SortedRuns(activities), Month)
    ensures r.Some? ==> r.value.yearlyStats == PeriodStats(SortedRuns(activities), Year)
    ensures r.Some? ==> var t := r.value.allTimeTotals; var all := TotalOf(Runs(activities));
      && t.totalRuns == |Runs(activities)|
      && t.totalKm == all.distanceMeters / 1000.0
      && t.totalHours == all.movingTimeSec as real / 3600.0
      && t.totalElevation == all.elevationGain
      && t.avgPaceMinPerKm == Pace(all)
      && t.generatedAt == nowMs
    ensures r.Some? ==> var t := r.value.allTimeTotals;
      && (exists a :: a in Runs(activities) && a.start == t.firstActivityDate)
      && (exists a :: a in Runs(activities) && a.start == t.lastActivityDate)
      && (forall a :: a in Runs(activities) ==> t.firstActivityDate <= a.start <= t.lastActivityDate)
    ensures r.Some? ==> r.value.metadata == StatsMetadata(
      nowMs, |Runs(activities)|, r.value.allTimeTotals.firstActivityDate,
      r.value.allTimeTotals.lastActivityDate, OutputFiles)
  {
    var runs := LoadRuns(activities);
    if |runs| == 0 {
      return None;
    }
    StartLeTotalPreorder();
    var sorted := SortBy(runs, StartLe);
    assert sorted == SortedRuns(activities);
    var weekly := ComputePeriodStats(sorted, Week);
    var first := sorted[0].start;
    var last := sorted[|sorted| - 1].start;
    SortedEnds(runs, sorted);
    var all := SumAll(sorted);
    TotalOfSortBy(runs, StartLe);
    var allTime := AllTimeTotals(
      all.km, all.runCount, all.movingTimeSec as real / 3600.0, all.elevationGain, Pace(all),
      first, last, nowMs);
    var monthly := ComputePeriodStats(sorted, Month);
    var yearly := ComputePeriodStats(sorted, Year);
    var metadata := StatsMetadata(nowMs, |sorted|, first, last, OutputFiles);
    r := Some(StatsOutput(weekly, allTime, monthly, yearly, metadata));
  }

  /**
   * The groupings of a computation account for every run: each of weeklyStats,
   * monthlyStats and yearlyStats counts as many runs as the all-time totals.
   */
  lemma GroupingsCountAllRuns(activities: seq<Activity>, p: Period)
    ensures SumOf(PeriodStats(SortedRuns(activities), p), RunCount) == |Runs(activities)|
  {
    PeriodStatsSpec(SortedRuns(activities), p);
  }
}
