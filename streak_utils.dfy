/**
 * Streak calculation (src/analytics/streak-utils.ts): daily streaks over UTC calendar days
 * and weekly consistency over Monday-based UTC weeks.
 *
 * Both functions in the source are stubs that return zeros whatever the input. The model
 * keeps those bodies (`...AsWritten`) and, beside them, defines the behaviour the
 * accompanying tests (src/analytics/streak-utils.test.ts) require, with that contract
 * proved. Dates are instants in milliseconds; "today" is the parameter `nowMs`.
 */
module Streaks {
  import opened Util
  import opened DateUtils

  /** `k` consecutive integers ending at `d` are all in `s`. */
  predicate ConsecutiveRun(s: set<int>, d: int, k: nat) {
    forall x :: d - k < x <= d ==> x in s
  }

  /**
   * The length of the run of consecutive members of `s` that ends at `d` (0 when `d` is
   * absent): no run ending at `d` is longer.
   */
  function RunEndingAt(s: set<int>, d: int): (n: nat)
    ensures ConsecutiveRun(s, d, n)
    ensures d - n !in s
    decreases s
  {
    if d in s then 1 + RunEndingAt(s - {d}, d - 1) else 0
  }

  /** No run ending at `d` is longer than RunEndingAt. */
  lemma RunEndingAtIsLongest(s: set<int>, d: int, k: nat)
    requires ConsecutiveRun(s, d, k)
    ensures k <= RunEndingAt(s, d)
  {
  }

  /** A run: its length and its last member. */
  datatype Streak = Streak(length: nat, end: int)

  /**
   * The longest of the runs ending at each candidate; on a tie the earliest candidate in
   * the sequence wins.
   */
  function LongestRun(s: set<int>, candidates: seq<int>): (r: Streak)
    ensures ConsecutiveRun(s, r.end, r.length)
    ensures forall c :: c in candidates ==> RunEndingAt(s, c) <= r.length
    ensures candidates != [] ==> r.end in candidates
  {
    if candidates == [] then
      assert ConsecutiveRun(s, 0, 0);
      Streak(0, 0)
    else
      var init := candidates[..|candidates| - 1];
      var best := LongestRun(s, init);
      var c := candidates[|candidates| - 1];
      var n := RunEndingAt(s, c);
      assert forall x :: x in candidates ==> x in init || x == c;
      if n > best.length || init == [] then
        assert ConsecutiveRun(s, c, n);
        Streak(n, c)
      else
        assert ConsecutiveRun(s, best.end, best.length);
        best
  }

  /**
   * When every member of `s` is a candidate, LongestRun finds a longest run of `s`, and it
   * ends at a member of `s` when `s` has one.
   */
  lemma LongestRunIsLongest(s: set<int>, candidates: seq<int>)
    requires forall x :: x in s ==> x in candidates
    ensures forall d: int, k: nat :: ConsecutiveRun(s, d, k) ==> k <= LongestRun(s, candidates).length
    ensures (exists x :: x in s) ==> LongestRun(s, candidates).length >= 1 && LongestRun(s, candidates).end in s
  {
    var r := LongestRun(s, candidates);
    forall d: int, k: nat | ConsecutiveRun(s, d, k) ensures k <= r.length {
      if k > 0 {
        assert d in s;
      }
    }
    if exists x :: x in s {
      var x :| x in s;
      assert ConsecutiveRun(s, x, 1);
    }
  }

  /** The UTC days on which some date falls. */
  function Days(dates: seq<int>): set<int> {
    set t | t in dates :: DayOf(t)
  }

  /** The UTC day of each date, in input order; every day of Days is listed. */
  function DayList(dates: seq<int>): (r: seq<int>)
    ensures |r| == |dates|
    ensures forall i :: 0 <= i < |dates| ==> r[i] == DayOf(dates[i])
    ensures forall x :: x in Days(dates) ==> x in r
  {
    if dates == [] then []
    else
      var init := dates[..|dates| - 1];
      var r := DayList(init) + [DayOf(dates[|dates| - 1])];
      assert forall t :: t in dates ==> t in init || t == dates[|dates| - 1];
      r
  }

  /** The day of the latest date. */
  function LatestDay(dates: seq<int>): (d: int)
    requires dates != []
    ensures d in Days(dates)
    ensures forall t :: t in dates ==> DayOf(t) <= d
  {
    var last := DayOf(dates[|dates| - 1]);
    if |dates| == 1 then last
    else
      var rest := LatestDay(dates[..|dates| - 1]);
      assert forall t :: t in dates ==> t in dates[..|dates| - 1] || t == dates[|dates| - 1];
      if last > rest then last else rest
  }

  /** The latest day is today or yesterday. */
  predicate IsCurrent(latest: int, nowMs: int) {
    latest == DayOf(nowMs) || latest == DayOf(nowMs) - 1
  }

  /**
   * The current streak: the run ending at the latest day when that day is today or
   * yesterday, and 0 otherwise.
   */
  function CurrentRun(days: set<int>, latest: int, nowMs: int): (n: nat)
    requires latest in days
    ensures n > 0 <==> IsCurrent(latest, nowMs)
    ensures ConsecutiveRun(days, latest, n)
    ensures n > 0 ==> latest - n !in days
  {
    if IsCurrent(latest, nowMs) then RunEndingAt(days, latest) else 0
  }

  datatype StreakResult = StreakResult(
    currentStreak: nat,
    longestStreak: nat,
    withinCurrentStreak: bool,
    currentStreakStart: Option<int>,
    longestStreakStart: Option<int>,
    longestStreakEnd: Option<int>)

  const NoStreak := StreakResult(0, 0, false, None, None, None)

  /** calculateDailyStreaks as written: zeros and nulls for every input. */
  function CalculateDailyStreaksAsWritten(activityDates: seq<int>): (r: StreakResult)
    ensures r == NoStreak
  {
    StreakResult(0, 0, false, None, None, None)
  }

  /**
   * calculateDailyStreaks as its tests specify it. Days are UTC calendar days; several
   * dates on one day count once. The current streak is the run ending at the latest day
   * when that day is today or yesterday, and 0 otherwise; the longest streak is the
   * longest run of consecutive days anywhere. Start and end are midnights UTC.
   */
  function CalculateDailyStreaks(activityDates: seq<int>, nowMs: int): (r: StreakResult)
    ensures activityDates == [] ==> r == NoStreak
    ensures activityDates != [] ==> (r.withinCurrentStreak <==> IsCurrent(LatestDay(activityDates), nowMs))
    ensures r.withinCurrentStreak <==> r.currentStreak > 0
    ensures r.withinCurrentStreak <==> r.currentStreakStart.Some?
    ensures activityDates != [] ==> ConsecutiveRun(Days(activityDates), LatestDay(activityDates), r.currentStreak)
    ensures r.withinCurrentStreak ==> LatestDay(activityDates) - r.currentStreak !in Days(activityDates)
    ensures r.withinCurrentStreak ==>
      r.currentStreakStart.value == (LatestDay(activityDates) - r.currentStreak + 1) * MsPerDay
    ensures activityDates != [] <==> r.longestStreak > 0
    ensures r.longestStreakEnd.Some? <==> r.longestStreak > 0
    ensures r.longestStreakStart.Some? <==> r.longestStreak > 0
    ensures r.longestStreakEnd.Some? ==> r.longestStreakEnd.value % MsPerDay == 0
    ensures r.longestStreakEnd.Some? ==>
      ConsecutiveRun(Days(activityDates), DayOf(r.longestStreakEnd.value), r.longestStreak)
    ensures r.longestStreakStart.Some? && r.longestStreakEnd.Some? ==>
      r.longestStreakStart.value == r.longestStreakEnd.value - (r.longestStreak - 1) * MsPerDay
    ensures activityDates != [] ==>
      forall d: int, k: nat :: ConsecutiveRun(Days(activityDates), d, k) ==> k <= r.longestStreak
  {
    if activityDates == [] then NoStreak
    else
      var days := Days(activityDates);
      var longest := LongestRun(days, DayList(activityDates));
      LongestRunIsLongest(days, DayList(activityDates));
      assert LatestDay(activityDates) in days;
      DailyFrom(days, LatestDay(activityDates), longest, nowMs)
  }

  /** The daily figures from the set of days, the latest day and a longest run. */
  function DailyFrom(days: set<int>, latest: int, longest: Streak, nowMs: int): (r: StreakResult)
    requires latest in days
    requires longest.length > 0 && ConsecutiveRun(days, longest.end, longest.length)
    requires forall d: int, k: nat :: ConsecutiveRun(days, d, k) ==> k <= longest.length
    ensures r.withinCurrentStreak <==> IsCurrent(latest, nowMs)
    ensures r.withinCurrentStreak <==> r.currentStreak > 0
    ensures r.withinCurrentStreak <==> r.currentStreakStart.Some?
    ensures ConsecutiveRun(days, latest, r.currentStreak)
    ensures r.withinCurrentStreak ==> latest - r.currentStreak !in days
    ensures r.withinCurrentStreak ==> r.currentStreakStart.value == (latest - r.currentStreak + 1) * MsPerDay
    ensures r.longestStreak > 0 && r.longestStreakEnd.Some? && r.longestStreakStart.Some?
    ensures r.longestStreakEnd.value % MsPerDay == 0
    ensures ConsecutiveRun(days, DayOf(r.longestStreakEnd.value), r.longestStreak)
    ensures r.longestStreakStart.value == r.longestStreakEnd.value - (r.longestStreak - 1) * MsPerDay
    ensures forall d: int, k: nat :: ConsecutiveRun(days, d, k) ==> k <= r.longestStreak
  {
    var current := CurrentRun(days, latest, nowMs);
    DayOfMidnight(longest.end);
    StreakResult(
      current,
      longest.length,
      current > 0,
      if current > 0 then Some((latest - current + 1) * MsPerDay) else None,
      Some((longest.end - longest.length + 1) * MsPerDay),
      Some(longest.end * MsPerDay))
  }

  /** A second date on a day already present changes nothing. */
  lemma SameDayCountsOnce(activityDates: seq<int>, t: int, nowMs: int)
    requires exists u :: u in activityDates && DayOf(u) == DayOf(t)
    ensures CalculateDailyStreaks(activityDates + [t], nowMs) == CalculateDailyStreaks(activityDates, nowMs)
  {
    var more := activityDates + [t];
    var u :| u in activityDates && DayOf(u) == DayOf(t);
    assert more[..|more| - 1] == activityDates;
    var days := Days(activityDates);
    assert Days(more) == days by {
      forall x | x in Days(more) ensures x in days {
        var v :| v in more && DayOf(v) == x;
        if v == t {
          assert DayOf(u) == x;
        }
      }
    }
    assert LatestDay(more) == LatestDay(activityDates);
    var list := DayList(activityDates);
    assert DayList(more) == list + [DayOf(t)];
    var i :| 0 <= i < |activityDates| && activityDates[i] == u;
    assert list[i] == DayOf(t);
    assert (list + [DayOf(t)])[..|list|] == list;
    assert LongestRun(days, DayList(more)) == LongestRun(days, list);
  }

  datatype WeeklyConsistencyResult = WeeklyConsistencyResult(
    currentConsistencyStreak: nat,
    longestConsistencyStreak: nat,
    totalConsistentWeeks: nat,
    totalWeeks: nat)

  /** The default of `minRunsPerWeek`. */
  const DefaultMinRunsPerWeek := 3

  /** calculateWeeklyConsistency as written: zeros for every input. */
  function CalculateWeeklyConsistencyAsWritten(activityDates: seq<int>, minRunsPerWeek: int := DefaultMinRunsPerWeek)
    : (r: WeeklyConsistencyResult)
    ensures r == WeeklyConsistencyResult(0, 0, 0, 0)
  {
    WeeklyConsistencyResult(0, 0, 0, 0)
  }

  /** The number of dates in week `w`. */
  function RunsInWeek(activityDates: seq<int>, w: int): (n: nat)
    ensures n <= |activityDates|
    ensures n > 0 <==> exists t :: t in activityDates && WeekIndex(t) == w
  {
    if activityDates == [] then 0
    else
      var init := activityDates[..|activityDates| - 1];
      var t := activityDates[|activityDates| - 1];
      assert forall u :: u in activityDates ==> u in init || u == t;
      RunsInWeek(init, w) + (if WeekIndex(t) == w then 1 else 0)
  }

  /** The weeks with at least one date. */
  function ActiveWeeks(activityDates: seq<int>): set<int> {
    set t | t in activityDates :: WeekIndex(t)
  }

  /** The weeks with at least one date and at least `minRunsPerWeek` dates. */
  function ConsistentWeeks(activityDates: seq<int>, minRunsPerWeek: int): (s: set<int>)
    ensures s <= ActiveWeeks(activityDates)
    ensures forall w :: w in s <==> w in ActiveWeeks(activityDates) && RunsInWeek(activityDates, w) >= minRunsPerWeek
  {
    set t | t in activityDates && RunsInWeek(activityDates, WeekIndex(t)) >= minRunsPerWeek :: WeekIndex(t)
  }

  /** The week of each date, in input order; every active week is listed. */
  function WeekList(activityDates: seq<int>): (r: seq<int>)
    ensures |r| == |activityDates|
    ensures forall i :: 0 <= i < |activityDates| ==> r[i] == WeekIndex(activityDates[i])
    ensures forall w :: w in ActiveWeeks(activityDates) ==> w in r
  {
    if activityDates == [] then []
    else
      var init := activityDates[..|activityDates| - 1];
      var r := WeekList(init) + [WeekIndex(activityDates[|activityDates| - 1])];
      assert forall t :: t in activityDates ==> t in init || t == activityDates[|activityDates| - 1];
      r
  }

  /** The week of the latest date. */
  function LatestWeek(activityDates: seq<int>): (w: int)
    requires activityDates != []
    ensures w in ActiveWeeks(activityDates)
    ensures forall t :: t in activityDates ==> WeekIndex(t) <= w
  {
    var last := WeekIndex(activityDates[|activityDates| - 1]);
    if |activityDates| == 1 then last
    else
      var init := activityDates[..|activityDates| - 1];
      var rest := LatestWeek(init);
      assert forall t :: t in activityDates ==> t in init || t == activityDates[|activityDates| - 1];
      if last > rest then last else rest
  }

  /**
   * The figures of a set of consistent weeks: the run ending at the latest week, the
   * longest run, and the number of consistent weeks.
   */
  function ConsistencyOf(weeks: set<int>, latest: int, candidates: seq<int>, totalWeeks: nat)
    : (r: WeeklyConsistencyResult)
    requires forall x :: x in weeks ==> x in candidates
    ensures ConsecutiveRun(weeks, latest, r.currentConsistencyStreak)
    ensures latest - r.currentConsistencyStreak !in weeks
    ensures forall w: int, k: nat :: ConsecutiveRun(weeks, w, k) ==> k <= r.longestConsistencyStreak
    ensures exists w :: ConsecutiveRun(weeks, w, r.longestConsistencyStreak)
    ensures r.totalConsistentWeeks == |weeks| && r.totalWeeks == totalWeeks
  {
    var longest := LongestRun(weeks, candidates);
    LongestRunIsLongest(weeks, candidates);
    WeeklyConsistencyResult(RunEndingAt(weeks, latest), longest.length, |weeks|, totalWeeks)
  }

  /**
   * calculateWeeklyConsistency as its tests specify it. A week is consistent when it holds
   * at least `minRunsPerWeek` dates. The current streak is the run of consecutive
   * consistent weeks ending at the week of the latest date (0 when that week is not
   * consistent); the longest is the longest such run anywhere; every consistent week
   * counts towards the total, whether or not it is part of a streak, and `totalWeeks` is
   * the number of weeks with any date.
   */
  function CalculateWeeklyConsistency(activityDates: seq<int>, minRunsPerWeek: int := DefaultMinRunsPerWeek)
    : (r: WeeklyConsistencyResult)
    ensures activityDates == [] ==> r == WeeklyConsistencyResult(0, 0, 0, 0)
    ensures activityDates != [] ==>
      ConsecutiveRun(ConsistentWeeks(activityDates, minRunsPerWeek), LatestWeek(activityDates), r.currentConsistencyStreak)
    ensures activityDates != [] ==>
      LatestWeek(activityDates) - r.currentConsistencyStreak !in ConsistentWeeks(activityDates, minRunsPerWeek)
    ensures activityDates != [] ==> forall w: int, k: nat ::
      ConsecutiveRun(ConsistentWeeks(activityDates, minRunsPerWeek), w, k) ==> k <= r.longestConsistencyStreak
    ensures activityDates != [] ==>
      exists w :: ConsecutiveRun(ConsistentWeeks(activityDates, minRunsPerWeek), w, r.longestConsistencyStreak)
    ensures activityDates != [] ==> r.totalConsistentWeeks == |ConsistentWeeks(activityDates, minRunsPerWeek)|
    ensures r.totalWeeks == |ActiveWeeks(activityDates)|
  {
    if activityDates == [] then WeeklyConsistencyResult(0, 0, 0, 0)
    else
      ConsistencyOf(
        ConsistentWeeks(activityDates, minRunsPerWeek),
        LatestWeek(activityDates),
        WeekList(activityDates),
        |ActiveWeeks(activityDates)|)
  }

  /** `hour`:00 UTC on day `day` of January 2024. */
  function January2024(day: int, hour: int): int {
    (DayOfCivil(Civil(2024, 1, 1)) + day - 1) * MsPerDay + hour * MsPerHour
  }

  lemma January2024Day(day: int, hour: int)
    requires 0 <= hour < 24
    ensures DayOf(January2024(day, hour)) == 19722 + day
  {
    assert DayOfCivil(Civil(2024, 1, 1)) == 19723;
  }

  /** A set of one member holds no run longer than one. */
  lemma SingletonRuns(s: set<int>, d: int)
    requires s == {d}
    ensures forall e: int, k: nat :: ConsecutiveRun(s, e, k) ==> k <= 1
  {
    forall e: int, k: nat | ConsecutiveRun(s, e, k) ensures k <= 1 {
      assert k > 1 ==> e - 1 in s && e in s;
    }
  }

  /** A single date today is a current streak of one day: as written, the source reports none. */
  lemma SingleDateToday(nowMs: int)
    ensures CalculateDailyStreaks([nowMs], nowMs).currentStreak == 1
    ensures CalculateDailyStreaks([nowMs], nowMs).longestStreak == 1
    ensures CalculateDailyStreaks([nowMs], nowMs).withinCurrentStreak
    ensures CalculateDailyStreaksAsWritten([nowMs]).currentStreak == 0
  {
    var d := DayOf(nowMs);
    assert Days([nowMs]) == {d};
    SingletonRuns(Days([nowMs]), d);
  }

  /** A single date five days ago: no current streak, a longest streak of one day. */
  lemma SingleDateFiveDaysAgo(nowMs: int)
    ensures CalculateDailyStreaks([nowMs - 5 * MsPerDay], nowMs).currentStreak == 0
    ensures CalculateDailyStreaks([nowMs - 5 * MsPerDay], nowMs).longestStreak == 1
    ensures !CalculateDailyStreaks([nowMs - 5 * MsPerDay], nowMs).withinCurrentStreak
  {
    var t := nowMs - 5 * MsPerDay;
    var d := DayOf(t);
    assert d == DayOf(nowMs) - 5;
    assert Days([t]) == {d};
    SingletonRuns(Days([t]), d);
  }

  /** Runs on Monday, Wednesday and Friday of the week of 2024-01-01. */
  const ThreeRunsFirstWeek := [January2024(1, 10), January2024(3, 10), January2024(5, 10)]

  lemma ThreeRunsFirstWeekAreOneWeek()
    ensures ActiveWeeks(ThreeRunsFirstWeek) == {2818}
    ensures RunsInWeek(ThreeRunsFirstWeek, 2818) == 3
    ensures LatestWeek(ThreeRunsFirstWeek) == 2818
  {
    var dates := ThreeRunsFirstWeek;
    January2024Day(1, 10);
    January2024Day(3, 10);
    January2024Day(5, 10);
    assert WeekIndex(dates[0]) == 2818 && WeekIndex(dates[1]) == 2818 && WeekIndex(dates[2]) == 2818;
    assert dates[..2] == [dates[0], dates[1]];
    assert dates[..2][..1] == [dates[0]];
  }

  /**
   * Three runs in the week of Monday 2024-01-01 make one consistent week at threshold 3:
   * as written, the source reports none.
   */
  lemma OneWeekOfThreeRuns()
    ensures CalculateWeeklyConsistency(ThreeRunsFirstWeek, DefaultMinRunsPerWeek) == WeeklyConsistencyResult(1, 1, 1, 1)
    ensures CalculateWeeklyConsistencyAsWritten(ThreeRunsFirstWeek, DefaultMinRunsPerWeek).totalConsistentWeeks == 0
  {
    ThreeRunsFirstWeekAreOneWeek();
    var weeks := ConsistentWeeks(ThreeRunsFirstWeek, DefaultMinRunsPerWeek);
    assert weeks == {2818};
    SingletonRuns(weeks, 2818);
    assert ConsecutiveRun(weeks, 2818, 1);
    var r := CalculateWeeklyConsistency(ThreeRunsFirstWeek, DefaultMinRunsPerWeek);
    assert 2818 - 0 in weeks;
    assert r.currentConsistencyStreak == 1;
    assert r.longestConsistencyStreak == 1;
    assert r.totalConsistentWeeks == 1;
    assert r.totalWeeks == 1;
  }
}
