/**
 * computeAdvancedStats (src/analytics/compute-advanced-stats.ts): from the runs sorted
 * by start, a twelve-month year-over-year table over the three greatest years, four
 * time-of-day buckets by UTC hour, the monthly volumes of those years in calendar order,
 * and a placeholder streak record.
 *
 * Each run is reduced to a `Sample`: its UTC year, month and hour, its kilometres and its
 * hours. Reading the directory and parsing the files is left to the caller, and the four
 * output files are returned as values instead of written.
 */
module AdvancedStats {
  import opened Util
  import opened Activities
  import opened DateUtils
  import opened Sorting
  import Stats

  /** What the computation reads of one run. */
  datatype Sample = Sample(year: int, month: int, hour: int, km: real, hours: real)

  /** getUTCFullYear, getUTCMonth() + 1 and getUTCHours of the start, distance / 1000, moving_time / 3600. */
  function SampleOf(a: Activity): (s: Sample)
    ensures 1 <= s.month <= 12 && 0 <= s.hour < 24
    ensures s.year == CivilOf(a.start).year && s.month == CivilOf(a.start).month
  {
    var c := CivilOf(a.start);
    Sample(c.year, c.month, HourOf(a.start), a.distance / 1000.0, a.movingTime as real / 3600.0)
  }

  function Samples(runs: seq<Activity>): (ss: seq<Sample>)
    ensures |ss| == |runs|
    ensures forall i :: 0 <= i < |runs| ==> ss[i] == SampleOf(runs[i])
  {
    seq(|runs|, i requires 0 <= i < |runs| => SampleOf(runs[i]))
  }

  /** The sums kept per bucket. */
  datatype Cell = Cell(totalKm: real, totalRuns: nat, totalHours: real)

  const NoData := Cell(0.0, 0, 0.0)

  function Add(c: Cell, s: Sample): Cell {
    Cell(c.totalKm + s.km, c.totalRuns + 1, c.totalHours + s.hours)
  }

  /** The sums over some samples: one run each. */
  function CellOf(ss: seq<Sample>): (c: Cell)
    ensures c.totalRuns == |ss|
  {
    if ss == [] then NoData else Add(CellOf(ss[..|ss| - 1]), ss[|ss| - 1])
  }

  lemma CellOfSnoc(ss: seq<Sample>, s: Sample)
    ensures CellOf(ss + [s]) == Add(CellOf(ss), s)
  {
    assert (ss + [s])[..|ss|] == ss;
  }

  /** The samples that `keep` accepts, in order. */
  function Select(ss: seq<Sample>, keep: Sample -> bool): (r: seq<Sample>)
    ensures |r| <= |ss|
    ensures forall s :: s in r <==> s in ss && keep(s)
  {
    if ss == [] then []
    else
      var init := ss[..|ss| - 1];
      var s := ss[|ss| - 1];
      assert forall x :: x in ss <==> x in init || x == s;
      if keep(s) then Select(init, keep) + [s] else Select(init, keep)
  }

  lemma SelectSnoc(ss: seq<Sample>, s: Sample, keep: Sample -> bool)
    ensures Select(ss + [s], keep) == if keep(s) then Select(ss, keep) + [s] else Select(ss, keep)
  {
    assert (ss + [s])[..|ss|] == ss;
  }

  /** The samples whose key is `k`. */
  function HasKey<K(==)>(key: Sample -> K, k: K): Sample -> bool {
    (s: Sample) => key(s) == k
  }

  /** A map of sums keyed by `key`, as a loop that adds each sample to its entry leaves it. */
  function Group<K(==)>(ss: seq<Sample>, key: Sample -> K): map<K, Cell> {
    if ss == [] then map[]
    else
      var m := Group(ss[..|ss| - 1], key);
      var s := ss[|ss| - 1];
      var k := key(s);
      m[k := Add(if k in m then m[k] else NoData, s)]
  }

  /** The keys of such a map in insertion order, the order a Map iterates in. */
  function Order<K(==)>(ss: seq<Sample>, key: Sample -> K): seq<K> {
    if ss == [] then []
    else
      var ks := Order(ss[..|ss| - 1], key);
      var k := key(ss[|ss| - 1]);
      if k in ks then ks else ks + [k]
  }

  /** Each key's entry holds exactly the sums of the samples with that key. */
  lemma {:induction false} GroupIsCells<K>(ss: seq<Sample>, key: Sample -> K)
    ensures forall k :: k in Group(ss, key) <==> Select(ss, HasKey(key, k)) != []
    ensures forall k :: k in Group(ss, key) ==> Group(ss, key)[k] == CellOf(Select(ss, HasKey(key, k)))
  {
    if ss != [] {
      var init := ss[..|ss| - 1];
      var s := ss[|ss| - 1];
      assert ss == init + [s];
      GroupIsCells(init, key);
      forall k ensures Select(ss, HasKey(key, k)) == if key(s) == k then Select(init, HasKey(key, k)) + [s] else Select(init, HasKey(key, k)) {
        SelectSnoc(init, s, HasKey(key, k));
      }
      CellOfSnoc(Select(init, HasKey(key, key(s))), s);
    }
  }

  lemma {:induction false} OrderIsDomain<K>(ss: seq<Sample>, key: Sample -> K)
    ensures forall k :: k in Order(ss, key) <==> k in Group(ss, key)
    ensures Distinct(Order(ss, key))
  {
    if ss != [] {
      OrderIsDomain(ss[..|ss| - 1], key);
    }
  }

  /** The sums of key `k`, and no data when there is none. */
  function Lookup<K(==)>(m: map<K, Cell>, k: K): Cell {
    if k in m then m[k] else NoData
  }

  /** Looking up any key, present or not, gives the sums of the samples with that key. */
  lemma LookupIsCell<K>(ss: seq<Sample>, key: Sample -> K, k: K)
    ensures Lookup(Group(ss, key), k) == CellOf(Select(ss, HasKey(key, k)))
  {
    GroupIsCells(ss, key);
  }

  /** The grouping loop: each sample added to the sums of its key. */
  method GroupLoop<K(==)>(ss: seq<Sample>, key: Sample -> K) returns (m: map<K, Cell>, keys: seq<K>)
    ensures m == Group(ss, key)
    ensures keys == Order(ss, key)
  {
    m := map[];
    keys := [];
    for i := 0 to |ss|
      invariant m == Group(ss[..i], key)
      invariant keys == Order(ss[..i], key)
    {
      var s := ss[i];
      var k := key(s);
      OrderIsDomain(ss[..i], key);
      var existing := if k in m then m[k] else NoData;
      if k !in m {
        keys := keys + [k];
      }
      m := m[k := Add(existing, s)];
      assert ss[..i + 1][..i] == ss[..i];
    }
    assert ss[..|ss|] == ss;
  }

  // ---------------------------------------------------------------- years

  /** getUTCFullYear().toString(). */
  function YearText(y: int): string {
    IntToString(y)
  }

  /** The distinct year texts of the samples, in the order first met. */
  function DistinctYears(ss: seq<Sample>): (ys: seq<string>)
    ensures Distinct(ys)
    ensures forall y :: y in ys <==> exists s :: s in ss && YearText(s.year) == y
  {
    if ss == [] then []
    else
      var init := ss[..|ss| - 1];
      var s := ss[|ss| - 1];
      assert forall x :: x in ss <==> x in init || x == s;
      var ys := DistinctYears(init);
      if YearText(s.year) in ys then ys else ys + [YearText(s.year)]
  }

  /** `slice(-3)`: the last three elements, or all of them when there are fewer. */
  function LastThree(s: seq<string>): (r: seq<string>)
    ensures |r| == if |s| < 3 then |s| else 3
    ensures forall i :: 0 <= i < |r| ==> r[i] == s[|s| - |r| + i]
  {
    if |s| <= 3 then s else s[|s| - 3..]
  }

  /** `Array.from(allYears).sort().slice(-3)`. */
  function SortedYears(ss: seq<Sample>): (r: seq<string>)
    ensures |r| == if |DistinctYears(ss)| < 3 then |DistinctYears(ss)| else 3
    ensures forall y :: y in r ==> y in DistinctYears(ss)
    ensures forall i, j :: 0 <= i < j < |r| ==> LexLe(r[i], r[j]) && r[i] != r[j]
  {
    LexLeTotalPreorder();
    var ys := DistinctYears(ss);
    var sorted := SortBy(ys, LexLe);
    PermutationKeepsDistinct(sorted, ys);
    assert forall y :: y in sorted ==> y in multiset(ys);
    LastThree(sorted)
  }

  /** The years kept are the greatest: every year left out is lexicographically below every year kept. */
  lemma SortedYearsAreGreatest(ss: seq<Sample>, y: string, x: string)
    requires y in DistinctYears(ss) && y !in SortedYears(ss)
    requires x in SortedYears(ss)
    ensures LexLe(y, x) && y != x
  {
    LexLeTotalPreorder();
    var ys := DistinctYears(ss);
    var sorted := SortBy(ys, LexLe);
    var r := SortedYears(ss);
    assert y in multiset(sorted);
    var i :| 0 <= i < |sorted| && sorted[i] == y;
    var j :| 0 <= j < |r| && r[j] == x;
    var off := |sorted| - |r|;
    assert x == sorted[off + j];
    assert i < off + j;
  }

  // ---------------------------------------------------------------- year over year

  /** The year-over-year map's key: the month 1..12 and the year text. */
  const MonthYear: Sample -> (int, string) := (s: Sample) => (s.month, YearText(s.year))

  datatype YearCell = YearCell(year: string, cell: Cell)

  datatype YearOverYearMonth = YearOverYearMonth(month: int, monthLabel: string, years: seq<YearCell>)

  /** One month of the table: every kept year, with its sums or zeros. */
  function MonthRow(ym: map<(int, string), Cell>, month: int, years: seq<string>): (r: YearOverYearMonth)
    requires 1 <= month <= 12
  {
    YearOverYearMonth(month, MonthNames[month - 1],
      seq(|years|, j requires 0 <= j < |years| => YearCell(years[j], Lookup(ym, (month, years[j])))))
  }

  /** The `for month` loop: twelve rows, each pre-filled with zeros and then given the data there is. */
  method BuildYearOverYear(ym: map<(int, string), Cell>, years: seq<string>) returns (rows: seq<YearOverYearMonth>)
    ensures |rows| == 12
    ensures forall i :: 0 <= i < 12 ==> rows[i] == MonthRow(ym, i + 1, years)
  {
    rows := [];
    for month := 1 to 13
      invariant |rows| == month - 1
      invariant forall i :: 0 <= i < month - 1 ==> rows[i] == MonthRow(ym, i + 1, years)
    {
      var cells: seq<YearCell> := [];
      for j := 0 to |years|
        invariant |cells| == j
        invariant forall k :: 0 <= k < j ==> cells[k] == YearCell(years[k], NoData)
      {
        cells := cells + [YearCell(years[j], NoData)];
      }
      for j := 0 to |years|
        invariant |cells| == |years|
        invariant forall k :: 0 <= k < j ==> cells[k] == YearCell(years[k], Lookup(ym, (month, years[k])))
        invariant forall k :: j <= k < |years| ==> cells[k] == YearCell(years[k], NoData)
      {
        if (month, years[j]) in ym {
          cells := cells[j := YearCell(years[j], ym[(month, years[j])])];
        }
      }
      rows := rows + [YearOverYearMonth(month, MonthNames[month - 1], cells)];
    }
  }

  /** yearOverYearData of some samples. */
  function YearOverYear(ss: seq<Sample>): (r: seq<YearOverYearMonth>)
    ensures |r| == 12
  {
    var ym := Group(ss, MonthYear);
    var years := SortedYears(ss);
    seq(12, i requires 0 <= i < 12 => MonthRow(ym, i + 1, years))
  }

  /**
   * The table has the twelve months in order with their labels; every month lists exactly
   * the kept years, in order, each with the sums of the runs of that month of that year,
   * which are zeros when there are none.
   */
  lemma YearOverYearSpec(ss: seq<Sample>, i: int, j: int)
    requires 0 <= i < 12
    ensures var r := YearOverYear(ss)[i];
      && r.month == i + 1
      && r.monthLabel == MonthNames[i]
      && |r.years| == |SortedYears(ss)|
      && (0 <= j < |r.years| ==>
        && r.years[j].year == SortedYears(ss)[j]
        && r.years[j].cell == CellOf(Select(ss, HasKey(MonthYear, (i + 1, SortedYears(ss)[j])))))
  {
    var years := SortedYears(ss);
    var ym := Group(ss, MonthYear);
    var r := YearOverYear(ss);
    assert r[i] == MonthRow(ym, i + 1, years);
    if 0 <= j < |years| {
      LookupIsCell(ss, MonthYear, (i + 1, years[j]));
      assert r[i].years[j] == YearCell(years[j], Lookup(ym, (i + 1, years[j])));
    }
  }

  // ---------------------------------------------------------------- time of day

  datatype Slot = Morning | Afternoon | Evening | Night

  /** The bucket of a UTC hour. */
  function SlotOf(hour: int): (sl: Slot)
    ensures sl == Morning <==> 6 <= hour < 12
    ensures sl == Afternoon <==> 12 <= hour < 18
    ensures sl == Evening <==> 18 <= hour < 22
    ensures sl == Night <==> hour < 6 || hour >= 22
  {
    if 6 <= hour < 12 then Morning
    else if 12 <= hour < 18 then Afternoon
    else if 18 <= hour < 22 then Evening
    else Night
  }

  function SlotLabel(sl: Slot): string {
    match sl
    case Morning => "Morning (6am-12pm)"
    case Afternoon => "Afternoon (12pm-6pm)"
    case Evening => "Evening (6pm-10pm)"
    case Night => "Night (10pm-6am)"
  }

  /** The buckets in the order the object literal declares them. */
  const Slots: seq<Slot> := [Morning, Afternoon, Evening, Night]

  function InSlot(sl: Slot): Sample -> bool {
    (s: Sample) => SlotOf(s.hour) == sl
  }

  /** The time-of-day loop: all four buckets start at zero, and each run is added to its bucket. */
  method TimeOfDayBuckets(ss: seq<Sample>) returns (buckets: map<Slot, Cell>)
    ensures forall sl :: sl in buckets && buckets[sl] == CellOf(Select(ss, InSlot(sl)))
  {
    buckets := map[Morning := NoData, Afternoon := NoData, Evening := NoData, Night := NoData];
    forall sl ensures sl in buckets && buckets[sl] == CellOf(Select(ss[..0], InSlot(sl))) {
      assert Select(ss[..0], InSlot(sl)) == [];
      assert sl.Morning? || sl.Afternoon? || sl.Evening? || sl.Night?;
    }
    for i := 0 to |ss|
      invariant forall sl :: sl in buckets && buckets[sl] == CellOf(Select(ss[..i], InSlot(sl)))
    {
      var s := ss[i];
      var sl := SlotOf(s.hour);
      assert ss[..i + 1] == ss[..i] + [s];
      forall x ensures Select(ss[..i + 1], InSlot(x)) ==
        if x == sl then Select(ss[..i], InSlot(x)) + [s] else Select(ss[..i], InSlot(x))
      {
        SelectSnoc(ss[..i], s, InSlot(x));
      }
      CellOfSnoc(Select(ss[..i], InSlot(sl)), s);
      buckets := buckets[sl := Add(buckets[sl], s)];
    }
    assert ss[..|ss|] == ss;
  }

  /** Every sample falls in exactly one of the four buckets. */
  lemma {:induction false} SlotsCountAll(ss: seq<Sample>)
    ensures |Select(ss, InSlot(Morning))| + |Select(ss, InSlot(Afternoon))|
      + |Select(ss, InSlot(Evening))| + |Select(ss, InSlot(Night))| == |ss|
  {
    if ss != [] {
      var init := ss[..|ss| - 1];
      var s := ss[|ss| - 1];
      assert ss == init + [s];
      SlotsCountAll(init);
      SelectSnoc(init, s, InSlot(Morning));
      SelectSnoc(init, s, InSlot(Afternoon));
      SelectSnoc(init, s, InSlot(Evening));
      SelectSnoc(init, s, InSlot(Night));
    }
  }

  datatype TimeOfDayPattern = TimeOfDayPattern(period: string, runCount: nat, totalKm: real, percentage: real)

  function PatternOf(sl: Slot, c: Cell, totalRuns: nat): TimeOfDayPattern
    requires totalRuns > 0
  {
    TimeOfDayPattern(SlotLabel(sl), c.totalRuns, c.totalKm, (c.totalRuns as real / totalRuns as real) * 100.0)
  }

  /** timeOfDayData of some samples: the four buckets in declaration order. */
  function TimeOfDay(ss: seq<Sample>): (r: seq<TimeOfDayPattern>)
    requires ss != []
    ensures |r| == 4
  {
    seq(4, i requires 0 <= i < 4 => PatternOf(Slots[i], CellOf(Select(ss, InSlot(Slots[i]))), |ss|))
  }

  /** Shares of a whole split in four add up to 100 percent. */
  lemma SharesSumTo100(a: real, b: real, c: real, d: real, n: real)
    requires n > 0.0 && a + b + c + d == n
    ensures (a / n) * 100.0 + (b / n) * 100.0 + (c / n) * 100.0 + (d / n) * 100.0 == 100.0
  {
    assert a / n + b / n + c / n + d / n == (a + b + c + d) / n;
  }

  /**
   * The four buckets are always there, in declaration order, each counting the runs whose
   * UTC hour falls in its range, and the counts add up to the number of runs.
   */
  lemma TimeOfDayCounts(ss: seq<Sample>)
    requires ss != []
    ensures var r := TimeOfDay(ss);
      && (forall i :: 0 <= i < 4 ==> r[i].period == SlotLabel(Slots[i]))
      && (forall i :: 0 <= i < 4 ==> r[i].runCount == |Select(ss, InSlot(Slots[i]))|)
      && r[0].runCount + r[1].runCount + r[2].runCount + r[3].runCount == |ss|
  {
    SlotsCountAll(ss);
    var r := TimeOfDay(ss);
    assert Slots[0] == Morning && Slots[1] == Afternoon && Slots[2] == Evening && Slots[3] == Night;
    assert r[0].runCount == |Select(ss, InSlot(Morning))|;
    assert r[1].runCount == |Select(ss, InSlot(Afternoon))|;
    assert r[2].runCount == |Select(ss, InSlot(Evening))|;
    assert r[3].runCount == |Select(ss, InSlot(Night))|;
  }

  /** The percentages of the four buckets add up to 100. */
  lemma TimeOfDayShares(ss: seq<Sample>)
    requires ss != []
    ensures var r := TimeOfDay(ss);
      r[0].percentage + r[1].percentage + r[2].percentage + r[3].percentage == 100.0
  {
    TimeOfDayCounts(ss);
    var r := TimeOfDay(ss);
    SharesSumTo100(r[0].runCount as real, r[1].runCount as real, r[2].runCount as real,
      r[3].runCount as real, |ss| as real);
  }

  // ---------------------------------------------------------------- seasonal trends

  /** The seasonal map's key: the year and the month, written `${year}-${month}` by the source. */
  const YearMonth: Sample -> (int, int) := (s: Sample) => (s.year, s.month)

  /** `a.year - b.year`, then `a.month - b.month`. */
  predicate YearMonthLe(a: (int, int), b: (int, int)) {
    a.0 < b.0 || (a.0 == b.0 && a.1 <= b.1)
  }

  lemma YearMonthLeTotalPreorder()
    ensures TotalPreorder(YearMonthLe)
  {
  }

  /** The keys whose year is one of the kept years, in order. */
  function KeepYears(ks: seq<(int, int)>, years: seq<string>): (r: seq<(int, int)>)
    ensures forall k :: k in r <==> k in ks && YearText(k.0) in years
    ensures Distinct(ks) ==> Distinct(r)
  {
    if ks == [] then []
    else
      var init := ks[..|ks| - 1];
      var k := ks[|ks| - 1];
      assert forall x :: x in ks <==> x in init || x == k;
      assert Distinct(ks) ==> Distinct(init) && k !in init;
      if YearText(k.0) in years then KeepYears(init, years) + [k] else KeepYears(init, years)
  }

  datatype SeasonalTrendMonth = SeasonalTrendMonth(year: int, month: int, totalKm: real, totalRuns: nat, totalHours: real)

  function TrendOf(k: (int, int), c: Cell): SeasonalTrendMonth {
    SeasonalTrendMonth(k.0, k.1, c.totalKm, c.totalRuns, c.totalHours)
  }

  function Trends(ks: seq<(int, int)>, m: map<(int, int), Cell>): (r: seq<SeasonalTrendMonth>)
    requires forall k :: k in ks ==> k in m
    ensures |r| == |ks|
    ensures forall i :: 0 <= i < |ks| ==> r[i] == TrendOf(ks[i], m[ks[i]])
  {
    seq(|ks|, i requires 0 <= i < |ks| => TrendOf(ks[i], m[ks[i]]))
  }

  /** The kept keys sorted by year, then month. */
  function SeasonalKeys(ss: seq<Sample>, years: seq<string>): (ks: seq<(int, int)>)
    ensures forall k :: k in ks <==> k in Group(ss, YearMonth) && YearText(k.0) in years
    ensures forall i, j :: 0 <= i < j < |ks| ==> YearMonthLe(ks[i], ks[j]) && ks[i] != ks[j]
  {
    OrderIsDomain(ss, YearMonth);
    YearMonthLeTotalPreorder();
    var kept := KeepYears(Order(ss, YearMonth), years);
    var ks := SortBy(kept, YearMonthLe);
    assert forall k :: k in ks <==> k in kept by {
      forall k ensures k in ks <==> k in kept {
        assert k in ks <==> k in multiset(ks);
        assert k in kept <==> k in multiset(kept);
      }
    }
    PermutationKeepsDistinct(ks, kept);
    ks
  }

  /** seasonalTrendsData of some samples for the kept years. */
  function Seasonal(ss: seq<Sample>, years: seq<string>): seq<SeasonalTrendMonth> {
    Trends(SeasonalKeys(ss, years), Group(ss, YearMonth))
  }

  /** Each seasonal entry is the key it was built from, with that key's sums. */
  lemma SeasonalEntries(ss: seq<Sample>, years: seq<string>)
    ensures var r := Seasonal(ss, years); var ks := SeasonalKeys(ss, years);
      && |r| == |ks|
      && forall i :: 0 <= i < |r| ==> (r[i].year, r[i].month) == ks[i]
  {
  }

  /** The seasonal entries are strictly increasing by year and then month, and of kept years only. */
  lemma SeasonalOrder(ss: seq<Sample>, years: seq<string>)
    ensures var r := Seasonal(ss, years);
      && (forall i, j :: 0 <= i < j < |r| ==>
        r[i].year < r[j].year || (r[i].year == r[j].year && r[i].month < r[j].month))
      && (forall i :: 0 <= i < |r| ==> YearText(r[i].year) in years)
  {
    SeasonalEntries(ss, years);
  }

  /** Each seasonal entry holds the sums of the runs of its month of its year, at least one. */
  lemma SeasonalCells(ss: seq<Sample>, years: seq<string>)
    ensures var r := Seasonal(ss, years);
      forall i :: 0 <= i < |r| ==>
        var c := CellOf(Select(ss, HasKey(YearMonth, (r[i].year, r[i].month))));
        c.totalRuns > 0 && r[i] == SeasonalTrendMonth(r[i].year, r[i].month, c.totalKm, c.totalRuns, c.totalHours)
  {
    SeasonalEntries(ss, years);
    GroupIsCells(ss, YearMonth);
    var ks := SeasonalKeys(ss, years);
    var r := Seasonal(ss, years);
    forall i | 0 <= i < |r|
      ensures var c := CellOf(Select(ss, HasKey(YearMonth, (r[i].year, r[i].month))));
        c.totalRuns > 0 && r[i] == SeasonalTrendMonth(r[i].year, r[i].month, c.totalKm, c.totalRuns, c.totalHours)
    {
      assert r[i] == TrendOf(ks[i], Group(ss, YearMonth)[ks[i]]);
    }
  }

  /** Every run of a kept year has the entry of its month. */
  lemma SeasonalCoversKeptYears(ss: seq<Sample>, years: seq<string>, s: Sample)
    requires s in ss && YearText(s.year) in years
    ensures var r := Seasonal(ss, years);
      exists i :: 0 <= i < |r| && r[i].year == s.year && r[i].month == s.month
  {
    SeasonalEntries(ss, years);
    GroupIsCells(ss, YearMonth);
    var ks := SeasonalKeys(ss, years);
    var r := Seasonal(ss, years);
    var k := YearMonth(s);
    assert s in Select(ss, HasKey(YearMonth, k));
    var i :| 0 <= i < |ks| && ks[i] == k;
    assert (r[i].year, r[i].month) == k;
  }

  // ---------------------------------------------------------------- streaks placeholder and the whole

  datatype ConsistencyData = ConsistencyData(
    currentStreak: nat,
    longestStreak: nat,
    totalConsistentWeeks: nat,
    totalWeeks: nat,
    minRunsPerWeek: nat)

  datatype StreakData = StreakData(
    currentStreak: nat,
    longestStreak: nat,
    withinCurrentStreak: bool,
    currentStreakStart: string,
    longestStreakStart: string,
    longestStreakEnd: string,
    weeklyConsistency: ConsistencyData)

  /** streaks.json as written: zeros, empty dates and the default threshold of 3 runs a week. */
  const PlaceholderStreaks := StreakData(0, 0, false, "", "", "", ConsistencyData(0, 0, 0, 0, 3))

  /** The contents of the four files the computation writes. */
  datatype AdvancedOutput = AdvancedOutput(
    yearOverYear: seq<YearOverYearMonth>,
    timeOfDay: seq<TimeOfDayPattern>,
    seasonalTrends: seq<SeasonalTrendMonth>,
    streaks: StreakData)

  /** Steps 3 and the sorted-years pass: the year-month map, then the twelve-month table. */
  method YearOverYearData(ss: seq<Sample>, years: seq<string>) returns (rows: seq<YearOverYearMonth>)
    requires years == SortedYears(ss)
    ensures rows == YearOverYear(ss)
  {
    var ym, _ := GroupLoop(ss, MonthYear);
    rows := BuildYearOverYear(ym, years);
  }

  /** Step 4: the bucket loop, then the four patterns. */
  method TimeOfDayData(ss: seq<Sample>) returns (r: seq<TimeOfDayPattern>)
    requires ss != []
    ensures r == TimeOfDay(ss)
  {
    var buckets := TimeOfDayBuckets(ss);
    r := seq(4, i requires 0 <= i < 4 => PatternOf(Slots[i], buckets[Slots[i]], |ss|));
  }

  /** Step 5: the seasonal map, its values filtered to the kept years and sorted by year and month. */
  method SeasonalTrendsData(ss: seq<Sample>, years: seq<string>) returns (r: seq<SeasonalTrendMonth>)
    ensures r == Seasonal(ss, years)
  {
    var seasonalMap, seasonalKeys := GroupLoop(ss, YearMonth);
    OrderIsDomain(ss, YearMonth);
    var kept := KeepYears(seasonalKeys, years);
    YearMonthLeTotalPreorder();
    var ordered := SortBy(kept, YearMonthLe);
    assert forall k :: k in ordered ==> k in multiset(kept);
    r := Trends(ordered, seasonalMap);
  }

  /**
   * computeAdvancedStats on the parsed activity files: nothing when there is no run;
   * otherwise the year-over-year table, the time-of-day buckets and the seasonal trends
   * of the runs sorted by start, and the placeholder streaks.
   */
  method ComputeAdvancedStats(activities: seq<Activity>) returns (r: Option<AdvancedOutput>)
    ensures r.None? <==> Runs(activities) == []
    ensures r.Some? ==> r.value.yearOverYear == YearOverYear(Samples(Stats.SortedRuns(activities)))
    ensures r.Some? ==> Runs(activities) != [] && r.value.timeOfDay == TimeOfDay(Samples(Stats.SortedRuns(activities)))
    ensures r.Some? ==> var ss := Samples(Stats.SortedRuns(activities));
      r.value.seasonalTrends == Seasonal(ss, SortedYears(ss))
    ensures r.Some? ==> r.value.streaks == PlaceholderStreaks
  {
    var runs := Stats.LoadRuns(activities);
    if |runs| == 0 {
      return None;
    }
    Stats.StartLeTotalPreorder();
    var sorted := SortBy(runs, Stats.StartLe);
    assert sorted == Stats.SortedRuns(activities);
    var ss := Samples(sorted);

    var years := SortedYears(ss);
    var yearOverYear := YearOverYearData(ss, years);
    var timeOfDay := TimeOfDayData(ss);
    var seasonal := SeasonalTrendsData(ss, years);
    r := Some(AdvancedOutput(yearOverYear, timeOfDay, seasonal, PlaceholderStreaks));
  }
}
