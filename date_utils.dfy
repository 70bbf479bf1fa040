/**
 * UTC calendar arithmetic (src/analytics/date-utils.ts) on instants in milliseconds since
 * the Unix epoch: the proleptic Gregorian calendar that JavaScript's Date uses, the
 * Monday-based week, month and year starts, the two label formats, and
 * Date.prototype.toISOString.
 */
module DateUtils {
  import opened Util

  const MsPerSecond := 1000
  const MsPerMinute := 60000
  const MsPerHour := 3600000
  const MsPerDay := 86400000

  /** Days since 1970-01-01, rounded down: the UTC calendar day of an instant. */
  function DayOf(t: int): (d: int)
    ensures d * MsPerDay <= t < d * MsPerDay + MsPerDay
  {
    t / MsPerDay
  }

  /** getUTCDay: 0 is Sunday; 1970-01-01 was a Thursday. */
  function WeekDay(day: int): (w: int)
    ensures 0 <= w < 7
  {
    (day + 4) % 7
  }

  lemma DayOfMidnight(x: int)
    ensures DayOf(x * MsPerDay) == x
    ensures (x * MsPerDay) % MsPerDay == 0
  {
  }

  /** getUTCHours. */
  function HourOf(t: int): (h: int)
    ensures 0 <= h < 24
    ensures DayOf(t) * MsPerDay + h * MsPerHour <= t < DayOf(t) * MsPerDay + (h + 1) * MsPerHour
  {
    var q := t / MsPerHour;
    assert q / 24 == DayOf(t);
    q % 24
  }

  predicate IsLeapYear(y: int) {
    y % 4 == 0 && (y % 100 != 0 || y % 400 == 0)
  }

  function YearLength(y: int): int {
    if IsLeapYear(y) then 366 else 365
  }

  /** Leap years among 1..n (counted as a signed offset for n < 1). */
  function LeapsThrough(n: int): int {
    n / 4 - n / 100 + n / 400
  }

  /** Days from 1970-01-01 to January 1st of year `y`. */
  function DaysBeforeYear(y: int): int {
    365 * (y - 1970) + LeapsThrough(y - 1) - LeapsThrough(1969)
  }

  /** How `y / d` steps from `y - 1` to `y`: up by one exactly at a multiple of `d`. */
  lemma DivStep4(y: int)
    ensures y / 4 == (y - 1) / 4 + (if y % 4 == 0 then 1 else 0)
  {
  }

  lemma DivStep100(y: int)
    ensures y / 100 == (y - 1) / 100 + (if y % 100 == 0 then 1 else 0)
  {
  }

  lemma DivStep400(y: int)
    ensures y / 400 == (y - 1) / 400 + (if y % 400 == 0 then 1 else 0)
  {
  }

  lemma LeapStep(y: int)
    ensures LeapsThrough(y) - LeapsThrough(y - 1) == if IsLeapYear(y) then 1 else 0
  {
    DivStep4(y);
    DivStep100(y);
    DivStep400(y);
    if y % 400 == 0 {
      Divides400(y);
    } else if y % 100 == 0 {
      Divides100(y);
    }
  }

  lemma Divides400(y: int)
    requires y % 400 == 0
    ensures y % 100 == 0 && y % 4 == 0
  {
    var k := y / 400;
    assert y == 100 * (4 * k);
    assert y == 4 * (100 * k);
  }

  lemma Divides100(y: int)
    requires y % 100 == 0
    ensures y % 4 == 0
  {
    var k := y / 100;
    assert y == 4 * (25 * k);
  }

  lemma YearStep(y: int)
    ensures DaysBeforeYear(y + 1) == DaysBeforeYear(y) + YearLength(y)
  {
    LeapStep(y);
  }

  lemma {:induction false} DaysBeforeYearMonotone(a: int, b: int)
    requires a <= b
    ensures DaysBeforeYear(a) + 365 * (b - a) <= DaysBeforeYear(b)
    decreases b - a
  {
    if a < b {
      DaysBeforeYearMonotone(a, b - 1);
      YearStep(b - 1);
    }
  }

  lemma {:induction false} DaysBeforeYearAbove(k: nat)
    ensures DaysBeforeYear(1970 + k) <= 366 * k
  {
    if k > 0 {
      DaysBeforeYearAbove(k - 1);
      YearStep(1970 + k - 1);
    }
  }

  /** The year holding day `z`, searching upwards from a year that starts no later. */
  function FindYear(z: int, y: int): (r: int)
    requires DaysBeforeYear(y) <= z
    ensures DaysBeforeYear(r) <= z < DaysBeforeYear(r + 1)
    decreases z - DaysBeforeYear(y)
  {
    YearStep(y);
    if z < DaysBeforeYear(y + 1) then y else FindYear(z, y + 1)
  }

  /** The (proleptic Gregorian) year holding day `z`. */
  function YearOf(z: int): (r: int)
    ensures DaysBeforeYear(r) <= z < DaysBeforeYear(r + 1)
  {
    if z >= 0 then
      DaysBeforeYearAbove(z / 366);
      FindYear(z, 1970 + z / 366)
    else
      DaysBeforeYearMonotone(1970 + z / 365, 1970);
      FindYear(z, 1970 + z / 365)
  }

  lemma YearUnique(y1: int, y2: int, z: int)
    requires DaysBeforeYear(y1) <= z < DaysBeforeYear(y1 + 1)
    requires DaysBeforeYear(y2) <= z < DaysBeforeYear(y2 + 1)
    ensures y1 == y2
  {
    if y1 < y2 {
      DaysBeforeYearMonotone(y1 + 1, y2);
    } else if y2 < y1 {
      DaysBeforeYearMonotone(y2 + 1, y1);
    }
  }

  /** Days in year `y` before the first of month `m`; month 13 stands for the year's end. */
  function DaysBeforeMonth(y: int, m: int): (d: int)
    requires 1 <= m <= 13
    ensures m == 1 ==> d == 0
    ensures m == 13 ==> d == YearLength(y)
  {
    [0, 31, 59, 90, 120, 151, 181, 212, 243, 273, 304, 334, 365][m - 1]
      + (if m > 2 && IsLeapYear(y) then 1 else 0)
  }

  lemma DaysBeforeMonthIncreasing(y: int, a: int, b: int)
    requires 1 <= a < b <= 13
    ensures DaysBeforeMonth(y, a) + 28 <= DaysBeforeMonth(y, b)
  {
  }

  function MonthLength(y: int, m: int): (n: int)
    requires 1 <= m <= 12
    ensures 28 <= n <= 31
  {
    DaysBeforeMonth(y, m + 1) - DaysBeforeMonth(y, m)
  }

  function FindMonth(y: int, dayOfYear: int, m: int): (r: int)
    requires 1 <= m <= 12
    requires DaysBeforeMonth(y, m) <= dayOfYear < YearLength(y)
    ensures m <= r <= 12
    ensures DaysBeforeMonth(y, r) <= dayOfYear < DaysBeforeMonth(y, r + 1)
    decreases 12 - m
  {
    if dayOfYear < DaysBeforeMonth(y, m + 1) then m else FindMonth(y, dayOfYear, m + 1)
  }

  /** A calendar date: month 1..12, day of month from 1. */
  datatype Civil = Civil(year: int, month: int, day: int)

  predicate ValidCivil(c: Civil) {
    1 <= c.month <= 12 && 1 <= c.day <= MonthLength(c.year, c.month)
  }

  /** getUTCFullYear, getUTCMonth() + 1 and getUTCDate of a day. */
  function CivilOfDay(z: int): (c: Civil)
    ensures ValidCivil(c)
    ensures DaysBeforeYear(c.year) <= z < DaysBeforeYear(c.year + 1)
    ensures z == DaysBeforeYear(c.year) + DaysBeforeMonth(c.year, c.month) + c.day - 1
  {
    var y := YearOf(z);
    YearStep(y);
    var m := FindMonth(y, z - DaysBeforeYear(y), 1);
    Civil(y, m, z - DaysBeforeYear(y) - DaysBeforeMonth(y, m) + 1)
  }

  /** The day number of a calendar date (Date.UTC, in days). */
  function DayOfCivil(c: Civil): int
    requires ValidCivil(c)
  {
    DaysBeforeYear(c.year) + DaysBeforeMonth(c.year, c.month) + c.day - 1
  }

  lemma DayOfCivilOfDay(z: int)
    ensures DayOfCivil(CivilOfDay(z)) == z
  {
  }

  /** Within one year, the day of the year determines month and day of month. */
  lemma MonthDayUnique(y: int, m1: int, d1: int, m2: int, d2: int)
    requires ValidCivil(Civil(y, m1, d1)) && ValidCivil(Civil(y, m2, d2))
    requires DaysBeforeMonth(y, m1) + d1 == DaysBeforeMonth(y, m2) + d2
    ensures m1 == m2 && d1 == d2
  {
    if m1 < m2 {
      DaysBeforeMonthIncreasing(y, m1 + 1, m2);
    } else if m2 < m1 {
      DaysBeforeMonthIncreasing(y, m2 + 1, m1);
    }
  }

  lemma CivilOfDayOfCivil(c: Civil)
    requires ValidCivil(c)
    ensures CivilOfDay(DayOfCivil(c)) == c
  {
    var z := DayOfCivil(c);
    YearStep(c.year);
    assert DaysBeforeMonth(c.year, c.month + 1) <= YearLength(c.year) by {
      if c.month < 12 {
        DaysBeforeMonthIncreasing(c.year, c.month + 1, 13);
      }
    }
    var d := CivilOfDay(z);
    YearUnique(d.year, c.year, z);
    MonthDayUnique(c.year, d.month, d.day, c.month, c.day);
  }

  /** The calendar date of an instant. */
  function CivilOf(t: int): Civil {
    CivilOfDay(DayOf(t))
  }

  /** getWeekStart: Monday 00:00:00.000 UTC of the week holding `t`. */
  function GetWeekStart(t: int): (r: int)
    ensures r % MsPerDay == 0
    ensures WeekDay(DayOf(r)) == 1
    ensures r <= t < r + 7 * MsPerDay
  {
    var day := DayOf(t);
    var dow := WeekDay(day);
    var offset := if dow == 0 then -6 else 1 - dow;
    (day + offset) * MsPerDay
  }

  /** Weeks since the Monday before the epoch: the week index the week start encodes. */
  function WeekIndex(t: int): int {
    (DayOf(t) + 3) / 7
  }

  lemma WeekStartIsWeekIndex(t: int)
    ensures GetWeekStart(t) == (7 * WeekIndex(t) - 3) * MsPerDay
  {
  }

  /** Two instants share a week start exactly when they are in the same Monday-based week. */
  lemma SameWeekStart(t: int, u: int)
    ensures GetWeekStart(t) == GetWeekStart(u) <==> WeekIndex(t) == WeekIndex(u)
  {
    WeekStartIsWeekIndex(t);
    WeekStartIsWeekIndex(u);
  }

  lemma WeekStartIdempotent(t: int)
    ensures GetWeekStart(GetWeekStart(t)) == GetWeekStart(t)
  {
    WeekStartIsWeekIndex(t);
    WeekStartIsWeekIndex(GetWeekStart(t));
  }

  /** getMonthStart: the first of the month of `t`, 00:00:00.000 UTC. */
  function GetMonthStart(t: int): (r: int)
    ensures r % MsPerDay == 0 && r <= t
    ensures CivilOf(r) == Civil(CivilOf(t).year, CivilOf(t).month, 1)
  {
    var c := CivilOf(t);
    var first := DayOfCivil(Civil(c.year, c.month, 1));
    CivilOfDayOfCivil(Civil(c.year, c.month, 1));
    DayOfMidnight(first);
    first * MsPerDay
  }

  /** getYearStart: January 1st of the year of `t`, 00:00:00.000 UTC. */
  function GetYearStart(t: int): (r: int)
    ensures r % MsPerDay == 0 && r <= t
    ensures CivilOf(r) == Civil(CivilOf(t).year, 1, 1)
  {
    var c := CivilOf(t);
    var first := DayOfCivil(Civil(c.year, 1, 1));
    CivilOfDayOfCivil(Civil(c.year, 1, 1));
    DayOfMidnight(first);
    first * MsPerDay
  }

  /** Two instants share a month start exactly when they share year and month. */
  lemma SameMonthStart(t: int, u: int)
    ensures GetMonthStart(t) == GetMonthStart(u) <==>
      CivilOf(t).year == CivilOf(u).year && CivilOf(t).month == CivilOf(u).month
  {
  }

  lemma SameYearStart(t: int, u: int)
    ensures GetYearStart(t) == GetYearStart(u) <==> CivilOf(t).year == CivilOf(u).year
  {
  }

  /** Position of the first `sep` in `s` (|s| when there is none). */
  function IndexOfChar(s: string, sep: char): nat
  {
    if |s| == 0 then 0 else if s[0] == sep then 0 else 1 + IndexOfChar(s[1..], sep)
  }

  lemma {:induction false} IndexOfCharAfter(a: string, b: string, sep: char)
    requires sep !in a
    ensures IndexOfChar(a + [sep] + b, sep) == |a|
  {
    if |a| > 0 {
      assert (a + [sep] + b)[1..] == a[1..] + [sep] + b;
      IndexOfCharAfter(a[1..], b, sep);
    }
  }

  /** A string split at the first occurrence of a separator that neither left part holds. */
  lemma SplitAtSeparator(a: string, b: string, c: string, d: string, sep: char)
    requires sep !in a && sep !in c
    requires a + [sep] + b == c + [sep] + d
    ensures a == c && b == d
  {
    var s := a + [sep] + b;
    IndexOfCharAfter(a, b, sep);
    IndexOfCharAfter(c, d, sep);
    assert a == s[..|a|] && c == s[..|c|];
    assert b == s[|a| + 1..] && d == s[|c| + 1..];
  }

  lemma DigitsHaveNo(n: nat, sep: char)
    requires !IsDigit(sep)
    ensures sep !in NatToString(n)
  {
  }

  function WeekLabelOf(month: nat, day: nat): string {
    "Week of " + NatToString(month) + "/" + NatToString(day)
  }

  lemma WeekLabelOfInjective(m1: nat, d1: nat, m2: nat, d2: nat)
    requires WeekLabelOf(m1, d1) == WeekLabelOf(m2, d2)
    ensures m1 == m2 && d1 == d2
  {
    var l1, l2 := WeekLabelOf(m1, d1), WeekLabelOf(m2, d2);
    assert l1[8..] == NatToString(m1) + ['/'] + NatToString(d1);
    assert l2[8..] == NatToString(m2) + ['/'] + NatToString(d2);
    DigitsHaveNo(m1, '/');
    DigitsHaveNo(m2, '/');
    SplitAtSeparator(NatToString(m1), NatToString(d1), NatToString(m2), NatToString(d2), '/');
    NatToStringInjective(m1, m2);
    NatToStringInjective(d1, d2);
  }

  /** formatWeekLabel: "Week of M/D", month and day of month without padding. */
  function FormatWeekLabel(t: int): string {
    WeekLabelOf(CivilOf(t).month, CivilOf(t).day)
  }

  /** The week label names the month and day of the instant, and nothing else. */
  lemma FormatWeekLabelInjective(t: int, u: int)
    ensures FormatWeekLabel(t) == FormatWeekLabel(u) <==>
      CivilOf(t).month == CivilOf(u).month && CivilOf(t).day == CivilOf(u).day
  {
    var a, b := CivilOf(t), CivilOf(u);
    if FormatWeekLabel(t) == FormatWeekLabel(u) {
      WeekLabelOfInjective(a.month, a.day, b.month, b.day);
    }
  }

  const MonthNames: seq<string> :=
    ["Jan", "Feb", "Mar", "Apr", "May", "Jun", "Jul", "Aug", "Sep", "Oct", "Nov", "Dec"]

  function MonthLabelOf(year: int, month: int): string
    requires 1 <= month <= 12
  {
    MonthNames[month - 1] + " " + IntToString(year)
  }

  lemma MonthLabelOfInjective(y1: int, m1: int, y2: int, m2: int)
    requires 1 <= m1 <= 12 && 1 <= m2 <= 12
    requires MonthLabelOf(y1, m1) == MonthLabelOf(y2, m2)
    ensures y1 == y2 && m1 == m2
  {
    var l1, l2 := MonthLabelOf(y1, m1), MonthLabelOf(y2, m2);
    assert l1[..3] == MonthNames[m1 - 1] && l2[..3] == MonthNames[m2 - 1];
    assert l1[4..] == IntToString(y1) && l2[4..] == IntToString(y2);
    IntToStringInjective(y1, y2);
  }

  /** formatMonthLabel: the three-letter month name, a space and the year, as in "Jan 2024". */
  function FormatMonthLabel(t: int): string {
    MonthLabelOf(CivilOf(t).year, CivilOf(t).month)
  }

  /** The month label names the year and month of the instant, and nothing else. */
  lemma FormatMonthLabelInjective(t: int, u: int)
    ensures FormatMonthLabel(t) == FormatMonthLabel(u) <==>
      CivilOf(t).year == CivilOf(u).year && CivilOf(t).month == CivilOf(u).month
  {
    var a, b := CivilOf(t), CivilOf(u);
    if FormatMonthLabel(t) == FormatMonthLabel(u) {
      MonthLabelOfInjective(a.year, a.month, b.year, b.month);
    }
  }

  /** The year as toISOString writes it: four digits, or a sign and six digits outside 0..9999. */
  function IsoYear(y: int): string {
    if 0 <= y <= 9999 then PadZeros(NatToString(y), 4)
    else if y < 0 then "-" + PadZeros(NatToString(-y), 6)
    else "+" + PadZeros(NatToString(y), 6)
  }

  /** Date.prototype.toISOString: "YYYY-MM-DDTHH:mm:ss.sssZ". */
  function IsoString(t: int): string {
    var c := CivilOf(t);
    var msOfDay := t - DayOf(t) * MsPerDay;
    IsoYear(c.year) + "-" + PadZeros(NatToString(c.month), 2) + "-" + PadZeros(NatToString(c.day), 2)
      + "T" + PadZeros(NatToString(msOfDay / MsPerHour), 2)
      + ":" + PadZeros(NatToString(msOfDay / MsPerMinute % 60), 2)
      + ":" + PadZeros(NatToString(msOfDay / MsPerSecond % 60), 2)
      + "." + PadZeros(NatToString(msOfDay % 1000), 3) + "Z"
  }

  /** The ISO text of an instant ends in "Z". */
  lemma IsoStringEndsInZ(t: int)
    ensures EndsWith(IsoString(t), "Z")
  {
    var s := IsoString(t);
    assert s[|s| - 1] == 'Z';
  }
}
