/** The working-day calendar: UTC dates as ECMA-262 section 21.4.1 computes them, weekends and fixed
    public holidays, and the loop that adds n working days. */
module WorkingDays {
  import opened Common

  const MS_PER_DAY: nat := 86_400_000

  /** Whole days since 1970-01-01 for a time value in milliseconds. */
  function Day(t: int): int {
    t / MS_PER_DAY
  }

  // ---------------------------------------------------------------------
  // Civil dates from day numbers
  // ---------------------------------------------------------------------

  predicate IsLeap(y: int) {
    y % 4 == 0 && (y % 100 != 0 || y % 400 == 0)
  }

  function LeapDay(y: int): nat {
    if IsLeap(y) then 1 else 0
  }

  /** The day number of January 1st, year by year from 1970. */
  function DayFromYear(y: int): int
    decreases if y >= 1970 then y - 1970 else 1970 - y
  {
    if y == 1970 then 0
    else if y > 1970 then DayFromYear(y - 1) + 365 + LeapDay(y - 1)
    else DayFromYear(y + 1) - 365 - LeapDay(y)
  }

  lemma YearLength(y: int)
    ensures DayFromYear(y + 1) == DayFromYear(y) + 365 + LeapDay(y)
  {
  }

  function YearFormula(y: int): int {
    365 * (y - 1970) + (y - 1969) / 4 - (y - 1901) / 100 + (y - 1601) / 400
  }

  lemma FormulaAdvances(y: int)
    ensures YearFormula(y + 1) == YearFormula(y) + 365 + LeapDay(y)
  {
    Fours(y);
    Hundreds(y);
    FourHundreds(y);
    LeapParts(y);
  }

  lemma LeapParts(y: int)
    ensures LeapDay(y) == (if y % 4 == 0 then 1 else 0) - (if y % 100 == 0 then 1 else 0)
        + (if y % 400 == 0 then 1 else 0)
  {
    if y % 100 == 0 {
      assert y == 4 * (25 * (y / 100));
    }
    if y % 400 == 0 {
      assert y == 100 * (4 * (y / 400));
    }
  }

  lemma Fours(y: int)
    ensures (y + 1 - 1969) / 4 - (y - 1969) / 4 == if y % 4 == 0 then 1 else 0
  {
  }

  lemma Hundreds(y: int)
    ensures (y + 1 - 1901) / 100 - (y - 1901) / 100 == if y % 100 == 0 then 1 else 0
  {
  }

  lemma FourHundreds(y: int)
    ensures (y + 1 - 1601) / 400 - (y - 1601) / 400 == if y % 400 == 0 then 1 else 0
  {
  }

  /** The closed form of ECMA-262 gives the same day numbers. */
  lemma {:induction false} DayFromYearFormula(y: int)
    ensures DayFromYear(y) == YearFormula(y)
    decreases if y >= 1970 then y - 1970 else 1970 - y
  {
    if y > 1970 {
      DayFromYearFormula(y - 1);
      FormulaAdvances(y - 1);
    } else if y < 1970 {
      DayFromYearFormula(y + 1);
      FormulaAdvances(y);
    }
  }

  function YearFrom(n: int, y: int): (r: int)
    requires DayFromYear(y) <= n
    ensures DayFromYear(r) <= n < DayFromYear(r + 1)
    decreases n - DayFromYear(y)
  {
    YearLength(y);
    if n < DayFromYear(y + 1) then y else YearFrom(n, y + 1)
  }

  function YearBack(n: int, y: int): (r: int)
    requires n < DayFromYear(y + 1)
    ensures DayFromYear(r) <= n < DayFromYear(r + 1)
    decreases DayFromYear(y + 1) - n
  {
    YearLength(y);
    if DayFromYear(y) <= n then y else YearBack(n, y - 1)
  }

  function YearOf(n: int): (y: int)
    ensures DayFromYear(y) <= n < DayFromYear(y + 1)
  {
    if n >= 0 then YearFrom(n, 1970) else YearBack(n, 1969)
  }

  lemma {:induction false} YearsAscend(y: int, y': int)
    requires y <= y'
    ensures DayFromYear(y) <= DayFromYear(y')
    decreases y' - y
  {
    if y < y' {
      YearLength(y);
      YearsAscend(y + 1, y');
    }
  }

  lemma YearUnique(n: int, y: int)
    requires DayFromYear(y) <= n < DayFromYear(y + 1)
    ensures YearOf(n) == y
  {
    var z := YearOf(n);
    if z < y {
      YearsAscend(z + 1, y);
    } else if y < z {
      YearsAscend(y + 1, z);
    }
  }

  function DayWithinYear(n: int): nat {
    n - DayFromYear(YearOf(n))
  }

  /** Days of the year before month `m` (0 = January). */
  function MonthStart(m: nat, leap: nat): nat {
    match m
    case 0 => 0
    case 1 => 31
    case 2 => 59 + leap
    case 3 => 90 + leap
    case 4 => 120 + leap
    case 5 => 151 + leap
    case 6 => 181 + leap
    case 7 => 212 + leap
    case 8 => 243 + leap
    case 9 => 273 + leap
    case 10 => 304 + leap
    case 11 => 334 + leap
    case _ => 365 + leap
  }

  function MonthIn(d: nat, leap: nat): (m: nat)
    requires d < 365 + leap && leap <= 1
    ensures m < 12 && MonthStart(m, leap) <= d < MonthStart(m + 1, leap)
  {
    if d < 31 then 0 else if d < 59 + leap then 1 else if d < 90 + leap then 2
    else if d < 120 + leap then 3 else if d < 151 + leap then 4 else if d < 181 + leap then 5
    else if d < 212 + leap then 6 else if d < 243 + leap then 7 else if d < 273 + leap then 8
    else if d < 304 + leap then 9 else if d < 334 + leap then 10 else 11
  }

  datatype Civil = Civil(year: int, month: nat, day: nat)

  /** The date with ordinal `d` (from 0) in year `y`, month and day counted from 1. */
  function CivilIn(y: int, d: nat): Civil
    requires d < 365 + LeapDay(y)
  {
    var m := MonthIn(d, LeapDay(y));
    Civil(y, m + 1, d - MonthStart(m, LeapDay(y)) + 1)
  }

  /** The civil date of day number `n`. */
  function CivilOf(n: int): Civil {
    YearLength(YearOf(n));
    CivilIn(YearOf(n), DayWithinYear(n))
  }

  function DaysInMonth(month: nat, year: int): nat {
    if month == 2 then 28 + LeapDay(year)
    else if month == 4 || month == 6 || month == 9 || month == 11 then 30 else 31
  }

  function Successor(d: Civil): Civil {
    if d.day < DaysInMonth(d.month, d.year) then d.(day := d.day + 1)
    else if d.month < 12 then Civil(d.year, d.month + 1, 1)
    else Civil(d.year + 1, 1, 1)
  }

  lemma OrdinalAdvances(n: int)
    ensures var y, d := YearOf(n), DayWithinYear(n);
            if d + 1 < 365 + LeapDay(y) then YearOf(n + 1) == y && DayWithinYear(n + 1) == d + 1
            else YearOf(n + 1) == y + 1 && DayWithinYear(n + 1) == 0
  {
    var y := YearOf(n);
    YearLength(y);
    YearLength(y + 1);
    YearUnique(n + 1, if n + 1 < DayFromYear(y + 1) then y else y + 1);
  }

  lemma SuccessorIn(y: int, d: nat)
    requires d < 365 + LeapDay(y)
    ensures Successor(CivilIn(y, d)) == if d + 1 < 365 + LeapDay(y) then CivilIn(y, d + 1) else Civil(y + 1, 1, 1)
  {
    NextInYear(d, LeapDay(y), y);
  }

  /** The day-number arithmetic is the civil calendar: it starts at 1970-01-01 and each next number
      is the next date. */
  lemma CalendarAdvances(n: int)
    ensures CivilOf(0) == Civil(1970, 1, 1)
    ensures CivilOf(n + 1) == Successor(CivilOf(n))
  {
    EpochDate();
    NextDate(n);
  }

  lemma EpochDate()
    ensures CivilOf(0) == Civil(1970, 1, 1)
  {
    YearUnique(0, 1970);
  }

  lemma NextDate(n: int)
    ensures CivilOf(n + 1) == Successor(CivilOf(n))
  {
    YearLength(YearOf(n));
    YearLength(YearOf(n + 1));
    OrdinalAdvances(n);
    SuccessorIn(YearOf(n), DayWithinYear(n));
  }

  lemma NextInYear(d: nat, leap: nat, y: int)
    requires leap == LeapDay(y) && d < 365 + leap
    ensures var m := MonthIn(d, leap);
            && DaysInMonth(m + 1, y) == MonthStart(m + 1, leap) - MonthStart(m, leap)
            && (d + 1 == 365 + leap ==> m == 11)
            && (d + 1 < 365 + leap ==> MonthIn(d + 1, leap) == if d + 1 < MonthStart(m + 1, leap) then m else m + 1)
  {
  }

  // ---------------------------------------------------------------------
  // Working days
  // ---------------------------------------------------------------------

  const FIXED_HOLIDAYS: set<(nat, nat)> :=
    {(1, 1), (1, 26), (3, 8), (5, 1), (6, 3), (6, 9), (10, 9), (12, 25), (12, 26)}

  /** 0 is Sunday; day number 0 was a Thursday. */
  function WeekDay(n: int): nat {
    (n + 4) % 7
  }

  predicate IsWeekend(n: int) {
    WeekDay(n) == 0 || WeekDay(n) == 6
  }

  /** The weekday of a civil date by the usual rule: the year, counted from March, with its leap days, a
      number for the month, and the day. */
  function DateWeekDay(c: Civil): int
    requires 1 <= c.month <= 12
  {
    var y := if c.month < 3 then c.year - 1 else c.year;
    (y + y / 4 - y / 100 + y / 400 + [0, 3, 2, 5, 0, 3, 5, 1, 4, 6, 2, 4][c.month - 1] + c.day) % 7
  }

  lemma SameRemainder(a: int, b: int, k: int)
    requires a == b + 7 * k
    ensures a % 7 == b % 7
  {
  }

  /** Leap years before a year, by the two ways of counting them. */
  lemma LeapsBefore(y: int)
    ensures YearFormula(y) == 365 * (y - 1970) + (y - 1) / 4 - (y - 1) / 100 + (y - 1) / 400 - 477
  {
    assert (y - 1969) / 4 == (y - 1) / 4 - 492;
    assert (y - 1901) / 100 == (y - 1) / 100 - 19;
    assert (y - 1601) / 400 == (y - 1) / 400 - 4;
  }

  lemma LeapStep(y: int)
    ensures y / 4 - y / 100 + y / 400 == (y - 1) / 4 - (y - 1) / 100 + (y - 1) / 400 + LeapDay(y)
  {
    LeapParts(y);
    StepOf(y, 4);
    StepOf(y, 100);
    StepOf(y, 400);
  }

  lemma StepOf(y: int, k: int)
    requires k == 4 || k == 100 || k == 400
    ensures y / k == (y - 1) / k + if y % k == 0 then 1 else 0
  {
  }

  /** The month's number is its days before, modulo seven, less the March shift. */
  lemma MonthNumber(m: nat, leap: nat)
    requires 1 <= m <= 12 && leap <= 1
    ensures var t := [0, 3, 2, 5, 0, 3, 5, 1, 4, 6, 2, 4][m - 1];
            exists k: int :: MonthStart(m - 1, leap) == t + 7 * k + if m < 3 then 0 else 1 + leap
  {
    var t := [0, 3, 2, 5, 0, 3, 5, 1, 4, 6, 2, 4][m - 1];
    var k: int := [0, 4, 8, 12, 17, 21, 25, 30, 34, 38, 43, 47][m - 1];
    assert MonthStart(m - 1, leap) == t + 7 * k + if m < 3 then 0 else 1 + leap;
  }

  /** Day numbers carry the weekday of their civil date, whatever the year. */
  lemma WeekDayOfDate(n: int)
    ensures 1 <= CivilOf(n).month <= 12 && WeekDay(n) == DateWeekDay(CivilOf(n))
  {
    var y, d := YearOf(n), DayWithinYear(n);
    YearLength(y);
    DayFromYearFormula(y);
    CivilParts(y, d);
    WeekDayIn(n, y, CivilIn(y, d).month, CivilIn(y, d).day);
  }

  lemma CivilParts(y: int, d: nat)
    requires d < 365 + LeapDay(y)
    ensures var c := CivilIn(y, d);
            c.year == y && 1 <= c.month <= 12 && d == MonthStart(c.month - 1, LeapDay(y)) + c.day - 1
  {
  }

  lemma WeekDayIn(n: int, y: int, m: nat, day: nat)
    requires 1 <= m <= 12 && n == YearFormula(y) + MonthStart(m - 1, LeapDay(y)) + day - 1
    ensures WeekDay(n) == DateWeekDay(Civil(y, m, day))
  {
    var t := [0, 3, 2, 5, 0, 3, 5, 1, 4, 6, 2, 4][m - 1];
    MonthNumber(m, LeapDay(y));
    var k: int :| MonthStart(m - 1, LeapDay(y)) == t + 7 * k + if m < 3 then 0 else 1 + LeapDay(y);
    LeapsBefore(y);
    LeapStep(y);
    var y' := if m < 3 then y - 1 else y;
    var sum := y' + y' / 4 - y' / 100 + y' / 400 + t + day;
    assert n + 4 == sum + 7 * (k + 52 * y - 102789);
    SameRemainder(n + 4, sum, k + 52 * y - 102789);
  }

  /** So the days off are Saturdays and Sundays. */
  lemma WeekendByDate(n: int)
    ensures 1 <= CivilOf(n).month <= 12
    ensures IsWeekend(n) <==> DateWeekDay(CivilOf(n)) == 6 || DateWeekDay(CivilOf(n)) == 0
  {
    WeekDayOfDate(n);
  }

  /** 1 January 2000 was a Saturday, and weeks have seven days. */
  lemma WeekendAnchor(n: int)
    requires CivilOf(n) == Civil(2000, 1, 1)
    ensures IsWeekend(n) && IsWeekend(n + 1) && !IsWeekend(n + 2) && !IsWeekend(n + 3)
    ensures !IsWeekend(n + 4) && !IsWeekend(n + 5) && !IsWeekend(n + 6)
  {
    WeekDayOfDate(n);
    FirstOf2000();
    FromSaturday(n);
  }

  lemma FirstOf2000()
    ensures DateWeekDay(Civil(2000, 1, 1)) == 6
  {
    assert 1999 / 4 == 499 && 1999 / 100 == 19 && 1999 / 400 == 4;
    assert (1999 + 499 - 19 + 4 + 0 + 1) % 7 == 6;
  }

  lemma WeekRepeats(n: int)
    ensures IsWeekend(n + 7) <==> IsWeekend(n)
  {
  }

  lemma FromSaturday(n: int)
    requires WeekDay(n) == 6
    ensures IsWeekend(n) && IsWeekend(n + 1) && !IsWeekend(n + 2) && !IsWeekend(n + 3)
    ensures !IsWeekend(n + 4) && !IsWeekend(n + 5) && !IsWeekend(n + 6)
  {
  }

  predicate IsHoliday(n: int) {
    (CivilOf(n).month, CivilOf(n).day) in FIXED_HOLIDAYS
  }

  /** Where the holidays fall in the year. */
  predicate HolidayOrdinal(d: nat, leap: nat) {
    d == 0 || d == 25 || d == 66 + leap || d == 120 + leap || d == 153 + leap
    || d == 159 + leap || d == 281 + leap || d == 358 + leap || d == 359 + leap
  }

  lemma HolidayByOrdinal(n: int)
    ensures IsHoliday(n) <==> HolidayOrdinal(DayWithinYear(n), LeapDay(YearOf(n)))
  {
    YearLength(YearOf(n));
    assert CivilOf(n) == CivilIn(YearOf(n), DayWithinYear(n));
  }

  lemma OrdinalAfter(n: int, k: nat)
    requires k <= 4
    ensures var y, d := YearOf(n), DayWithinYear(n) + k;
            if d < 365 + LeapDay(y) then YearOf(n + k) == y && DayWithinYear(n + k) == d
            else DayWithinYear(n + k) == d - 365 - LeapDay(y)
  {
    var y := YearOf(n);
    YearLength(y);
    YearLength(y + 1);
    YearUnique(n + k, if n + k < DayFromYear(y + 1) then y else y + 1);
  }

  lemma OrdinalsApart(n: int, k: nat)
    requires 2 <= k <= 4 && HolidayOrdinal(DayWithinYear(n), LeapDay(YearOf(n)))
    ensures !HolidayOrdinal(DayWithinYear(n + k), LeapDay(YearOf(n + k)))
  {
    OrdinalAfter(n, k);
  }

  /** A holiday calendar in which no two holidays are two, three or four days apart. */
  ghost predicate Spaced(holiday: int -> bool) {
    forall n, m :: 2 <= m - n <= 4 && holiday(n) ==> !holiday(m)
  }

  /** The fixed holidays are such a calendar, in every year and across every new year. */
  lemma FixedHolidaysSpaced()
    ensures Spaced(IsHoliday)
  {
    forall n, m | 2 <= m - n <= 4 && IsHoliday(n) ensures !IsHoliday(m) {
      HolidayByOrdinal(n);
      HolidayByOrdinal(m);
      OrdinalsApart(n, m - n);
    }
  }

  // ---------------------------------------------------------------------
  // Adding working days, for any spaced holiday calendar
  // ---------------------------------------------------------------------

  predicate IsWorkingDay(holiday: int -> bool, n: int) {
    !IsWeekend(n) && !holiday(n)
  }

  /** Any five consecutive dates contain a working day: three of them at least are weekdays, and the
      first and last of those three would be holidays two to four days apart. */
  lemma WorkingDayWithinFive(holiday: int -> bool, n: int)
    requires Spaced(holiday)
    ensures exists m :: n < m <= n + 5 && IsWorkingDay(holiday, m)
  {
    var first := if !IsWeekend(n + 1) then n + 1 else if !IsWeekend(n + 2) then n + 2 else n + 3;
    var last := if !IsWeekend(n + 5) then n + 5 else if !IsWeekend(n + 4) then n + 4 else n + 3;
    assert !IsWeekend(first) && !IsWeekend(last) && 2 <= last - first <= 4;
    assert IsWorkingDay(holiday, if holiday(first) then last else first);
  }

  ghost function NextWorkingDay(holiday: int -> bool, n: int): (m: int)
    requires Spaced(holiday)
    ensures n < m <= n + 5 && IsWorkingDay(holiday, m)
    ensures forall k :: n < k < m ==> !IsWorkingDay(holiday, k)
  {
    WorkingDayWithinFive(holiday, n);
    if IsWorkingDay(holiday, n + 1) then n + 1 else if IsWorkingDay(holiday, n + 2) then n + 2
    else if IsWorkingDay(holiday, n + 3) then n + 3 else if IsWorkingDay(holiday, n + 4) then n + 4 else n + 5
  }

  /** Working days in (lo, hi]. */
  function CountWorking(holiday: int -> bool, lo: int, hi: int): nat
    requires lo <= hi
    decreases hi - lo
  {
    if lo == hi then 0 else CountWorking(holiday, lo, hi - 1) + if IsWorkingDay(holiday, hi) then 1 else 0
  }

  /** `r` is `n` working days after `d`. */
  predicate IsResult(holiday: int -> bool, d: int, n: nat, r: int) {
    && d <= r && CountWorking(holiday, d, r) == n
    && (n > 0 ==> IsWorkingDay(holiday, r)) && (n == 0 ==> r == d)
  }

  /** The loop. It ends because a working day is always at most five days ahead. */
  method AddWorkingDaysOn(holiday: int -> bool, from: int, n: int) returns (result: Option<int>)
    requires Spaced(holiday)
    ensures n < 0 <==> result.None?
    ensures result.Some? ==>
              && IsResult(holiday, Day(from), n, Day(result.value))
              && Day(result.value) <= Day(from) + 5 * n
              && result.value % MS_PER_DAY == from % MS_PER_DAY
  {
    if n < 0 { return None; }
    var t, remaining := from, n;
    while remaining > 0
      invariant 0 <= remaining <= n
      invariant Day(from) <= Day(t) && t % MS_PER_DAY == from % MS_PER_DAY
      invariant CountWorking(holiday, Day(from), Day(t)) == n - remaining
      invariant remaining == 0 && n > 0 ==> IsWorkingDay(holiday, Day(t))
      invariant n == 0 ==> t == from
      invariant remaining == 0 ==> Day(t) <= Day(from) + 5 * n
      invariant remaining > 0 ==> NextWorkingDay(holiday, Day(t)) <= Day(from) + 5 * (n - remaining + 1)
      decreases remaining, NextWorkingDay(holiday, Day(t)) - Day(t)
    {
      ghost var today := Day(t);
      t := t + MS_PER_DAY;
      assert Day(t) == today + 1;
      if !IsWeekend(Day(t)) && !holiday(Day(t)) {
        remaining := remaining - 1;
      }
    }
    return Some(t);
  }

  /** addWorkingDays with the fixed public holidays. */
  method AddWorkingDays(from: int, n: int) returns (result: Option<int>)
    ensures n < 0 <==> result.None?
    ensures result.Some? ==>
              && IsResult(IsHoliday, Day(from), n, Day(result.value))
              && Day(result.value) <= Day(from) + 5 * n
              && result.value % MS_PER_DAY == from % MS_PER_DAY
  {
    FixedHolidaysSpaced();
    result := AddWorkingDaysOn(IsHoliday, from, n);
  }

  lemma {:induction false} CountAdds(holiday: int -> bool, a: int, b: int, c: int)
    requires a <= b <= c
    ensures CountWorking(holiday, a, c) == CountWorking(holiday, a, b) + CountWorking(holiday, b, c)
    decreases c - b
  {
    if b < c {
      CountAdds(holiday, a, b, c - 1);
    }
  }

  lemma ResultUnique(holiday: int -> bool, d: int, n: nat, r: int, r': int)
    requires IsResult(holiday, d, n, r) && IsResult(holiday, d, n, r')
    ensures r == r'
  {
    if r < r' {
      CountAdds(holiday, d, r, r');
    } else if r' < r {
      CountAdds(holiday, d, r', r);
    }
  }

  /** Adding a then b working days is adding a + b, and there is only one such day. */
  lemma AddingComposes(holiday: int -> bool, d: int, a: nat, m: int, b: nat, r: int, r': int)
    requires IsResult(holiday, d, a, m) && IsResult(holiday, m, b, r)
    ensures IsResult(holiday, d, a + b, r)
    ensures IsResult(holiday, d, a + b, r') ==> r' == r
  {
    CountAdds(holiday, d, m, r);
    if IsResult(holiday, d, a + b, r') {
      ResultUnique(holiday, d, a + b, r, r');
    }
  }
}
