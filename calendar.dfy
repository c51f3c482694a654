/**
 * The proleptic Gregorian calendar as JavaScript's `Date` sees it in one local
 * timezone: civil dates, a serial day number, the normalisation that
 * `new Date(y, monthIndex, d)` and `setMonth` perform, and instants in
 * milliseconds.
 */
module Calendar {

  datatype Date = Date(year: int, month: int, day: int)

  const MsPerDay: int := 86_400_000

  predicate IsLeapYear(y: int) {
    y % 4 == 0 && (y % 100 != 0 || y % 400 == 0)
  }

  function DaysInMonth(y: int, m: int): (n: int)
    requires 1 <= m <= 12
    ensures 28 <= n <= 31
    ensures n == 29 <==> m == 2 && IsLeapYear(y)
  {
    if m == 2 then (if IsLeapYear(y) then 29 else 28)
    else if m == 4 || m == 6 || m == 9 || m == 11 then 30
    else 31
  }

  /** A date that exists in the calendar. */
  predicate Valid(d: Date) {
    1 <= d.month <= 12 && 1 <= d.day <= DaysInMonth(d.year, d.month)
  }

  function YearLength(y: int): int {
    if IsLeapYear(y) then 366 else 365
  }

  /** Days from 0001-01-01 to January 1st of year `y` (floor division keeps it right for y < 1). */
  function DaysBeforeYear(y: int): int {
    var p := y - 1;
    365 * p + p / 4 - p / 100 + p / 400
  }

  /** Days from January 1st to the first day of month `m` (m == 13 gives the year's length). */
  function DaysBeforeMonth(y: int, m: int): int
    requires 1 <= m <= 13
  {
    var base :=
      if m == 1 then 0 else if m == 2 then 31 else if m == 3 then 59
      else if m == 4 then 90 else if m == 5 then 120 else if m == 6 then 151
      else if m == 7 then 181 else if m == 8 then 212 else if m == 9 then 243
      else if m == 10 then 273 else if m == 11 then 304 else if m == 12 then 334
      else 365;
    base + (if m > 2 && IsLeapYear(y) then 1 else 0)
  }

  /** The serial day of a date: 0 is 0001-01-01. */
  function DayNumber(d: Date): int
    requires 1 <= d.month <= 12
  {
    DaysBeforeYear(d.year) + DaysBeforeMonth(d.year, d.month) + d.day - 1
  }

  /** The local midnight that starts a date, in milliseconds. */
  function Midnight(d: Date): int
    requires 1 <= d.month <= 12
  {
    DayNumber(d) * MsPerDay
  }

  function NextMonthOf(y: int, m: int): (r: (int, int))
    requires 1 <= m <= 12
    ensures 1 <= r.1 <= 12
  {
    if m == 12 then (y + 1, 1) else (y, m + 1)
  }

  function PrevMonthOf(y: int, m: int): (r: (int, int))
    requires 1 <= m <= 12
    ensures 1 <= r.1 <= 12
  {
    if m == 1 then (y - 1, 12) else (y, m - 1)
  }

  // ---------------------------------------------------------------------------
  // Arithmetic facts behind the day numbering

  lemma FloorStep(y: int, k: int)
    requires k == 4 || k == 100 || k == 400
    ensures y / k - (y - 1) / k == (if y % k == 0 then 1 else 0)
  {
  }

  lemma YearStep(y: int)
    ensures DaysBeforeYear(y + 1) == DaysBeforeYear(y) + YearLength(y)
  {
    FloorStep(y, 4);
    FloorStep(y, 100);
    FloorStep(y, 400);
  }

  lemma {:induction false} YearsApart(y1: int, y2: int)
    requires y1 <= y2
    ensures DaysBeforeYear(y1) + 365 * (y2 - y1) <= DaysBeforeYear(y2)
    decreases y2 - y1
  {
    if y1 < y2 {
      YearsApart(y1, y2 - 1);
      YearStep(y2 - 1);
    }
  }

  lemma MonthStep(y: int, m: int)
    requires 1 <= m <= 12
    ensures DaysBeforeMonth(y, m + 1) == DaysBeforeMonth(y, m) + DaysInMonth(y, m)
    ensures DaysBeforeMonth(y, 13) == YearLength(y)
  {
  }

  /** The first day of the following month comes DaysInMonth days after the first day of this one. */
  lemma MonthStartStep(y: int, m: int)
    requires 1 <= m <= 12
    ensures var (ny, nm) := NextMonthOf(y, m);
            DayNumber(Date(ny, nm, 1)) == DayNumber(Date(y, m, 1)) + DaysInMonth(y, m)
  {
    MonthStep(y, m);
    if m == 12 {
      YearStep(y);
    }
  }

  /** The day after a valid date has the next serial day number. */
  lemma NextDay(d: Date)
    requires Valid(d)
    ensures var n := if d.day < DaysInMonth(d.year, d.month) then Date(d.year, d.month, d.day + 1)
                     else var (ny, nm) := NextMonthOf(d.year, d.month); Date(ny, nm, 1);
            Valid(n) && DayNumber(n) == DayNumber(d) + 1
  {
    if d.day == DaysInMonth(d.year, d.month) {
      MonthStartStep(d.year, d.month);
    }
  }

  // ---------------------------------------------------------------------------
  // Order

  /** Calendar order of two dates, read field by field. */
  predicate Before(a: Date, b: Date) {
    a.year < b.year || (a.year == b.year && (a.month < b.month || (a.month == b.month && a.day < b.day)))
  }

  /** Later months start later in the year. */
  lemma {:induction false} MonthStartsGrow(y: int, m1: int, m2: int)
    requires 1 <= m1 <= m2 <= 13
    ensures DaysBeforeMonth(y, m1) <= DaysBeforeMonth(y, m2)
    decreases m2 - m1
  {
    if m1 < m2 {
      MonthStep(y, m1);
      MonthStartsGrow(y, m1 + 1, m2);
    }
  }

  lemma BeforeHasSmallerNumber(a: Date, b: Date)
    requires Valid(a) && Valid(b) && Before(a, b)
    ensures DayNumber(a) < DayNumber(b)
  {
    MonthStep(a.year, a.month);
    if a.year < b.year {
      YearStep(a.year);
      YearsApart(a.year + 1, b.year);
      MonthStartsGrow(a.year, a.month + 1, 13);
      MonthStartsGrow(b.year, 1, b.month);
    } else if a.month < b.month {
      MonthStartsGrow(a.year, a.month + 1, b.month);
    }
  }

  /** On valid dates, comparing serial day numbers is comparing the dates in the calendar. */
  lemma DayNumberOrder(a: Date, b: Date)
    requires Valid(a) && Valid(b)
    ensures Before(a, b) <==> DayNumber(a) < DayNumber(b)
    ensures a == b <==> DayNumber(a) == DayNumber(b)
  {
    if Before(a, b) {
      BeforeHasSmallerNumber(a, b);
    } else if Before(b, a) {
      BeforeHasSmallerNumber(b, a);
    }
  }

  /** Midnights compare as their day numbers do. */
  lemma MidnightOrder(a: Date, b: Date)
    requires 1 <= a.month <= 12 && 1 <= b.month <= 12
    ensures Midnight(a) <= Midnight(b) <==> DayNumber(a) <= DayNumber(b)
    ensures Midnight(a) == Midnight(b) <==> DayNumber(a) == DayNumber(b)
  {
    var x, y := DayNumber(a), DayNumber(b);
    if x <= y {
      assert x * MsPerDay <= y * MsPerDay;
    } else {
      assert y * MsPerDay < x * MsPerDay;
    }
  }

  // ---------------------------------------------------------------------------
  // The normalisation done by `new Date(y, monthIndex, d)` and `setMonth`

  /**
   * The date `d - 1` days after the first of month `m` of year `y`; a day
   * outside the month spills into the neighbouring months.
   */
  function Normalize(y: int, m: int, d: int): (r: Date)
    requires 1 <= m <= 12
    ensures Valid(r)
    ensures DayNumber(r) == DayNumber(Date(y, m, 1)) + d - 1
    decreases if d < 1 then 33 - d else d
  {
    if d < 1 then
      var (py, pm) := PrevMonthOf(y, m);
      MonthStartStep(py, pm);
      assert NextMonthOf(py, pm) == (y, m);
      var r := Normalize(py, pm, d + DaysInMonth(py, pm));
      assert DayNumber(r) == DayNumber(Date(py, pm, 1)) + DaysInMonth(py, pm) + d - 1;
      r
    else if d > DaysInMonth(y, m) then
      var (ny, nm) := NextMonthOf(y, m);
      MonthStartStep(y, m);
      var r := Normalize(ny, nm, d - DaysInMonth(y, m));
      assert DayNumber(r) == DayNumber(Date(ny, nm, 1)) + d - DaysInMonth(y, m) - 1;
      r
    else
      Date(y, m, d)
  }

  /**
   * MakeDay of section 21.4.1.28 of ECMA-262 on a full year and a zero-based
   * month: the month index is folded into the year first, then the day is
   * counted from the first of the month.
   */
  function MakeDate(y: int, monthIndex: int, d: int): (r: Date)
    ensures Valid(r)
    ensures DayNumber(r) == DayNumber(Date(y + monthIndex / 12, monthIndex % 12 + 1, 1)) + d - 1
  {
    Normalize(y + monthIndex / 12, monthIndex % 12 + 1, d)
  }

  /** A date that already exists is its own normalisation. */
  lemma MakeDateOfValid(d: Date)
    requires Valid(d)
    ensures MakeDate(d.year, d.month - 1, d.day) == d
  {
    assert (d.month - 1) / 12 == 0 && (d.month - 1) % 12 + 1 == d.month;
  }

  /**
   * The year the `Date` constructor passes to MakeDay when it is given the
   * parts of a date: a year from 0 through 99 stands for 1900 through 1999
   * (section 21.4.2.1 of ECMA-262).
   */
  function ConstructorYear(y: int): int {
    if 0 <= y <= 99 then 1900 + y else y
  }

  /** `new Date(y, monthIndex, d)`: the two-digit year is widened before the month and day are normalised. */
  function NewDate(y: int, monthIndex: int, d: int): (r: Date)
    ensures Valid(r)
    ensures DayNumber(r) == DayNumber(Date(ConstructorYear(y) + monthIndex / 12, monthIndex % 12 + 1, 1)) + d - 1
  {
    MakeDate(ConstructorYear(y), monthIndex, d)
  }

  /** A year from 0 through 99 names a year of the twentieth century, whatever the month and day. */
  lemma NewDateTwoDigitYear(y: int, m: int, d: int)
    requires 0 <= y <= 99 && Valid(Date(1900 + y, m, d))
    ensures NewDate(y, m - 1, d) == Date(1900 + y, m, d)
  {
    MakeDateOfValid(Date(1900 + y, m, d));
  }

  /** Any other year is taken as written: the parts of a valid date give that date back. */
  lemma NewDateOfValid(d: Date)
    requires Valid(d) && !(0 <= d.year <= 99)
    ensures NewDate(d.year, d.month - 1, d.day) == d
  {
    MakeDateOfValid(d);
  }

  /** Folding a one-based month index into the year, as MakeDay does, gives the following month. */
  lemma MonthFold(m: int)
    requires 1 <= m <= 12
    ensures m / 12 == (if m == 12 then 1 else 0)
    ensures m % 12 + 1 == (if m == 12 then 1 else m + 1)
  {
  }

  /**
   * `date.setMonth(date.getMonth() + 1)` on a valid date: the same day in the
   * next month or, when that month is too short, the surplus days at the
   * start of the month after. The day is never clipped to the month's end.
   */
  function StepMonth(d: Date): (r: Date)
    requires Valid(d)
    ensures Valid(r)
  {
    var (ny, nm) := NextMonthOf(d.year, d.month);
    if d.day <= DaysInMonth(ny, nm) then Date(ny, nm, d.day)
    else
      var (oy, om) := NextMonthOf(ny, nm);
      Date(oy, om, d.day - DaysInMonth(ny, nm))
  }

  /** The step is `new Date(y, m, d)` for the zero-based month after `d`'s, as `setMonth` normalises it. */
  lemma StepMonthIsSetMonth(d: Date)
    requires Valid(d)
    ensures StepMonth(d) == MakeDate(d.year, d.month, d.day)
  {
    var (ny, nm) := NextMonthOf(d.year, d.month);
    var byJs := MakeDate(d.year, d.month, d.day);
    MonthFold(d.month);
    assert Date(d.year + d.month / 12, d.month % 12 + 1, 1) == Date(ny, nm, 1);
    assert DayNumber(byJs) == DayNumber(Date(ny, nm, 1)) + d.day - 1;
    if d.day <= DaysInMonth(ny, nm) {
      SameMonthDays(ny, nm, 1, d.day);
    } else {
      var (oy, om) := NextMonthOf(ny, nm);
      MonthStartStep(ny, nm);
      SameMonthDays(oy, om, 1, d.day - DaysInMonth(ny, nm));
    }
    DayNumberOrder(StepMonth(d), byJs);
  }

  /** Within one month, day numbers differ as the days do. */
  lemma SameMonthDays(y: int, m: int, a: int, b: int)
    requires 1 <= m <= 12
    ensures DayNumber(Date(y, m, b)) == DayNumber(Date(y, m, a)) + b - a
  {
  }

  /** Stepping a month forward moves exactly as many days as the current month has. */
  lemma StepMonthDistance(d: Date)
    requires Valid(d)
    ensures DayNumber(StepMonth(d)) == DayNumber(d) + DaysInMonth(d.year, d.month)
  {
    StepMonthIsSetMonth(d);
    MonthStartStep(d.year, d.month);
    var (ny, nm) := NextMonthOf(d.year, d.month);
    MonthFold(d.month);
    assert Date(d.year + d.month / 12, d.month % 12 + 1, 1) == Date(ny, nm, 1);
  }

  /** The last day of a month, as `new Date(y, m, 0)` computes it for a one-based month `m`. */
  lemma LastDayOfMonth(y: int, m: int)
    requires 1 <= m <= 12
    ensures MakeDate(y, m, 0) == Date(y, m, DaysInMonth(y, m))
  {
    var (ny, nm) := NextMonthOf(y, m);
    assert y + m / 12 == ny && m % 12 + 1 == nm;
    MonthStartStep(y, m);
    DayNumberOrder(MakeDate(y, m, 0), Date(y, m, DaysInMonth(y, m)));
  }
}
