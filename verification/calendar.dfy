/** The proleptic Gregorian calendar as JavaScript's `Date` computes it for
    local dates in years from 100 on (the `Date` constructor reads a year of
    0..99 as 1900..1999, which is not modelled here): day numbers, month lengths, weekdays, and the way the
    `Date(year, month, day)` constructor normalises an out-of-range month or
    day. Months are 0-based here, as in `getMonth()`. Day number 0 is
    0001-01-01, a Monday. */
module Calendar {

  predicate IsLeapYear(y: int)
  {
    y % 4 == 0 && (y % 100 != 0 || y % 400 == 0)
  }

  function YearLength(y: int): int
  {
    if IsLeapYear(y) then 366 else 365
  }

  /** Length of month `m` (0 = January) of year `y`. */
  function DaysInMonth(y: int, m: int): (n: int)
    requires 0 <= m < 12
    ensures 28 <= n <= 31
  {
    if m == 1 then (if IsLeapYear(y) then 29 else 28)
    else if m == 3 || m == 5 || m == 8 || m == 10 then 30
    else 31
  }

  /** Days of year `y` before the first of month `m`; `m == 12` gives the whole year. */
  function DaysBeforeMonth(y: int, m: int): int
    requires 0 <= m <= 12
  {
    (if m == 0 then 0 else if m == 1 then 31 else if m == 2 then 59
     else if m == 3 then 90 else if m == 4 then 120 else if m == 5 then 151
     else if m == 6 then 181 else if m == 7 then 212 else if m == 8 then 243
     else if m == 9 then 273 else if m == 10 then 304 else if m == 11 then 334
     else 365)
    + (if m >= 2 && IsLeapYear(y) then 1 else 0)
  }

  /** Days from 0001-01-01 to the first of January of year `y`. */
  function DaysBeforeYear(y: int): int
  {
    var z := y - 1;
    365 * z + z / 4 - z / 100 + z / 400
  }

  /** `Date(y, m, d)`: a month outside 0..11 moves into the neighbouring years
      (floor division), and the day is an offset from the first of the month,
      so day 0 is the last day of the previous month. */
  function MakeDay(y: int, m: int, d: int): int
  {
    var y' := y + m / 12;
    var m' := m % 12;
    DaysBeforeYear(y') + DaysBeforeMonth(y', m') + d - 1
  }

  /** `getDay()`: 0 = Sunday ... 6 = Saturday. */
  function Weekday(n: int): (w: int)
    ensures 0 <= w < 7
  {
    (n + 1) % 7
  }

  /** `Date(y, m, 1)` read back with `getFullYear()` and `getMonth()`. */
  function NormalizeMonth(y: int, m: int): (r: (int, int))
    ensures 0 <= r.1 < 12
    ensures 0 <= m < 12 ==> r == (y, m)
    ensures 12 * r.0 + r.1 == 12 * y + m
  {
    (y + m / 12, m % 12)
  }

  /** `new Date(year, month - 1, 1)`: the month shown before (y, m). */
  function PrevMonth(y: int, m: int): (r: (int, int))
    requires 0 <= m < 12
    ensures 0 <= r.1 < 12
    ensures m == 0 ==> r == (y - 1, 11)
    ensures m > 0 ==> r == (y, m - 1)
  {
    NormalizeMonth(y, m - 1)
  }

  /** `new Date(year, month + 1, 1)`: the month shown after (y, m). */
  function NextMonth(y: int, m: int): (r: (int, int))
    requires 0 <= m < 12
    ensures 0 <= r.1 < 12
    ensures m == 11 ==> r == (y + 1, 0)
    ensures m < 11 ==> r == (y, m + 1)
  {
    NormalizeMonth(y, m + 1)
  }

  /** Going back a month and then forward again, or the other way round, returns to the start. */
  lemma {:induction false} NavigationInverse(y: int, m: int)
    requires 0 <= m < 12
    ensures NextMonth(PrevMonth(y, m).0, PrevMonth(y, m).1) == (y, m)
    ensures PrevMonth(NextMonth(y, m).0, NextMonth(y, m).1) == (y, m)
  {
  }

  lemma {:induction false} Div4Step(z: int)
    ensures (z + 1) / 4 == z / 4 + (if (z + 1) % 4 == 0 then 1 else 0)
  {
  }

  lemma {:induction false} Div100Step(z: int)
    ensures (z + 1) / 100 == z / 100 + (if (z + 1) % 100 == 0 then 1 else 0)
  {
  }

  lemma {:induction false} Div400Step(z: int)
    ensures (z + 1) / 400 == z / 400 + (if (z + 1) % 400 == 0 then 1 else 0)
  {
  }

  /** The two month tables agree: month `m` spans `DaysInMonth(y, m)` days, and
      the twelve months together make up the year. */
  lemma {:induction false} MonthStep(y: int, m: int)
    requires 0 <= m < 12
    ensures DaysBeforeMonth(y, m + 1) == DaysBeforeMonth(y, m) + DaysInMonth(y, m)
    ensures DaysBeforeMonth(y, 12) == YearLength(y)
  {
  }

  /** A multiple of 100 is a multiple of 4. */
  lemma {:induction false} Mod100Mod4(y: int)
    requires y % 100 == 0
    ensures y % 4 == 0
  {
    var q := y / 100;
    assert y == 4 * (25 * q);
  }

  /** A multiple of 400 is a multiple of 100. */
  lemma {:induction false} Mod400Mod100(y: int)
    requires y % 400 == 0
    ensures y % 100 == 0
  {
    var q := y / 400;
    assert y == 100 * (4 * q);
  }

  /** The leap rule counted the way `DaysBeforeYear` counts it: one for a
      multiple of 4, minus one for a multiple of 100, plus one for a multiple of 400. */
  lemma {:induction false} LeapCount(y: int)
    ensures (if y % 4 == 0 then 1 else 0) - (if y % 100 == 0 then 1 else 0) + (if y % 400 == 0 then 1 else 0)
      == (if IsLeapYear(y) then 1 else 0)
  {
    if y % 400 == 0 {
      Mod400Mod100(y);
    }
    if y % 100 == 0 {
      Mod100Mod4(y);
    }
  }

  /** A year has 365 days, or 366 in a leap year: consecutive `DaysBeforeYear` differ by `YearLength`. */
  lemma {:induction false} YearStep(y: int)
    ensures DaysBeforeYear(y + 1) == DaysBeforeYear(y) + YearLength(y)
  {
    var z := y - 1;
    Div4Step(z);
    Div100Step(z);
    Div400Step(z);
    LeapCount(y);
    assert z + 1 == y;
    assert DaysBeforeYear(y + 1) == 365 * y + y / 4 - y / 100 + y / 400;
    assert DaysBeforeYear(y) == 365 * z + z / 4 - z / 100 + z / 400;
  }

  /** `new Date(y, m + 1, 0)` is the last day of month `m`: so `getDate()` of it
      is `DaysInMonth(y, m)`. */
  lemma {:induction false} LastDayOfMonth(y: int, m: int)
    requires 0 <= m < 12
    ensures MakeDay(y, m + 1, 0) == MakeDay(y, m, DaysInMonth(y, m))
  {
    if m == 11 {
      YearStep(y);
    }
  }

  /** The first of the next month follows the last day of this month: the
      weekday of the next month's first cell is `firstDay + daysInMonth`
      (mod 7). */
  lemma {:induction false} NextMonthWeekday(y: int, m: int)
    requires 0 <= m < 12
    ensures var (y', m') := NextMonth(y, m);
      Weekday(MakeDay(y', m', 1)) == (Weekday(MakeDay(y, m, 1)) + DaysInMonth(y, m)) % 7
  {
    FirstOfNextMonth(y, m);
    WeekdayAdvance(MakeDay(y, m, 1), DaysInMonth(y, m));
  }

  /** The month after (y, m) starts `DaysInMonth(y, m)` days after (y, m) does. */
  lemma {:induction false} FirstOfNextMonth(y: int, m: int)
    requires 0 <= m < 12
    ensures MakeDay(NextMonth(y, m).0, NextMonth(y, m).1, 1) == MakeDay(y, m, 1) + DaysInMonth(y, m)
  {
    NextMonthFirst(y, m);
    LastDayOfMonth(y, m);
    assert MakeDay(y, m, DaysInMonth(y, m)) == MakeDay(y, m, 1) + DaysInMonth(y, m) - 1;
    assert MakeDay(y, m + 1, 1) == MakeDay(y, m + 1, 0) + 1;
  }

  /** The first of the month after (y, m), however it is written. */
  lemma {:induction false} NextMonthFirst(y: int, m: int)
    requires 0 <= m < 12
    ensures MakeDay(NextMonth(y, m).0, NextMonth(y, m).1, 1) == MakeDay(y, m + 1, 1)
  {
    if m == 11 {
      assert NextMonth(y, m) == (y + 1, 0);
      assert (m + 1) / 12 == 1 && (m + 1) % 12 == 0;
    } else {
      assert NextMonth(y, m) == (y, m + 1);
    }
  }

  /** Moving `n` days ahead moves the weekday `n` places round the week. */
  lemma {:induction false} WeekdayAdvance(a: int, n: int)
    ensures Weekday(a + n) == (Weekday(a) + n) % 7
  {
    var q := (a + 1) / 7;
    assert a + 1 == 7 * q + Weekday(a);
    assert a + n + 1 == 7 * q + (Weekday(a) + n);
  }

  /** A date with an in-range day falls inside its own month: between the
      first of month `m` and the first of the month after it. */
  lemma {:induction false} MonthSpan(y: int, m: int, d: int)
    requires 0 <= m < 12 && 1 <= d <= DaysInMonth(y, m)
    ensures MakeDay(y, m, 1) <= MakeDay(y, m, d) < MakeDay(y, m + 1, 1)
  {
    LastDayOfMonth(y, m);
  }

  /** Anchor: 1970-01-01, day zero of the Unix epoch, was a Thursday (`getDay()` = 4). */
  lemma {:induction false} EpochIsThursday()
    ensures MakeDay(1970, 0, 1) == 719162
    ensures Weekday(MakeDay(1970, 0, 1)) == 4
  {
  }
}
