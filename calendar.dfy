/** Gregorian calendar arithmetic that the views obtain from JavaScript `Date`:
    month lengths, day ordinals and weekdays. A day ordinal counts days from
    1970-01-01 (ordinal 0), so consecutive days have consecutive ordinals. */
module Calendar {

  predicate IsLeapYear(y: int) {
    (y % 4 == 0 && y % 100 != 0) || y % 400 == 0
  }

  /** `new Date(y, m, 0).getDate()` for month `m` counted from 1. */
  function DaysInMonth(y: int, m: int): (n: nat)
    requires 1 <= m <= 12
    ensures 28 <= n <= 31
    ensures m == 2 ==> (n == 29 <==> IsLeapYear(y))
  {
    if m == 2 then (if IsLeapYear(y) then 29 else 28)
    else if m == 4 || m == 6 || m == 9 || m == 11 then 30
    else 31
  }

  /** The day ordinal of year `y`, month `m` (1..12), day `d`: the proleptic Gregorian
      day count, computed by eras of 400 years (146097 days). */
  function DayOrdinal(y: int, m: int, d: int): int
    requires 1 <= m <= 12
  {
    var y1 := if m <= 2 then y - 1 else y;
    var mp := if m > 2 then m - 3 else m + 9;
    var doy := (153 * mp + 2) / 5 + d - 1;
    MarchYearsDays(y1) + doy - 719468
  }

  /** The days from 1 March of year 0 to 1 March of year `y1`, by eras of 400 years. */
  function MarchYearsDays(y1: int): int {
    var era := y1 / 400;
    var yoe := y1 - era * 400;
    era * 146097 + yoe * 365 + yoe / 4 - yoe / 100
  }

  /** Euclidean division by a constant is fixed by any quotient and remainder that fit. */
  lemma DivMod4(x: int, q: int, r: int)
    requires 0 <= r < 4 && x == 4 * q + r
    ensures x / 4 == q && x % 4 == r
  {
  }

  lemma DivMod100(x: int, q: int, r: int)
    requires 0 <= r < 100 && x == 100 * q + r
    ensures x / 100 == q && x % 100 == r
  {
  }

  lemma DivMod400(x: int, q: int, r: int)
    requires 0 <= r < 400 && x == 400 * q + r
    ensures x / 400 == q && x % 400 == r
  {
  }

  /** The year from 1 March of `x - 1` holds February of `x`, so it is one day longer
      exactly when `x` is a leap year. */
  lemma MarchYearLength(x: int)
    ensures MarchYearsDays(x) - MarchYearsDays(x - 1) == if IsLeapYear(x) then 366 else 365
  {
    if x % 400 == 0 {
      MarchYearLengthAtEra(x);
    } else {
      MarchYearLengthInEra(x);
    }
  }

  /** The first year of an era follows the 400th year of the one before. */
  lemma MarchYearLengthAtEra(x: int)
    requires x % 400 == 0
    ensures IsLeapYear(x) && MarchYearsDays(x) - MarchYearsDays(x - 1) == 366
  {
    var q := x / 400;
    DivMod400(x - 1, q - 1, 399);
    assert MarchYearsDays(x) == q * 146097;
    assert MarchYearsDays(x - 1) == (q - 1) * 146097 + 399 * 365 + 99 - 3;
  }

  /** Inside an era, a year adds the leap day when its number in the era is a multiple of
      4 but not of 100. */
  lemma MarchYearLengthInEra(x: int)
    requires x % 400 != 0
    ensures MarchYearsDays(x) - MarchYearsDays(x - 1) == if IsLeapYear(x) then 366 else 365
  {
    var q := x / 400;
    var r := x % 400;
    DivMod400(x - 1, q, r - 1);
    var four := if r % 4 == 0 then 1 else 0;
    var hundred := if r % 100 == 0 then 1 else 0;
    assert r / 4 - (r - 1) / 4 == four by {
      if r % 4 == 0 { DivMod4(r - 1, r / 4 - 1, 3); } else { DivMod4(r - 1, r / 4, r % 4 - 1); }
    }
    assert r / 100 - (r - 1) / 100 == hundred by {
      if r % 100 == 0 { DivMod100(r - 1, r / 100 - 1, 99); } else { DivMod100(r - 1, r / 100, r % 100 - 1); }
    }
    assert IsLeapYear(x) <==> four == 1 && hundred == 0 by {
      DivMod4(x, 100 * q + r / 4, r % 4);
      DivMod100(x, 4 * q + r / 100, r % 100);
    }
    assert MarchYearsDays(x) - MarchYearsDays(x - 1) == 365 + four - hundred;
  }

  /** `getDay()`: 0 for Sunday through 6 for Saturday; 1970-01-01 was a Thursday. */
  function Weekday(ordinal: int): (w: nat)
    ensures w < 7
  {
    (ordinal + 4) % 7
  }

  /** The month before `m` of year `y`, as `(year, month)`. */
  function PrevMonth(y: int, m: int): (r: (int, int))
    requires 1 <= m <= 12
    ensures 1 <= r.1 <= 12
    ensures m > 1 ==> r == (y, m - 1)
    ensures m == 1 ==> r == (y - 1, 12)
  {
    if m == 1 then (y - 1, 12) else (y, m - 1)
  }

  /** Consecutive days of a month have consecutive ordinals. */
  lemma DayOrdinalInMonth(y: int, m: int, d: int)
    requires 1 <= m <= 12
    ensures DayOrdinal(y, m, d) == DayOrdinal(y, m, 1) + d - 1
  {
  }

  /** The first of a month follows the last day of the month before it, within a year. */
  lemma NextMonthFollows(y: int, m: int)
    requires 1 <= m < 12
    ensures DayOrdinal(y, m + 1, 1) == DayOrdinal(y, m, 1) + DaysInMonth(y, m)
  {
    if m == 2 {
      MarchYearLength(y);
    }
  }

  /** 1 January follows 31 December of the year before. */
  lemma NextYearFollows(y: int)
    ensures DayOrdinal(y + 1, 1, 1) == DayOrdinal(y, 12, 1) + DaysInMonth(y, 12)
  {
  }

  /** The day after `d` of month `m` of year `y` has the next ordinal, whether it lies in
      the same month, the next month or the next year. */
  lemma NextDayFollows(y: int, m: int, d: int)
    requires 1 <= m <= 12 && 1 <= d <= DaysInMonth(y, m)
    ensures d < DaysInMonth(y, m) ==> DayOrdinal(y, m, d + 1) == DayOrdinal(y, m, d) + 1
    ensures d == DaysInMonth(y, m) && m < 12 ==> DayOrdinal(y, m + 1, 1) == DayOrdinal(y, m, d) + 1
    ensures d == DaysInMonth(y, m) && m == 12 ==> DayOrdinal(y + 1, 1, 1) == DayOrdinal(y, m, d) + 1
  {
    DayOrdinalInMonth(y, m, d);
    DayOrdinalInMonth(y, m, d + 1);
    if m < 12 {
      NextMonthFollows(y, m);
    } else {
      NextYearFollows(y);
    }
  }

  /** The ordinal origin is 1970-01-01, a Thursday, and weekdays advance by one a day,
      so 1 September 2024 is a Sunday. */
  lemma WeekdayAnchors(ordinal: int)
    ensures DayOrdinal(1970, 1, 1) == 0 && Weekday(DayOrdinal(1970, 1, 1)) == 4
    ensures Weekday(DayOrdinal(2024, 9, 1)) == 0
    ensures Weekday(ordinal + 1) == (Weekday(ordinal) + 1) % 7
  {
  }
}
