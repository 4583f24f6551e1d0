/**
 * The time value JavaScript's `Date.getTime` gives a "YYYY-MM-DD" date: the
 * count of days since 1970-01-01 (proleptic Gregorian), in milliseconds.
 */
module Calendar {
  import opened Records

  const MillisPerDay: int := 86_400_000

  predicate IsLeap(y: int)
  {
    y % 4 == 0 && (y % 100 != 0 || y % 400 == 0)
  }

  function DaysInMonth(y: int, m: MonthIndex): int
  {
    if m == 1 then (if IsLeap(y) then 29 else 28)
    else if m == 3 || m == 5 || m == 8 || m == 10 then 30
    else 31
  }

  /** Days from the start of the 400-year cycle to 1 March of year `y` of the
      March-based calendar, counted from 1 March of year 0. */
  function MarchYears(y: int): int
  {
    var era := y / 400;
    var yoe := y % 400;
    era * 146097 + yoe * 365 + yoe / 4 - yoe / 100
  }

  /** Days of month `m` (0-based, January first) before it, in a year that starts in March. */
  function MarchDays(m: MonthIndex): int
  {
    var mp := (m + 10) % 12;
    (153 * mp + 2) / 5
  }

  /** Days since 1970-01-01; negative before it. */
  function EpochDay(d: Date): int
  {
    var y := if d.month <= 1 then d.year - 1 else d.year;
    MarchYears(y) + MarchDays(d.month) + d.day - 1 - 719468
  }

  /** `new Date(s).getTime()` for the date `s` names. */
  function TimeMillis(d: Date): int
  {
    EpochDay(d) * MillisPerDay
  }

  lemma EpochIsZero()
    ensures EpochDay(Date(1970, 0, 1)) == 0
  {
    assert MarchYears(1969) == 719468 - 306;
  }

  lemma DayBeforeEpoch()
    ensures EpochDay(Date(1969, 11, 31)) == -1
  {
    assert MarchYears(1969) == 719468 - 306;
    assert MarchDays(11) == 275;
  }

  /** The next day of the month is one day later. */
  lemma NextDay(y: int, m: MonthIndex, d: int)
    ensures EpochDay(Date(y, m, d + 1)) == EpochDay(Date(y, m, d)) + 1
  {
  }

  /** Within a 400-year cycle, the year after year `r` (both counted from March)
      adds a leap day when it is a multiple of 4 but not of 100. */
  lemma CycleYearLength(r: int)
    requires 0 <= r < 399
    ensures (r + 1) * 365 + (r + 1) / 4 - (r + 1) / 100 - (r * 365 + r / 4 - r / 100)
         == if (r + 1) % 4 == 0 && (r + 1) % 100 != 0 then 366 else 365
  {
    assert (r + 1) / 4 - r / 4 == if (r + 1) % 4 == 0 then 1 else 0;
    assert (r + 1) / 100 - r / 100 == if (r + 1) % 100 == 0 then 1 else 0;
    assert (r + 1) % 100 == 0 ==> (r + 1) % 4 == 0;
  }

  /** The leap rule only depends on the year's place in the 400-year cycle. */
  lemma LeapInCycle(y: int)
    ensures y % 4 == (y % 400) % 4 && y % 100 == (y % 400) % 100
  {
    var e, r := y / 400, y % 400;
    assert y == 400 * e + r;
    ShiftMod4(100 * e, r);
    ShiftMod100(4 * e, r);
  }

  lemma ShiftMod4(t: int, r: int)
    ensures (4 * t + r) % 4 == r % 4
  {
    assert 4 * t + r == 4 * (t + r / 4) + r % 4;
  }

  lemma ShiftMod100(t: int, r: int)
    ensures (100 * t + r) % 100 == r % 100
  {
    assert 100 * t + r == 100 * (t + r / 100) + r % 100;
  }

  /** A March-based year lasts 366 days when the February that ends it is a leap one. */
  lemma MarchYearLength(y: int)
    ensures MarchYears(y + 1) - MarchYears(y) == if IsLeap(y + 1) then 366 else 365
  {
    var r := y % 400;
    LeapInCycle(y + 1);
    if r < 399 {
      assert (y + 1) / 400 == y / 400 && (y + 1) % 400 == r + 1;
      CycleYearLength(r);
    } else {
      assert (y + 1) / 400 == y / 400 + 1 && (y + 1) % 400 == 0;
    }
  }

  lemma MarchDaysValues()
    ensures MarchDays(0) == 306 && MarchDays(1) == 337 && MarchDays(2) == 0
    ensures MarchDays(3) == 31 && MarchDays(4) == 61 && MarchDays(5) == 92
    ensures MarchDays(6) == 122 && MarchDays(7) == 153 && MarchDays(8) == 184
    ensures MarchDays(9) == 214 && MarchDays(10) == 245 && MarchDays(11) == 275
  {
  }

  /** The first of the next month comes as many days after the first of this
      month as this month has, across February and the turn of the year. */
  lemma NextMonth(y: int, m: MonthIndex)
    ensures m < 11 ==> EpochDay(Date(y, m + 1, 1)) == EpochDay(Date(y, m, 1)) + DaysInMonth(y, m)
    ensures m == 11 ==> EpochDay(Date(y + 1, 0, 1)) == EpochDay(Date(y, m, 1)) + DaysInMonth(y, m)
  {
    MarchDaysValues();
    if m == 1 {
      MarchYearLength(y - 1);
    }
  }

  /** A real calendar date: the day exists in its month. */
  predicate ValidDate(d: Date)
  {
    1 <= d.day <= DaysInMonth(d.year, d.month)
  }

  /** Precedes in calendar order: by year, then month, then day. */
  predicate Before(a: Date, b: Date)
  {
    a.year < b.year
    || (a.year == b.year && a.month < b.month)
    || (a.year == b.year && a.month == b.month && a.day < b.day)
  }

  lemma MonthLength(y: int, m: MonthIndex)
    ensures 28 <= DaysInMonth(y, m) <= 31
  {
  }

  /** The month before month `m` of year `y`, and how far apart their firsts are. */
  lemma PrevMonth(y: int, m: MonthIndex) returns (py: int, pm: MonthIndex)
    ensures py * 12 + pm + 1 == y * 12 + m
    ensures EpochDay(Date(py, pm, 1)) + DaysInMonth(py, pm) == EpochDay(Date(y, m, 1))
  {
    if m > 0 {
      py, pm := y, m - 1;
    } else {
      py, pm := y - 1, 11;
    }
    NextMonth(py, pm);
  }

  /** The first of every later month comes at least one whole month after the
      first of month `m` of year `y`. */
  lemma {:induction false} FirstsIncrease(y: int, m: MonthIndex, y2: int, m2: MonthIndex)
    requires y * 12 + m < y2 * 12 + m2
    ensures EpochDay(Date(y, m, 1)) + DaysInMonth(y, m) <= EpochDay(Date(y2, m2, 1))
    decreases y2 * 12 + m2 - (y * 12 + m)
  {
    var py, pm := PrevMonth(y2, m2);
    if y * 12 + m < py * 12 + pm {
      FirstsIncrease(y, m, py, pm);
      MonthLength(py, pm);
    } else {
      assert y == py && m == pm;
    }
  }

  lemma DayOffset(d: Date)
    ensures EpochDay(d) == EpochDay(Date(d.year, d.month, 1)) + d.day - 1
  {
  }

  /** Later dates have larger time values, so ordering by `getTime` is calendar order. */
  lemma Chronological(a: Date, b: Date)
    requires ValidDate(a) && ValidDate(b) && Before(a, b)
    ensures TimeMillis(a) < TimeMillis(b)
  {
    if a.year == b.year && a.month == b.month {
      DayOffset(a);
      DayOffset(b);
    } else {
      LaterMonth(a, b);
    }
  }

  /** A date in a later month has a larger day number. */
  lemma LaterMonth(a: Date, b: Date)
    requires ValidDate(a) && a.year * 12 + a.month < b.year * 12 + b.month && 1 <= b.day
    ensures EpochDay(a) < EpochDay(b)
  {
    DayOffset(a);
    DayOffset(b);
    FirstsIncrease(a.year, a.month, b.year, b.month);
  }
}
