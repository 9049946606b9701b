/** Calendar arithmetic of the archive timestamps (`vault/backup.rs`): a day count since
    1970-01-01 becomes a civil date, and the date and the time of day become a sortable stamp. */
module Calendar {

  datatype Date = Date(year: int, month: int, day: int)

  /** Howard Hinnant's conversion, branch for branch as the program has it. Dafny's `/` and `%`
      are Euclidean, which is what `div_euclid` and `rem_euclid` ask for; every other division
      has a non-negative numerator. */
  function CivilFromDays(days: int): Date {
    var z := days + 719468;
    var era := z / 146097;
    var doe := z % 146097;
    var yoe := YearOfEra(doe);
    var doy := doe - (365 * yoe + yoe / 4 - yoe / 100);
    var mp := (5 * doy + 2) / 153;
    var d := doy - (153 * mp + 2) / 5 + 1;
    var m := if mp < 10 then mp + 3 else mp - 9;
    var y := yoe + era * 400;
    Date(if m <= 2 then y + 1 else y, m, d)
  }

  function YearOfEra(doe: int): int {
    (doe - doe / 1460 + doe / 36524 - doe / 146096) / 365
  }

  // ---- The Gregorian calendar, counted out ------------------------------------

  predicate IsLeap(y: int) {
    y % 4 == 0 && (y % 100 != 0 || y % 400 == 0)
  }

  function DaysInMonth(y: int, m: int): int {
    if m == 2 then (if IsLeap(y) then 29 else 28)
    else if m == 4 || m == 6 || m == 9 || m == 11 then 30
    else 31
  }

  function DaysInYear(y: int): int {
    if IsLeap(y) then 366 else 365
  }

  predicate ValidDate(dt: Date) {
    1 <= dt.month <= 12 && 1 <= dt.day <= DaysInMonth(dt.year, dt.month)
  }

  function NextDate(dt: Date): Date {
    if dt.day < DaysInMonth(dt.year, dt.month) then Date(dt.year, dt.month, dt.day + 1)
    else if dt.month < 12 then Date(dt.year, dt.month + 1, 1)
    else Date(dt.year + 1, 1, 1)
  }

  /** Days from 1970-01-01 to January 1 of `y`, year by year in either direction. */
  function DaysToYear(y: int): int
    decreases if y >= 1970 then y - 1970 else 1970 - y
  {
    if y == 1970 then 0
    else if y > 1970 then DaysToYear(y - 1) + DaysInYear(y - 1)
    else DaysToYear(y + 1) - DaysInYear(y)
  }

  function DaysToMonth(y: int, m: int): int
    requires 1 <= m <= 13
    decreases m
  {
    if m == 1 then 0 else DaysToMonth(y, m - 1) + DaysInMonth(y, m - 1)
  }

  /** Days from 1970-01-01 to a date. */
  function DaysFromCivil(dt: Date): int
    requires 1 <= dt.month <= 12
  {
    DaysToYear(dt.year) + DaysToMonth(dt.year, dt.month) + dt.day - 1
  }

  lemma {:induction false} DaysToYearClosed(y: int)
    ensures DaysToYear(y) == 365 * (y - 1) + (y - 1) / 4 - (y - 1) / 100 + (y - 1) / 400 - 719162
    decreases if y >= 1970 then y - 1970 else 1970 - y
  {
    if y > 1970 {
      DaysToYearClosed(y - 1);
      LeapStep(y - 1);
    } else if y < 1970 {
      DaysToYearClosed(y + 1);
      LeapStep(y);
    }
  }

  lemma LeapStep(y: int)
    ensures y / 4 - y / 100 + y / 400 - ((y - 1) / 4 - (y - 1) / 100 + (y - 1) / 400) == if IsLeap(y) then 1 else 0
  {
    FloorStep(y, 4);
    FloorStep(y, 100);
    FloorStep(y, 400);
    assert y % 400 == 0 ==> y % 100 == 0 by {
      if y % 400 == 0 { assert y == 100 * (4 * (y / 400)); }
    }
    assert y % 100 == 0 ==> y % 4 == 0 by {
      if y % 100 == 0 { assert y == 4 * (25 * (y / 100)); }
    }
  }

  lemma FloorStep(y: int, n: int)
    requires n == 4 || n == 100 || n == 400
    ensures y / n == (y - 1) / n + if y % n == 0 then 1 else 0
  {
  }

  lemma DaysToMonthTable(y: int)
    ensures DaysToMonth(y, 1) == 0 && DaysToMonth(y, 2) == 31
    ensures var leap := if IsLeap(y) then 1 else 0;
            && DaysToMonth(y, 3) == 59 + leap && DaysToMonth(y, 4) == 90 + leap
            && DaysToMonth(y, 5) == 120 + leap && DaysToMonth(y, 6) == 151 + leap
            && DaysToMonth(y, 7) == 181 + leap && DaysToMonth(y, 8) == 212 + leap
            && DaysToMonth(y, 9) == 243 + leap && DaysToMonth(y, 10) == 273 + leap
            && DaysToMonth(y, 11) == 304 + leap && DaysToMonth(y, 12) == 334 + leap
            && DaysToMonth(y, 13) == 365 + leap
  {
    assert DaysToMonth(y, 2) == 31;
    assert DaysToMonth(y, 3) == DaysToMonth(y, 2) + DaysInMonth(y, 2);
    assert DaysToMonth(y, 4) == DaysToMonth(y, 3) + 31;
    assert DaysToMonth(y, 5) == DaysToMonth(y, 4) + 30;
    assert DaysToMonth(y, 6) == DaysToMonth(y, 5) + 31;
    assert DaysToMonth(y, 7) == DaysToMonth(y, 6) + 30;
    assert DaysToMonth(y, 8) == DaysToMonth(y, 7) + 31;
    assert DaysToMonth(y, 9) == DaysToMonth(y, 8) + 31;
    assert DaysToMonth(y, 10) == DaysToMonth(y, 9) + 30;
    assert DaysToMonth(y, 11) == DaysToMonth(y, 10) + 31;
    assert DaysToMonth(y, 12) == DaysToMonth(y, 11) + 30;
  }

  // ---- The conversion counts the calendar -------------------------------------

  /** Days of the first `yoe` years of a four-hundred-year era that starts on March 1. */
  function EraDays(yoe: int): int {
    365 * yoe + yoe / 4 - yoe / 100
  }

  /** A day of the era as centuries, four-year cycles, years and days. */
  ghost predicate Split(c: int, q: int, t: int, u: int) {
    && 0 <= c <= 3 && 0 <= q <= 24 && 0 <= t <= 3
    && 0 <= u <= 365
    && (u == 365 ==> t == 3 && (q == 24 ==> c == 3))
  }

  lemma SplitDay(doe: int) returns (c: int, q: int, t: int, u: int)
    requires 0 <= doe < 146097
    ensures Split(c, q, t, u) && doe == 36524 * c + 1461 * q + 365 * t + u
  {
    c := if doe / 36524 == 4 then 3 else doe / 36524;
    var r := doe - 36524 * c;
    q := r / 1461;
    var s := r - 1461 * q;
    t := if s / 365 == 4 then 3 else s / 365;
    u := s - 365 * t;
  }

  lemma SplitYear(c: int, q: int, t: int, u: int)
    requires Split(c, q, t, u)
    ensures YearOfEra(36524 * c + 1461 * q + 365 * t + u) == 100 * c + 4 * q + t
  {
    var doe := 36524 * c + 1461 * q + 365 * t + u;
    var rest := 24 * c + q + 365 * t + u;
    var e := if rest >= 1460 then 1 else 0;
    assert doe == 1460 * (25 * c + q) + rest;
    assert doe / 1460 == 25 * c + q + e;
    var last := if doe == 146096 then 1 else 0;
    assert doe / 36524 == c + last;
    assert doe / 146096 == last;
    assert doe - doe / 1460 + doe / 36524 - doe / 146096 == 365 * (100 * c + 4 * q + t) + (u - e);
  }

  /** The year-of-era formula picks the year whose days contain `doe`, and only a year that
      ends in a leap February reaches a 366th day. */
  lemma YearOfEraBrackets(doe: int)
    requires 0 <= doe < 146097
    ensures var yoe := YearOfEra(doe);
            0 <= yoe < 400 && EraDays(yoe) <= doe <= EraDays(yoe) + 365
            && (doe == EraDays(yoe) + 365 ==> IsLeap(yoe + 1))
  {
    var c, q, t, u := SplitDay(doe);
    SplitYear(c, q, t, u);
    DaysBeforeYear(c, q, t, u);
    if u == 365 {
      LongYearIsLeap(c, q, t, u);
    }
  }

  lemma DaysBeforeYear(c: int, q: int, t: int, u: int)
    requires Split(c, q, t, u)
    ensures EraDays(100 * c + 4 * q + t) == 36524 * c + 1461 * q + 365 * t
  {
    var yoe := 100 * c + 4 * q + t;
    assert yoe / 4 == 25 * c + q;
    assert yoe / 100 == c;
  }

  lemma LongYearIsLeap(c: int, q: int, t: int, u: int)
    requires Split(c, q, t, u) && u == 365
    ensures IsLeap(100 * c + 4 * q + t + 1)
  {
    var yoe := 100 * c + 4 * q + t;
    assert yoe + 1 == 4 * (25 * c + q + 1);
    if q == 24 {
      assert yoe + 1 == 400;
    } else {
      assert (yoe + 1) % 100 == 4 * q + 4;
    }
  }

  /** The month and the day read off a day of the March-based year. */
  lemma MonthOfYear(doy: int)
    requires 0 <= doy <= 365
    ensures var mp := (5 * doy + 2) / 153;
            0 <= mp <= 11 && (153 * mp + 2) / 5 <= doy < (153 * mp + 155) / 5
  {
  }

  /** The date that the conversion reads off an era, a year of it and a day of that year. */
  function DateOf(era: int, yoe: int, doy: int): Date {
    var mp := (5 * doy + 2) / 153;
    var y := yoe + era * 400;
    var day := doy - (153 * mp + 2) / 5 + 1;
    if mp < 10 then Date(y, mp + 3, day) else Date(y + 1, mp - 9, day)
  }

  lemma DateOfCounts(era: int, yoe: int, doy: int)
    requires 0 <= yoe < 400 && 0 <= doy <= 365
    ensures DaysFromCivil(DateOf(era, yoe, doy)) == era * 146097 + EraDays(yoe) + doy - 719468
  {
    MonthOfYear(doy);
    EraShift(yoe, era);
    MarchCount(yoe + era * 400, (5 * doy + 2) / 153, DateOf(era, yoe, doy).day);
  }

  lemma DateOfIsValid(era: int, yoe: int, doy: int)
    requires 0 <= doy <= 365 && (doy == 365 ==> IsLeap(yoe + 1))
    ensures ValidDate(DateOf(era, yoe, doy))
  {
    MonthOfYear(doy);
    IsLeapPeriodic(yoe + 1, era);
  }

  lemma CivilIsDateOf(z: int)
    ensures var era, doe := (z + 719468) / 146097, (z + 719468) % 146097;
            CivilFromDays(z) == DateOf(era, YearOfEra(doe), doe - EraDays(YearOfEra(doe)))
  {
    YearOfEraBrackets((z + 719468) % 146097);
  }

  /** Every day number becomes a real date, and counting days leads back to it. */
  lemma CivilCounts(z: int)
    ensures ValidDate(CivilFromDays(z))
    ensures DaysFromCivil(CivilFromDays(z)) == z
  {
    var era, doe := (z + 719468) / 146097, (z + 719468) % 146097;
    CivilIsDateOf(z);
    YearOfEraBrackets(doe);
    DateOfIsValid(era, YearOfEra(doe), doe - EraDays(YearOfEra(doe)));
    DateOfCounts(era, YearOfEra(doe), doe - EraDays(YearOfEra(doe)));
  }

  lemma EraShift(yoe: int, era: int)
    requires 0 <= yoe < 400
    ensures var y := yoe + era * 400;
            365 * y + y / 4 - y / 100 + y / 400 == era * 146097 + EraDays(yoe)
  {
    var y := yoe + era * 400;
    assert y / 4 == yoe / 4 + 100 * era;
    assert y / 100 == yoe / 100 + 4 * era;
    assert y / 400 == era;
  }

  lemma ModPeriodic(y: int, n: int, k: int)
    requires n == 4 || n == 100 || n == 400
    ensures (y + n * k) % n == y % n
  {
  }

  lemma IsLeapPeriodic(y: int, era: int)
    ensures IsLeap(y + 400 * era) == IsLeap(y)
  {
    ModPeriodic(y, 4, 100 * era);
    ModPeriodic(y, 100, 4 * era);
    ModPeriodic(y, 400, era);
  }

  /** Counting from March 1 of year `y` agrees with the table of 153-day half-years. */
  lemma MarchCount(y: int, mp: int, day: int)
    requires 0 <= mp <= 11
    ensures var dt := if mp < 10 then Date(y, mp + 3, day) else Date(y + 1, mp - 9, day);
            DaysFromCivil(dt) == 365 * y + y / 4 - y / 100 + y / 400 - 719468 + (153 * mp + 2) / 5 + day - 1
  {
    DaysToYearClosed(y);
    DaysToYearClosed(y + 1);
    DaysToMonthTable(y);
    DaysToMonthTable(y + 1);
    LeapStep(y);
  }

  // ---- Counting days is a bijection between valid dates and day numbers -------

  ghost predicate Before(a: Date, b: Date) {
    a.year < b.year || (a.year == b.year && (a.month < b.month || (a.month == b.month && a.day < b.day)))
  }

  lemma {:induction false} DaysToYearGrows(y1: int, y2: int)
    requires y1 <= y2
    ensures DaysToYear(y1) + 365 * (y2 - y1) <= DaysToYear(y2)
    decreases y2 - y1
  {
    if y1 < y2 {
      DaysToYearGrows(y1, y2 - 1);
      assert DaysToYear(y2) == DaysToYear(y2 - 1) + DaysInYear(y2 - 1);
    }
  }

  lemma {:induction false} DaysToMonthGrows(y: int, m1: int, m2: int)
    requires 1 <= m1 <= m2 <= 13
    ensures DaysToMonth(y, m1) <= DaysToMonth(y, m2)
    decreases m2
  {
    if m1 < m2 {
      DaysToMonthGrows(y, m1, m2 - 1);
    }
  }

  /** Counting days preserves the order of dates. */
  lemma CountingIsMonotone(a: Date, b: Date)
    requires ValidDate(a) && ValidDate(b) && Before(a, b)
    ensures DaysFromCivil(a) < DaysFromCivil(b)
  {
    DaysToMonthTable(a.year);
    DaysToMonthGrows(a.year, a.month + 1, 13);
    if a.year < b.year {
      DaysToYearGrows(a.year + 1, b.year);
      assert DaysToYear(a.year + 1) == DaysToYear(a.year) + DaysInYear(a.year);
      DaysToMonthGrows(b.year, 1, b.month);
    } else if a.month < b.month {
      DaysToMonthGrows(a.year, a.month + 1, b.month);
    }
  }

  /** The other inverse: every valid date is what its own day count converts to. */
  lemma CivilInvertsCounting(dt: Date)
    requires ValidDate(dt)
    ensures CivilFromDays(DaysFromCivil(dt)) == dt
  {
    var back := CivilFromDays(DaysFromCivil(dt));
    CivilCounts(DaysFromCivil(dt));
    if Before(back, dt) {
      CountingIsMonotone(back, dt);
    } else if Before(dt, back) {
      CountingIsMonotone(dt, back);
    }
  }

  lemma NextDateCounts(dt: Date)
    requires ValidDate(dt)
    ensures ValidDate(NextDate(dt)) && DaysFromCivil(NextDate(dt)) == DaysFromCivil(dt) + 1
  {
    DaysToMonthTable(dt.year);
    if dt.month == 12 && dt.day == 31 {
      DaysToYearGrows(dt.year, dt.year + 1);
      assert DaysToYear(dt.year + 1) == DaysToYear(dt.year) + DaysInYear(dt.year);
    }
  }

  lemma CivilOfDate(dt: Date, z: int)
    requires ValidDate(dt) && DaysFromCivil(dt) == z
    ensures CivilFromDays(z) == dt
  {
    CivilInvertsCounting(dt);
  }

  lemma EpochDate()
    ensures CivilFromDays(0) == Date(1970, 1, 1)
  {
    CivilOfDate(Date(1970, 1, 1), 0);
  }

  lemma NextDay(z: int, dt: Date)
    requires dt == CivilFromDays(z)
    ensures CivilFromDays(z + 1) == NextDate(dt)
  {
    CivilCounts(z);
    NextDateCounts(dt);
    CivilOfDate(NextDate(dt), z + 1);
  }

  /** The conversion is the proleptic Gregorian calendar: it starts at 1970-01-01 and each next
      day number is the next date. */
  lemma CivilIsTheCalendar()
    ensures CivilFromDays(0) == Date(1970, 1, 1)
    ensures forall z :: CivilFromDays(z + 1) == NextDate(CivilFromDays(z))
  {
    EpochDate();
    forall z ensures CivilFromDays(z + 1) == NextDate(CivilFromDays(z)) {
      NextDay(z, CivilFromDays(z));
    }
  }

  /** Later day numbers are later dates. */
  lemma CivilIsMonotone(z1: int, z2: int)
    requires z1 < z2
    ensures Before(CivilFromDays(z1), CivilFromDays(z2))
  {
    CivilCounts(z1);
    CivilCounts(z2);
    var a, b := CivilFromDays(z1), CivilFromDays(z2);
    if Before(b, a) {
      CountingIsMonotone(b, a);
    }
  }
}
