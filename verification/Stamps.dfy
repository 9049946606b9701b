/** Archive names: a UTC timestamp that is meant to sort (`vault/backup.rs`). */
module Stamps {
  import opened Calendar
  import opened Chars
  import Lex

  /** The first second of the year 10000, where the year takes a fifth digit. */
  const YEAR_10000 := 253402300800

  lemma CivilFromEpoch(days: nat)
    ensures ValidDate(CivilFromDays(days)) && CivilFromDays(days).year >= 1970
  {
    hide CivilFromDays;
    CivilCounts(days);
    EpochDate();
    if days > 0 {
      CivilIsMonotone(0, days);
    }
  }

  function DateOfSecond(secs: nat): (dt: Date)
    ensures ValidDate(dt) && dt.year >= 1970 && dt == CivilFromDays(secs / 86400)
  {
    CivilFromEpoch(secs / 86400);
    CivilFromDays(secs / 86400)
  }

  function TimeOfDay(tod: nat): string
    requires tod < 86400
  {
    Padded(tod / 3600, 2) + Padded(tod % 3600 / 60, 2) + Padded(tod % 60, 2)
  }

  /** `YYYYMMDD-HHMMSS`. */
  function Timestamp(secs: nat): string {
    var dt := DateOfSecond(secs);
    Padded(dt.year, 4) + Padded(dt.month, 2) + Padded(dt.day, 2) + "-" + TimeOfDay(secs % 86400)
  }

  function ArchiveName(secs: nat): string {
    "vault-" + Timestamp(secs) + ".syphbak"
  }

  // ---- Fixed-width numbers sort as numbers ------------------------------------------

  lemma {:induction false} PaddedWidth(n: nat, w: nat)
    requires w >= 1 && n < Pow10(w)
    ensures |Padded(n, w)| == w
    decreases w
  {
    if w > 1 {
      PaddedWidth(n / 10, w - 1);
    }
  }

  lemma {:induction false} PaddedSorts(a: nat, b: nat, w: nat)
    requires w >= 1 && a < Pow10(w) && b < Pow10(w)
    ensures Lex.Less(Padded(a, w), Padded(b, w)) <==> a < b
    decreases w
  {
    if w > 1 {
      PaddedWidth(a / 10, w - 1);
      PaddedWidth(b / 10, w - 1);
      PaddedSorts(a / 10, b / 10, w - 1);
      PaddedSorts(b / 10, a / 10, w - 1);
      Lex.Irreflexive(Padded(a / 10, w - 1));
      Lex.Trichotomy(Padded(a / 10, w - 1), Padded(b / 10, w - 1));
      Lex.Blocks(Padded(a / 10, w - 1), [Digit(a % 10)], Padded(b / 10, w - 1), [Digit(b % 10)]);
      assert Lex.Less([Digit(a % 10)], [Digit(b % 10)]) <==> a % 10 < b % 10;
    }
  }

  /** One more field in front: numbers first, then the rest. */
  lemma FieldFirst(a: nat, b: nat, w: nat, x: string, y: string)
    requires w >= 1 && a < Pow10(w) && b < Pow10(w)
    ensures Lex.Less(Padded(a, w) + x, Padded(b, w) + y) <==> a < b || (a == b && Lex.Less(x, y))
  {
    PaddedWidth(a, w);
    PaddedWidth(b, w);
    Lex.Blocks(Padded(a, w), x, Padded(b, w), y);
    PaddedSorts(a, b, w);
    PaddedSorts(b, a, w);
    Lex.Irreflexive(Padded(a, w));
  }

  lemma Powers()
    ensures Pow10(2) == 100 && Pow10(4) == 10000
  {
    assert Pow10(3) == 1000;
  }

  lemma TimeOfDaySorts(a: nat, b: nat)
    requires a < 86400 && b < 86400
    ensures Lex.Less(TimeOfDay(a), TimeOfDay(b)) <==> a < b
  {
    hide Padded, Lex.Less, Chars.Pow10;
    Powers();
    var x, y := Padded(a % 60, 2), Padded(b % 60, 2);
    PaddedSorts(a % 60, b % 60, 2);
    FieldFirst(a % 3600 / 60, b % 3600 / 60, 2, x, y);
    FieldFirst(a / 3600, b / 3600, 2, Padded(a % 3600 / 60, 2) + x, Padded(b % 3600 / 60, 2) + y);
    assert TimeOfDay(a) == Padded(a / 3600, 2) + (Padded(a % 3600 / 60, 2) + x);
    assert TimeOfDay(b) == Padded(b / 3600, 2) + (Padded(b % 3600 / 60, 2) + y);
    HoursMinutesSeconds(a);
    HoursMinutesSeconds(b);
  }

  lemma HoursMinutesSeconds(tod: nat)
    ensures tod == tod / 3600 * 3600 + tod % 3600 / 60 * 60 + tod % 60
    ensures tod % 3600 / 60 < 60 && tod % 3600 / 60 * 60 + tod % 60 < 3600
  {
  }

  /** A date and a time of day, compared as text. */
  lemma StampFields(p: Date, q: Date, s: nat, t: nat)
    requires ValidDate(p) && ValidDate(q) && 0 <= p.year < 10000 && 0 <= q.year < 10000 && s < 86400 && t < 86400
    ensures Lex.Less(Padded(p.year, 4) + Padded(p.month, 2) + Padded(p.day, 2) + "-" + TimeOfDay(s),
                     Padded(q.year, 4) + Padded(q.month, 2) + Padded(q.day, 2) + "-" + TimeOfDay(t))
       <==> Before(p, q) || (p == q && s < t)
  {
    hide TimeOfDay, Padded, Lex.Less;
    Powers();
    TimeOfDaySorts(s, t);
    var x1, y1 := "-" + TimeOfDay(s), "-" + TimeOfDay(t);
    Lex.Blocks("-", TimeOfDay(s), "-", TimeOfDay(t));
    Lex.Irreflexive("-");
    var x2, y2 := Padded(p.day, 2) + x1, Padded(q.day, 2) + y1;
    FieldFirst(p.day, q.day, 2, x1, y1);
    var x3, y3 := Padded(p.month, 2) + x2, Padded(q.month, 2) + y2;
    FieldFirst(p.month, q.month, 2, x2, y2);
    FieldFirst(p.year, q.year, 4, x3, y3);
    assert Padded(p.year, 4) + Padded(p.month, 2) + Padded(p.day, 2) + "-" + TimeOfDay(s) == Padded(p.year, 4) + x3;
    assert Padded(q.year, 4) + Padded(q.month, 2) + Padded(q.day, 2) + "-" + TimeOfDay(t) == Padded(q.year, 4) + y3;
  }

  lemma DatesSort(a: nat, b: nat)
    ensures Before(DateOfSecond(a), DateOfSecond(b)) <==> a / 86400 < b / 86400
    ensures DateOfSecond(a) == DateOfSecond(b) <==> a / 86400 == b / 86400
  {
    hide CivilFromDays;
    if a / 86400 < b / 86400 {
      CivilIsMonotone(a / 86400, b / 86400);
    } else if b / 86400 < a / 86400 {
      CivilIsMonotone(b / 86400, a / 86400);
    }
  }

  lemma DateOf10000()
    ensures CivilFromDays(2932897) == Date(10000, 1, 1)
    ensures CivilFromDays(2932896) == Date(9999, 12, 31)
  {
    hide CivilFromDays;
    DaysToYearClosed(10000);
    DaysToYearClosed(9999);
    DaysToMonthTable(9999);
    CivilOfDate(Date(10000, 1, 1), 2932897);
    CivilOfDate(Date(9999, 12, 31), 2932896);
  }

  lemma YearHasFourDigits(secs: nat)
    ensures DateOfSecond(secs).year < 10000 <==> secs < YEAR_10000
  {
    hide CivilFromDays;
    DateOf10000();
    assert YEAR_10000 == 2932897 * 86400;
    if secs < YEAR_10000 {
      CivilIsMonotone(secs / 86400, 2932897);
    } else if secs / 86400 > 2932897 {
      CivilIsMonotone(2932897, secs / 86400);
    }
  }

  /** Before the year 10000 stamps sort exactly as the instants they name. */
  lemma StampsSort(a: nat, b: nat)
    requires a < YEAR_10000 && b < YEAR_10000
    ensures Lex.Less(Timestamp(a), Timestamp(b)) <==> a < b
    ensures |Timestamp(a)| == 15
  {
    hide CivilFromDays, ValidDate, Before;
    YearHasFourDigits(a);
    YearHasFourDigits(b);
    DatesSort(a, b);
    StampFields(DateOfSecond(a), DateOfSecond(b), a % 86400, b % 86400);
    StampLength(a);
  }

  lemma StampLength(a: nat)
    requires a < YEAR_10000
    ensures |Timestamp(a)| == 15
  {
    hide CivilFromDays;
    YearHasFourDigits(a);
    Powers();
    var dt, tod := DateOfSecond(a), a % 86400;
    PaddedWidth(dt.year, 4);
    PaddedWidth(dt.month, 2);
    PaddedWidth(dt.day, 2);
    PaddedWidth(tod / 3600, 2);
    PaddedWidth(tod % 3600 / 60, 2);
    PaddedWidth(tod % 60, 2);
  }

  /** What the digits of a stamp say, counted from its end because the year may be long. */
  ghost predicate StampSays(s: string, dt: Date, hour: nat, minute: nat, second: nat) {
    var n := |s|;
    && n >= 15 && s[n - 7] == '-' && AllDigits(s[..n - 7]) && AllDigits(s[n - 6..])
    && NumberOf(s[..n - 11]) == dt.year && NumberOf(s[n - 11..n - 9]) == dt.month && NumberOf(s[n - 9..n - 7]) == dt.day
    && NumberOf(s[n - 6..n - 4]) == hour && NumberOf(s[n - 4..n - 2]) == minute && NumberOf(s[n - 2..]) == second
  }

  lemma {:induction false} PaddedAtLeast(n: nat, w: nat)
    ensures |Padded(n, w)| >= w
    decreases n + w
  {
    if !(n < 10 && w <= 1) {
      PaddedAtLeast(n / 10, if w == 0 then 0 else w - 1);
    }
  }

  /** Six numbers, one after the other. */
  lemma FieldsAreRead(y: string, mo: string, d: string, h: string, mi: string, s: string)
    requires |y| >= 4 && |mo| == 2 && |d| == 2 && |h| == 2 && |mi| == 2 && |s| == 2
    requires AllDigits(y) && AllDigits(mo) && AllDigits(d) && AllDigits(h) && AllDigits(mi) && AllDigits(s)
    ensures var t := y + mo + d + "-" + (h + mi + s);
            var n := |t|;
            && n >= 15 && t[n - 7] == '-' && AllDigits(t[..n - 7]) && AllDigits(t[n - 6..])
            && t[..n - 11] == y && t[n - 11..n - 9] == mo && t[n - 9..n - 7] == d
            && t[n - 6..n - 4] == h && t[n - 4..n - 2] == mi && t[n - 2..] == s
  {
    var t := y + mo + d + "-" + (h + mi + s);
    var n := |t|;
    assert t[..n - 7] == y + mo + d && t[n - 6..] == h + mi + s;
  }

  /** A stamp reads back as the instant that it names: a date of the calendar and a time of the day, at
      that many seconds since 1970. */
  lemma StampReadsBack(secs: nat) returns (dt: Date, hour: nat, minute: nat, second: nat)
    ensures StampSays(Timestamp(secs), dt, hour, minute, second)
    ensures ValidDate(dt) && hour < 24 && minute < 60 && second < 60
    ensures DaysFromCivil(dt) * 86400 + hour * 3600 + minute * 60 + second == secs
    ensures |Timestamp(secs)| == 15 <==> secs < YEAR_10000
  {
    hide CivilFromDays, Padded, DaysFromCivil, NumberOf, AllDigits, Chars.Pow10;
    var tod := secs % 86400;
    dt, hour, minute, second := DateOfSecond(secs), tod / 3600, tod % 3600 / 60, tod % 60;
    CivilCounts(secs / 86400);
    HoursMinutesSeconds(tod);
    Powers();
    PaddedWidth(dt.month, 2);
    PaddedWidth(dt.day, 2);
    PaddedWidth(hour, 2);
    PaddedWidth(minute, 2);
    PaddedWidth(second, 2);
    PaddedAtLeast(dt.year, 4);
    PaddedReads(dt.year, 4);
    PaddedReads(dt.month, 2);
    PaddedReads(dt.day, 2);
    PaddedReads(hour, 2);
    PaddedReads(minute, 2);
    PaddedReads(second, 2);
    FieldsAreRead(Padded(dt.year, 4), Padded(dt.month, 2), Padded(dt.day, 2), Padded(hour, 2), Padded(minute, 2), Padded(second, 2));
    YearHasFourDigits(secs);
    YearWidth(dt.year);
  }

  lemma YearWidth(y: nat)
    ensures |Padded(y, 4)| == 4 <==> y < 10000
  {
    Powers();
    if y < 10000 {
      PaddedWidth(y, 4);
    } else {
      assert Padded(y, 4) == Padded(y / 10, 3) + [Digit(y % 10)];
      assert Padded(y / 10, 3) == Padded(y / 100, 2) + [Digit(y / 10 % 10)];
      assert Padded(y / 100, 2) == Padded(y / 1000, 1) + [Digit(y / 100 % 10)];
      PaddedIsSomething(y / 1000 / 10, 0);
      assert Padded(y / 1000, 1) == Padded(y / 1000 / 10, 0) + [Digit(y / 1000 % 10)];
    }
  }

  ghost predicate SortableUpTo(last: nat) {
    forall a: nat, b: nat | a < b <= last :: Lex.Less(Timestamp(a), Timestamp(b))
  }

  lemma RolloverFails()
    ensures !Lex.Less(Timestamp(YEAR_10000 - 1), Timestamp(YEAR_10000))
  {
    hide CivilFromDays;
    DateOf10000();
    assert (YEAR_10000 - 1) / 86400 == 2932896 && YEAR_10000 / 86400 == 2932897;
    var s, t := Timestamp(YEAR_10000 - 1), Timestamp(YEAR_10000);
    FirstDigit(9999);
    FirstDigit(10000);
    assert s[0] == '9' && t[0] == '1';
  }

  lemma FirstDigit(n: nat)
    requires n == 9999 || n == 10000
    ensures Padded(n, 4) != "" && Padded(n, 4)[0] == if n == 9999 then '9' else '1'
  {
    assert Padded(n / 10, 3) == Padded(n / 100, 2) + [Digit(n / 10 % 10)];
    assert Padded(n / 100, 2) == Padded(n / 1000, 1) + [Digit(n / 100 % 10)];
  }

  /** The sortability of stamps ends exactly at the year 10000: the next stamp sorts before all of
      the year 9999. */
  lemma SortableExactlyBefore10000(last: nat)
    ensures SortableUpTo(last) <==> last < YEAR_10000
  {
    hide Timestamp;
    if last < YEAR_10000 {
      forall a: nat, b: nat | a < b <= last ensures Lex.Less(Timestamp(a), Timestamp(b)) {
        StampsSort(a, b);
      }
    } else {
      RolloverFails();
    }
  }

  // ---- Names ----------------------------------------------------------------------

  lemma NamesSort(a: nat, b: nat)
    requires a < YEAR_10000 && b < YEAR_10000
    ensures Lex.Less(ArchiveName(a), ArchiveName(b)) <==> a < b
  {
    hide Timestamp;
    StampsSort(a, b);
    StampsSort(b, a);
    Lex.Blocks("vault-", Timestamp(a) + ".syphbak", "vault-", Timestamp(b) + ".syphbak");
    Lex.Blocks(Timestamp(a), ".syphbak", Timestamp(b), ".syphbak");
    Lex.Irreflexive("vault-");
    Lex.Irreflexive(".syphbak");
    assert ArchiveName(a) == "vault-" + (Timestamp(a) + ".syphbak");
    assert ArchiveName(b) == "vault-" + (Timestamp(b) + ".syphbak");
  }

  /** Digits determine the number, whatever the width. */
  lemma {:induction false} PaddedInjective(a: nat, b: nat, w: nat, v: nat)
    requires Padded(a, w) == Padded(b, v)
    ensures a == b
    decreases a + w
  {
    PaddedIsSomething(a, w);
    PaddedIsSomething(b, v);
    var s := Padded(a, w);
    if (a < 10 && w <= 1) || (b < 10 && v <= 1) {
      assert |s| == 1;
      if !(a < 10 && w <= 1) {
        PaddedIsSomething(a / 10, if w == 0 then 0 else w - 1);
      }
      if !(b < 10 && v <= 1) {
        PaddedIsSomething(b / 10, if v == 0 then 0 else v - 1);
      }
      assert s[0] == Digit(a) == Digit(b);
    } else {
      var w', v' := if w == 0 then 0 else w - 1, if v == 0 then 0 else v - 1;
      assert s[..|s| - 1] == Padded(a / 10, w') && s[..|s| - 1] == Padded(b / 10, v');
      assert s[|s| - 1] == Digit(a % 10) == Digit(b % 10);
      PaddedInjective(a / 10, b / 10, w', v');
    }
  }

  lemma PaddedIsSomething(a: nat, w: nat)
    ensures Padded(a, w) != ""
  {
  }

  /** Texts that end in blocks of equal length are equal block by block. */
  lemma LastBlock(a: string, x: string, b: string, y: string)
    requires |x| == |y| && a + x == b + y
    ensures a == b && x == y
  {
    assert (a + x)[..|a|] == a && (b + y)[..|b|] == b;
    assert (a + x)[|a|..] == x && (b + y)[|b|..] == y;
  }

  lemma TimeOfDayWidth(tod: nat)
    requires tod < 86400
    ensures |TimeOfDay(tod)| == 6
  {
    Powers();
    PaddedWidth(tod / 3600, 2);
    PaddedWidth(tod % 3600 / 60, 2);
    PaddedWidth(tod % 60, 2);
  }

  /** A stamp names its second, in every year. */
  lemma StampInjective(a: nat, b: nat)
    requires Timestamp(a) == Timestamp(b)
    ensures a == b
  {
    hide TimeOfDay, Padded, CivilFromDays, Lex.Less, Before;
    Powers();
    var p, q, s, t := DateOfSecond(a), DateOfSecond(b), TimeOfDay(a % 86400), TimeOfDay(b % 86400);
    TimeOfDayWidth(a % 86400);
    TimeOfDayWidth(b % 86400);
    LastBlock(Padded(p.year, 4) + Padded(p.month, 2) + Padded(p.day, 2) + "-", s,
              Padded(q.year, 4) + Padded(q.month, 2) + Padded(q.day, 2) + "-", t);
    LastBlock(Padded(p.year, 4) + Padded(p.month, 2) + Padded(p.day, 2), "-",
              Padded(q.year, 4) + Padded(q.month, 2) + Padded(q.day, 2), "-");
    PaddedWidth(p.day, 2);
    PaddedWidth(q.day, 2);
    PaddedWidth(p.month, 2);
    PaddedWidth(q.month, 2);
    LastBlock(Padded(p.year, 4) + Padded(p.month, 2), Padded(p.day, 2), Padded(q.year, 4) + Padded(q.month, 2), Padded(q.day, 2));
    LastBlock(Padded(p.year, 4), Padded(p.month, 2), Padded(q.year, 4), Padded(q.month, 2));
    PaddedInjective(p.year, q.year, 4, 4);
    PaddedInjective(p.month, q.month, 2, 2);
    PaddedInjective(p.day, q.day, 2, 2);
    DatesSort(a, b);
    SameTimeOfDay(a % 86400, b % 86400);
  }

  lemma SameTimeOfDay(a: nat, b: nat)
    requires a < 86400 && b < 86400 && TimeOfDay(a) == TimeOfDay(b)
    ensures a == b
  {
    TimeOfDaySorts(a, b);
    TimeOfDaySorts(b, a);
    Lex.Irreflexive(TimeOfDay(a));
  }

  /** Two archives share a name exactly when they were made in the same second. */
  lemma NamesCollideExactly(a: nat, b: nat)
    ensures ArchiveName(a) == ArchiveName(b) <==> a == b
  {
    hide Timestamp;
    if ArchiveName(a) == ArchiveName(b) {
      LastBlock("vault-" + Timestamp(a), ".syphbak", "vault-" + Timestamp(b), ".syphbak");
      assert Timestamp(a) == ("vault-" + Timestamp(a))[6..] && Timestamp(b) == ("vault-" + Timestamp(b))[6..];
      StampInjective(a, b);
    }
  }
}
