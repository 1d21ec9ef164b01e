/**
  Report timestamps (src/engine/report.rs, lines 88-109): the date arithmetic against the Gregorian calendar, with the
  month lengths and the leap rule of RFC 3339, section 5.7 and appendix C.
 */
module CivilDate {
  import opened Common
  import opened Decimal

  const SECONDS_PER_DAY := 86_400

  datatype Date = Date(year: int, month: int, day: int)

  datatype Timestamp = Timestamp(date: Date, hour: int, minute: int, second: int)

  // ---------------------------------------------------------------------------
  // The engine's arithmetic
  // ---------------------------------------------------------------------------

  function YearOfEra(doe: int): int {
    (doe - doe / 1460 + doe / 36_524 - doe / 146_096) / 365
  }

  function DayOfYear(doe: int): int {
    var yoe := YearOfEra(doe);
    doe - (365 * yoe + yoe / 4 - yoe / 100)
  }

  function CivilFromDays(days: nat): Date {
    var z := days + 719_468;
    var era := z / 146_097;
    var doe := z % 146_097;
    var yoe := YearOfEra(doe);
    var doy := DayOfYear(doe);
    var mp := (5 * doy + 2) / 153;
    var day := doy - (153 * mp + 2) / 5 + 1;
    var month := if mp < 10 then mp + 3 else mp - 9;
    Date(yoe + era * 400 + if month <= 2 then 1 else 0, month, day)
  }

  function UtcTimestamp(secs: nat): Timestamp {
    var rem := secs % SECONDS_PER_DAY;
    Timestamp(CivilFromDays(secs / SECONDS_PER_DAY), rem / 3600, rem % 3600 / 60, rem % 60)
  }

  // ---------------------------------------------------------------------------
  // The calendar
  // ---------------------------------------------------------------------------

  predicate IsLeap(year: int) {
    year % 4 == 0 && (year % 100 != 0 || year % 400 == 0)
  }

  function DaysInMonth(year: int, month: int): int
    requires 1 <= month <= 12
  {
    if month == 2 then if IsLeap(year) then 29 else 28
    else if month == 4 || month == 6 || month == 9 || month == 11 then 30
    else 31
  }

  predicate IsDate(d: Date) {
    d.year >= 0 && 1 <= d.month <= 12 && 1 <= d.day <= DaysInMonth(d.year, d.month)
  }

  /** The days of all years in front of `year`, counted from year 0. */
  function DaysBeforeYear(year: nat): nat {
    if year == 0 then 0 else DaysBeforeYear(year - 1) + if IsLeap(year - 1) then 366 else 365
  }

  function DaysBeforeMonth(year: int, month: int): int
    requires 1 <= month <= 13
    decreases month
  {
    if month == 1 then 0 else DaysBeforeMonth(year, month - 1) + DaysInMonth(year, month - 1)
  }

  function DayNumber(d: Date): int
    requires IsDate(d)
  {
    DaysBeforeYear(d.year) + DaysBeforeMonth(d.year, d.month) + d.day - 1
  }

  const EPOCH := Date(1970, 1, 1)

  function NextDate(d: Date): Date
    requires IsDate(d)
  {
    if d.day < DaysInMonth(d.year, d.month) then d.(day := d.day + 1)
    else if d.month < 12 then Date(d.year, d.month + 1, 1)
    else Date(d.year + 1, 1, 1)
  }

  // ---------------------------------------------------------------------------
  // Years
  // ---------------------------------------------------------------------------

  lemma {:induction false} DaysBeforeYearIs(year: nat)
    ensures DaysBeforeYear(year) == 365 * year + (year + 3) / 4 - (year + 99) / 100 + (year + 399) / 400
  {
    if year > 0 {
      DaysBeforeYearIs(year - 1);
      LeapYearStep(year - 1);
    }
  }

  lemma LeapYearStep(y: nat)
    ensures (y + 4) / 4 - (y + 100) / 100 + (y + 400) / 400
         == (y + 3) / 4 - (y + 99) / 100 + (y + 399) / 400 + if IsLeap(y) then 1 else 0
  {
    Quotient4(y);
    Quotient100(y);
    Quotient400(y);
    Multiples(y);
  }

  lemma Quotient4(n: nat)
    ensures (n + 4) / 4 == n / 4 + 1 == (n + 3) / 4 + if n % 4 == 0 then 1 else 0
  {
  }

  lemma Quotient100(n: nat)
    ensures (n + 100) / 100 == n / 100 + 1 == (n + 99) / 100 + if n % 100 == 0 then 1 else 0
  {
  }

  lemma Quotient400(n: nat)
    ensures (n + 400) / 400 == n / 400 + 1 == (n + 399) / 400 + if n % 400 == 0 then 1 else 0
  {
  }

  lemma Multiples(n: nat)
    ensures n % 400 == 0 ==> n % 100 == 0
    ensures n % 100 == 0 ==> n % 4 == 0
  {
    if n % 400 == 0 {
      TimesHundred(4 * (n / 400));
    }
    if n % 100 == 0 {
      TimesFour(25 * (n / 100));
    }
  }

  lemma TimesHundred(k: int)
    ensures 100 * k % 100 == 0
  {
  }

  lemma TimesFour(k: int)
    ensures 4 * k % 4 == 0
  {
  }

  /** Splits the days of an era of 400 years that begins on 1 March: centuries, groups of four years, years, days. The
      last year of a group has the leap day at its end, but the last group of a century only in the last century. */
  lemma SplitEra(doe: int) returns (c: int, q: int, s: int, d: int)
    requires 0 <= doe < 146_097
    ensures doe == 36_524 * c + 1461 * q + 365 * s + d
    ensures 0 <= c <= 3 && 0 <= q <= 24 && 0 <= s <= 3 && 0 <= d <= 365
    ensures d == 365 ==> s == 3 && (q < 24 || c == 3)
  {
    c := if doe < 146_096 then doe / 36_524 else 3;
    var r := doe - 36_524 * c;
    q := r / 1461;
    var t := r - 1461 * q;
    s := if t < 1460 then t / 365 else 3;
    d := t - 365 * s;
  }

  lemma YearOfEraIs(doe: int, c: int, q: int, s: int, d: int)
    requires 0 <= doe < 146_097
    requires doe == 36_524 * c + 1461 * q + 365 * s + d
    requires 0 <= c <= 3 && 0 <= q <= 24 && 0 <= s <= 3 && 0 <= d <= 365
    requires d == 365 ==> s == 3 && (q < 24 || c == 3)
    ensures YearOfEra(doe) == 100 * c + 4 * q + s
    ensures DayOfYear(doe) == d
  {
    var e := 24 * c + q + 365 * s + d;
    var carry := if e >= 1460 then 1 else 0;
    assert doe == 1460 * (25 * c + q) + e;
    assert doe / 1460 == 25 * c + q + carry;
    var last := if doe == 146_096 then 1 else 0;
    assert doe / 36_524 == c + last;
    assert doe / 146_096 == last;
    var yoe := 100 * c + 4 * q + s;
    assert doe - doe / 1460 + doe / 36_524 - doe / 146_096 == 365 * yoe + (d - carry);
    assert YearOfEra(doe) == yoe;
    assert yoe / 4 == 25 * c + q;
    assert yoe / 100 == c;
  }

  // ---------------------------------------------------------------------------
  // Months
  // ---------------------------------------------------------------------------

  /** The first day of the `mp`-th month of a year that begins on 1 March. */
  function MarchStart(mp: int): int {
    (153 * mp + 2) / 5
  }

  lemma MonthOfDay(doy: int)
    requires 0 <= doy <= 365
    ensures var mp := (5 * doy + 2) / 153;
      0 <= mp <= 11 && MarchStart(mp) <= doy && (mp < 11 ==> doy < MarchStart(mp + 1))
  {
  }

  lemma MonthsBefore(year: int)
    ensures DaysBeforeMonth(year, 1) == 0 && DaysBeforeMonth(year, 2) == 31
    ensures var l := if IsLeap(year) then 60 else 59;
      forall m :: 3 <= m <= 13 ==> DaysBeforeMonth(year, m) == l + MarchStart(m - 3)
  {
    var l := if IsLeap(year) then 60 else 59;
    assert DaysBeforeMonth(year, 3) == l;
    assert DaysBeforeMonth(year, 4) == l + 31;
    assert DaysBeforeMonth(year, 5) == l + 61;
    assert DaysBeforeMonth(year, 6) == l + 92;
    assert DaysBeforeMonth(year, 7) == l + 122;
    assert DaysBeforeMonth(year, 8) == l + 153;
    assert DaysBeforeMonth(year, 9) == l + 184;
    assert DaysBeforeMonth(year, 10) == l + 214;
    assert DaysBeforeMonth(year, 11) == l + 245;
    assert DaysBeforeMonth(year, 12) == l + 275;
    assert DaysBeforeMonth(year, 13) == l + 306;
  }

  // ---------------------------------------------------------------------------
  // The date is right
  // ---------------------------------------------------------------------------

  /** Day `d` of the year that begins on 1 March of year `y`, as a calendar date. */
  lemma MarchYearDate(y: nat, d: int, date: Date)
    requires 0 <= d <= 365 && (d == 365 ==> IsLeap(y + 1))
    requires var mp := (5 * d + 2) / 153;
      date == (if mp < 10 then Date(y, mp + 3, d - MarchStart(mp) + 1) else Date(y + 1, mp - 9, d - MarchStart(mp) + 1))
    ensures IsDate(date)
    ensures DayNumber(date) == 365 * y + y / 4 - y / 100 + y / 400 + 60 + d
  {
    hide DaysBeforeYear, DaysBeforeMonth;
    MonthOfDay(d);
    var mp := (5 * d + 2) / 153;
    MonthLength(mp, d, date);
    DaysBeforeYearIs(y);
    DaysBeforeYearIs(y + 1);
    MonthsBefore(date.year);
    LeapsThrough(y);
  }

  lemma MonthLength(mp: int, d: int, date: Date)
    requires 0 <= mp <= 11 && MarchStart(mp) <= d <= 365 && (mp < 11 ==> d < MarchStart(mp + 1))
    requires 1 <= date.month == (if mp < 10 then mp + 3 else mp - 9) && (d == 365 ==> IsLeap(date.year))
    ensures 1 <= d - MarchStart(mp) + 1 <= DaysInMonth(date.year, date.month)
  {
    hide IsLeap;
  }

  lemma LeapsThrough(y: nat)
    ensures (y + 3) / 4 - (y + 99) / 100 + (y + 399) / 400 + (if IsLeap(y) then 1 else 0)
         == y / 4 - y / 100 + y / 400 + 1
    ensures (y + 4) / 4 - (y + 100) / 100 + (y + 400) / 400 == y / 4 - y / 100 + y / 400 + 1
  {
    hide IsLeap;
    LeapYearStep(y);
    Quotient4(y);
    Quotient100(y);
    Quotient400(y);
  }

  /** The engine's date, from the parts of the era. */
  lemma CivilParts(days: nat, era: int, doe: int, c: int, q: int, s: int, d: int)
    requires era == (days + 719_468) / 146_097 && doe == (days + 719_468) % 146_097
    requires doe == 36_524 * c + 1461 * q + 365 * s + d
    requires 0 <= c <= 3 && 0 <= q <= 24 && 0 <= s <= 3 && 0 <= d <= 365
    requires d == 365 ==> s == 3 && (q < 24 || c == 3)
    ensures var y, mp := 100 * c + 4 * q + s + era * 400, (5 * d + 2) / 153;
      CivilFromDays(days)
      == if mp < 10 then Date(y, mp + 3, d - MarchStart(mp) + 1) else Date(y + 1, mp - 9, d - MarchStart(mp) + 1)
  {
    hide YearOfEra, DayOfYear;
    YearOfEraIs(doe, c, q, s, d);
    MonthOfDay(d);
  }

  /** Day `d` of the March year `y` lies 60 days behind the start of the eras, which the calendar counts from year 0. */
  lemma DaysOfEras(z: int, era: int, c: int, q: int, s: int, d: int)
    requires z == 146_097 * era + 36_524 * c + 1461 * q + 365 * s + d
    requires 0 <= c <= 3 && 0 <= q <= 24 && 0 <= s <= 3
    ensures var y := 100 * c + 4 * q + s + era * 400; 365 * y + y / 4 - y / 100 + y / 400 + d == z
  {
    EraQuotients(era, c, q, s);
  }

  /** For every day since 1970-01-01 the engine computes a date of the Gregorian calendar, and the right one. */
  lemma DateIsRight(days: nat)
    ensures IsDate(CivilFromDays(days))
    ensures DayNumber(CivilFromDays(days)) - DayNumber(EPOCH) == days
  {
    hide *;
    var era, doe := (days + 719_468) / 146_097, (days + 719_468) % 146_097;
    var c, q, s, d := SplitEra(doe);
    CivilParts(days, era, doe, c, q, s, d);
    LeapAtTheEnd(era, c, q, s, d);
    MarchYearDate(100 * c + 4 * q + s + era * 400, d, CivilFromDays(days));
    DaysOfEras(days + 719_468, era, c, q, s, d);
    EpochNumber();
  }

  lemma LeapAtTheEnd(era: int, c: int, q: int, s: int, d: int)
    requires d == 365 ==> s == 3 && (q < 24 || c == 3)
    requires 0 <= c <= 3 && 0 <= q <= 24 && 0 <= s <= 3
    ensures d == 365 ==> IsLeap(100 * c + 4 * q + s + era * 400 + 1)
  {
    hide IsLeap;
    if d == 365 {
      if q < 24 {
        LeapInCentury(c + 4 * era, q + 1);
      } else {
        LeapAtEraEnd(era + 1);
      }
    }
  }

  lemma LeapInCentury(c: int, q: int)
    requires 0 < q < 25
    ensures IsLeap(100 * c + 4 * q)
  {
    TimesFour(25 * c + q);
    assert (100 * c + 4 * q) / 100 == c;
  }

  lemma LeapAtEraEnd(era: int)
    ensures IsLeap(400 * era)
  {
    TimesFour(100 * era);
    assert 400 * era / 400 == era;
  }

  lemma EraQuotients(era: int, c: int, q: int, s: int)
    requires 0 <= c <= 3 && 0 <= q <= 24 && 0 <= s <= 3
    ensures var y := 100 * c + 4 * q + s + era * 400;
      y / 4 == 100 * era + 25 * c + q && y / 100 == 4 * era + c && y / 400 == era
  {
  }

  lemma EpochNumber()
    ensures IsDate(EPOCH) && DayNumber(EPOCH) == 719_528
  {
    DaysBeforeYearIs(1970);
    hide DaysBeforeYear;
  }

  // ---------------------------------------------------------------------------
  // The calendar has one date per day
  // ---------------------------------------------------------------------------

  lemma {:induction false} YearsGrow(a: nat, b: nat)
    requires a <= b
    ensures DaysBeforeYear(a) + 365 * (b - a) <= DaysBeforeYear(b)
  {
    if a < b {
      YearsGrow(a, b - 1);
    }
  }

  lemma {:induction false} MonthsGrow(year: int, a: int, b: int)
    requires 1 <= a < b <= 13
    ensures DaysBeforeMonth(year, a) + DaysInMonth(year, a) <= DaysBeforeMonth(year, b)
    decreases b
  {
    if a < b - 1 {
      MonthsGrow(year, a, b - 1);
    }
  }

  lemma WithinYear(d: Date)
    requires IsDate(d)
    ensures DaysBeforeYear(d.year) <= DayNumber(d) < DaysBeforeYear(d.year + 1)
  {
    hide MarchStart;
    MonthsBefore(d.year);
    MonthsGrow(d.year, d.month, 13);
    assert MarchStart(10) == 306;
    hide DaysBeforeMonth;
    if d.month > 1 {
      MonthsGrow(d.year, 1, d.month);
    }
  }

  lemma DayNumberIsInjective(a: Date, b: Date)
    requires IsDate(a) && IsDate(b) && DayNumber(a) == DayNumber(b)
    ensures a == b
  {
    WithinYear(a);
    WithinYear(b);
    hide DaysBeforeYear, DaysBeforeMonth, IsLeap;
    if a.year < b.year {
      YearsGrow(a.year + 1, b.year);
    } else if b.year < a.year {
      YearsGrow(b.year + 1, a.year);
    } else if a.month < b.month {
      MonthsGrow(a.year, a.month, b.month);
    } else if b.month < a.month {
      MonthsGrow(a.year, b.month, a.month);
    }
  }

  lemma NextDateIsNext(d: Date)
    requires IsDate(d)
    ensures IsDate(NextDate(d)) && DayNumber(NextDate(d)) == DayNumber(d) + 1
  {
    hide IsLeap;
    YearLength(d.year);
  }

  lemma YearLength(year: nat)
    ensures DaysBeforeYear(year + 1) == DaysBeforeYear(year) + DaysBeforeMonth(year, 12) + DaysInMonth(year, 12)
  {
    hide IsLeap;
    MonthsBefore(year);
    assert MarchStart(9) == 275;
    hide DaysBeforeMonth;
  }

  /** Consecutive days have consecutive dates. */
  lemma DaysAreConsecutive(days: nat)
    ensures IsDate(CivilFromDays(days)) && CivilFromDays(days + 1) == NextDate(CivilFromDays(days))
  {
    hide CivilFromDays, DayNumber, IsDate, NextDate;
    DateIsRight(days);
    DateIsRight(days + 1);
    NextDateIsNext(CivilFromDays(days));
    DayNumberIsInjective(CivilFromDays(days + 1), NextDate(CivilFromDays(days)));
  }

  /** Every date from 1970 on is the date of exactly the day it numbers. */
  lemma EveryDateIsReached(d: Date, days: nat)
    requires IsDate(d)
    ensures CivilFromDays(days) == d <==> DayNumber(d) - DayNumber(EPOCH) == days
  {
    hide CivilFromDays, DayNumber, IsDate;
    EpochNumber();
    DateIsRight(days);
    if DayNumber(d) - DayNumber(EPOCH) == days {
      DayNumberIsInjective(CivilFromDays(days), d);
    }
  }

  /** The time of day is in range, and date and time together give the seconds back. */
  lemma TimestampIsRight(secs: nat)
    ensures var t := UtcTimestamp(secs);
      && IsDate(t.date) && 0 <= t.hour < 24 && 0 <= t.minute < 60 && 0 <= t.second < 60
      && secs == (DayNumber(t.date) - DayNumber(EPOCH)) * SECONDS_PER_DAY + t.hour * 3600 + t.minute * 60 + t.second
  {
    hide CivilFromDays, DayNumber, IsDate;
    DateIsRight(secs / SECONDS_PER_DAY);
  }

  // ---------------------------------------------------------------------------
  // The text
  // ---------------------------------------------------------------------------

  function Zeros(n: nat): string {
    seq(n, _ => '0')
  }

  /** Decimal, padded with zeros to at least `width` digits. */
  function Padded(n: nat, width: nat): string {
    var digits := Print(n);
    Zeros(if |digits| < width then width - |digits| else 0) + digits
  }

  function Format(t: Timestamp): string
    requires IsDate(t.date) && 0 <= t.hour && 0 <= t.minute && 0 <= t.second
  {
    Padded(t.date.year, 4) + "-" + Padded(t.date.month, 2) + "-" + Padded(t.date.day, 2) + "T"
    + Padded(t.hour, 2) + ":" + Padded(t.minute, 2) + ":" + Padded(t.second, 2) + "Z"
  }

  lemma {:induction false} ZerosAreNothing(k: nat, digits: string)
    requires AllDigits(digits)
    ensures AllDigits(Zeros(k) + digits) && Value(Zeros(k) + digits) == Value(digits)
    decreases |digits| + k
  {
    var s := Zeros(k) + digits;
    if digits != "" {
      var n := |digits| - 1;
      ZerosAreNothing(k, digits[..n]);
      assert s[..|s| - 1] == Zeros(k) + digits[..n];
      assert s[|s| - 1] == digits[n];
    } else if k > 0 {
      ZerosAreNothing(k - 1, "");
      assert s[..k - 1] == Zeros(k - 1) + "";
      assert s[k - 1] == '0';
    }
  }

  lemma PaddedValue(n: nat, width: nat)
    ensures AllDigits(Padded(n, width)) && Value(Padded(n, width)) == n
    ensures width == 2 && n < 100 ==> |Padded(n, width)| == 2
    ensures |Padded(n, width)| >= width
  {
    hide Print, Value, AllDigits;
    var digits := Print(n);
    ValueOfPrint(n);
    ZerosAreNothing(if |digits| < width then width - |digits| else 0, digits);
    if n < 100 {
      AtMostTwoDigits(n);
    }
  }

  lemma AtMostTwoDigits(n: nat)
    requires n < 100
    ensures |Print(n)| <= 2
  {
    if n >= 10 {
      assert |Print(n / 10)| == 1;
    }
  }

  function UtcText(secs: nat): string {
    TimestampIsRight(secs);
    Format(UtcTimestamp(secs))
  }

  /** The digits between two positions stand for `n`. */
  predicate ShowsAt(s: string, i: int, j: int, n: int) {
    0 <= i < j <= |s| && AllDigits(s[i..j]) && Value(s[i..j]) == n
  }

  /** The text read by position, from its end, as section 5.6 of RFC 3339 lays it out: the year takes what is left. */
  predicate Shows(s: string, t: Timestamp) {
    var n := |s|;
    && n >= 20
    && ShowsAt(s, 0, n - 16, t.date.year) && s[n - 16] == '-'
    && ShowsAt(s, n - 15, n - 13, t.date.month) && s[n - 13] == '-'
    && ShowsAt(s, n - 12, n - 10, t.date.day) && s[n - 10] == 'T'
    && ShowsAt(s, n - 9, n - 7, t.hour) && s[n - 7] == ':'
    && ShowsAt(s, n - 6, n - 4, t.minute) && s[n - 4] == ':'
    && ShowsAt(s, n - 3, n - 1, t.second) && s[n - 1] == 'Z'
  }

  /** Reading the text gives the date and the time of day back. */
  lemma UtcTextShows(secs: nat)
    ensures Shows(UtcText(secs), UtcTimestamp(secs))
  {
    hide UtcTimestamp, DayNumber, Format, IsDate, Shows;
    TimestampIsRight(secs);
    FormatShows(UtcTimestamp(secs));
  }

  lemma FormatShows(t: Timestamp)
    requires IsDate(t.date) && 0 <= t.hour < 24 && 0 <= t.minute < 60 && 0 <= t.second < 60
    ensures Shows(Format(t), t)
  {
    hide Padded, Print, Value, AllDigits, IsLeap;
    PaddedValue(t.date.year, 4);
    PaddedValue(t.date.month, 2);
    PaddedValue(t.date.day, 2);
    PaddedValue(t.hour, 2);
    PaddedValue(t.minute, 2);
    PaddedValue(t.second, 2);
    Positions(Padded(t.date.year, 4), Padded(t.date.month, 2), Padded(t.date.day, 2),
              Padded(t.hour, 2), Padded(t.minute, 2), Padded(t.second, 2));
  }

  lemma Positions(y: string, mo: string, d: string, h: string, mi: string, s: string)
    requires |mo| == |d| == |h| == |mi| == |s| == 2
    ensures var x := y + "-" + mo + "-" + d + "T" + h + ":" + mi + ":" + s + "Z"; var n := |x|;
      && n == |y| + 16 && x[0..n - 16] == y && x[n - 16] == '-' && x[n - 15..n - 13] == mo && x[n - 13] == '-'
      && x[n - 12..n - 10] == d && x[n - 10] == 'T' && x[n - 9..n - 7] == h && x[n - 7] == ':'
      && x[n - 6..n - 4] == mi && x[n - 4] == ':' && x[n - 3..n - 1] == s && x[n - 1] == 'Z'
  {
  }

  /** The timestamps of two different seconds differ. */
  lemma UtcTextIsInjective(a: nat, b: nat)
    requires UtcText(a) == UtcText(b)
    ensures a == b
  {
    hide UtcTimestamp, DayNumber, Format, IsDate, AllDigits, Value;
    TimestampIsRight(a);
    TimestampIsRight(b);
    UtcTextShows(a);
    UtcTextShows(b);
  }
}
