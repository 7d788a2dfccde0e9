/** Printing an instant as `YYYY-MM-DD HH:MM:SS`, by either date algorithm. */
module Timestamps {
  import opened Calendar
  import opened Text
  import opened Wrappers

  // ---------- Zero-padded decimals ----------

  function Digit(d: nat): char
    requires d < 10
  {
    ('0' as int + d) as char
  }

  /** Decimal digits of `n`, padded with zeros to at least `width` of them. */
  function Padded(n: nat, width: nat): (text: string)
    requires width > 0
    ensures |text| >= width
    decreases n + width
  {
    if n < 10 && width == 1 then [Digit(n)]
    else Padded(n / 10, if width > 1 then width - 1 else 1) + [Digit(n % 10)]
  }

  function Power10(width: nat): nat {
    if width == 0 then 1 else 10 * Power10(width - 1)
  }

  lemma {:induction false} PaddedWidth(n: nat, width: nat)
    requires width > 0 && n < Power10(width)
    ensures |Padded(n, width)| == width
  {
    if width > 1 {
      PaddedWidth(n / 10, width - 1);
    }
  }

  lemma {:induction false} PaddedDigits(n: nat, width: nat)
    requires width > 0
    ensures AllDigits(Padded(n, width)) && Value(Padded(n, width)) == n
    decreases n + width
  {
    if n < 10 && width == 1 {
      assert Padded(n, width)[..0] == [];
    } else {
      var rest := if width > 1 then width - 1 else 1;
      PaddedDigits(n / 10, rest);
      ValueOfNext(Padded(n / 10, rest), Digit(n % 10));
    }
  }

  lemma PaddedParses(n: nat, width: nat, most: nat)
    requires width > 0 && n <= most
    ensures ParseUnsigned(Padded(n, width), most) == Some(n)
  {
    PaddedDigits(n, width);
    assert IsDigit(Padded(n, width)[0]);
  }

  lemma PaddedWidth2(n: nat)
    requires n < 100
    ensures |Padded(n, 2)| == 2
  {
  }

  /** Digits are what their number prints as, in their own width. */
  lemma {:induction false} DigitsPrintBack(digits: string)
    requires digits != [] && AllDigits(digits)
    ensures Padded(Value(digits), |digits|) == digits
    decreases |digits|
  {
    var n := |digits| - 1;
    var last := digits[n];
    assert Digit(DigitValue(last)) == last;
    if n == 0 {
      assert digits == [last] && Value(digits[..0]) == 0;
    } else {
      DigitsPrintBack(digits[..n]);
      assert digits == digits[..n] + [last];
    }
  }

  /** Numbers of the same printed width compare as their digits do. */
  lemma {:induction false} PaddedOrder(m: nat, n: nat, width: nat)
    requires width > 0 && m < Power10(width) && n < Power10(width)
    ensures LexLess(Padded(m, width), Padded(n, width)) <==> m < n
    ensures Padded(m, width) == Padded(n, width) <==> m == n
  {
    PaddedWidth(m, width);
    PaddedWidth(n, width);
    DigitOrder(m % 10, n % 10);
    if width > 1 {
      PaddedWidth(m / 10, width - 1);
      PaddedWidth(n / 10, width - 1);
      PaddedOrder(m / 10, n / 10, width - 1);
      var p, q := Padded(m / 10, width - 1), Padded(n / 10, width - 1);
      LexConcat(p, q, [Digit(m % 10)], [Digit(n % 10)]);
      SameWhenExtended(p, q, Digit(m % 10), Digit(n % 10));
    }
  }

  lemma SameWhenExtended(p: string, q: string, c: char, d: char)
    requires |p| == |q|
    ensures p + [c] == q + [d] <==> p == q && c == d
  {
    assert (p + [c])[..|p|] == p && (q + [d])[..|q|] == q;
    assert (p + [c])[|p|] == c && (q + [d])[|q|] == d;
  }

  lemma DigitOrder(d: nat, e: nat)
    requires d < 10 && e < 10
    ensures LexLess([Digit(d)], [Digit(e)]) <==> d < e
    ensures Digit(d) == Digit(e) <==> d == e
  {
    assert !LexLess([], []);
    assert [Digit(d)][1..] == [] && [Digit(e)][1..] == [];
  }

  // ---------- The printed instant ----------

  /** An instant split into the six printed fields. */
  datatype Instant = Instant(date: Date, hours: nat, minutes: nat, seconds: nat)

  function Split(secs: nat): Instant {
    var rest := secs % 86400;
    Instant(DaysToYmd(secs / 86400), rest / 3600, (rest % 3600) / 60, rest % 60)
  }

  function Print(t: Instant): string
    requires t.date.year >= 0 && Valid(t.date)
  {
    Padded(t.date.year, 4) + "-" + Padded(t.date.month, 2) + "-" + Padded(t.date.day, 2) + " " +
    Padded(t.hours, 2) + ":" + Padded(t.minutes, 2) + ":" + Padded(t.seconds, 2)
  }

  lemma YearsSinceEpoch(days: nat)
    ensures DaysToYmd(days).year >= 1970
  {
    var t := DaysToYmd(days);
    YearsAddUp(1970);
    if t.year < 1970 {
      LaterYearsStartLater(t.year, 1970);
      DayWithinYear(t);
    }
  }

  /** The remote listing's formatter. */
  function ChronoFromUnixTimestamp(secs: nat): string {
    YearsSinceEpoch(secs / 86400);
    Print(Split(secs))
  }

  /**
   * The local listing's formatter. Its callers pass the seconds since the
   * epoch of a file time, taken as zero for earlier times.
   */
  method FormatUnixTimestamp(secs: nat) returns (text: string)
    ensures text == ChronoFromUnixTimestamp(secs)
  {
    var days := secs / 86400;
    var timeOfDay := secs % 86400;
    var hours := timeOfDay / 3600;
    var minutes := (timeOfDay % 3600) / 60;
    var seconds := timeOfDay % 60;
    var t := YmdByLoops(days);
    YearsSinceEpoch(days);
    text := Print(Instant(t, hours, minutes, seconds));
  }

  // ---------- The text shows the instant ----------

  /** The characters from `from` up to `to` are digits and make up the number `n`. */
  predicate Shows(text: string, from: nat, to: nat, n: nat) {
    from < to <= |text| && AllDigits(text[from..to]) && Value(text[from..to]) == n
  }

  /** `YYYY-MM-DD HH:MM:SS` with these numbers in these places. */
  predicate Stamp(text: string, year: nat, month: nat, day: nat, hours: nat, minutes: nat, seconds: nat) {
    && |text| == 19 && text[4] == text[7] == '-' && text[10] == ' ' && text[13] == text[16] == ':'
    && Shows(text, 0, 4, year) && Shows(text, 5, 7, month) && Shows(text, 8, 10, day)
    && Shows(text, 11, 13, hours) && Shows(text, 14, 16, minutes) && Shows(text, 17, 19, seconds)
  }

  function DateText(year: nat, month: nat, day: nat): string {
    Padded(year, 4) + "-" + Padded(month, 2) + "-" + Padded(day, 2)
  }

  function ClockText(hours: nat, minutes: nat, seconds: nat): string {
    Padded(hours, 2) + ":" + Padded(minutes, 2) + ":" + Padded(seconds, 2)
  }

  lemma FourDigits(year: nat)
    requires year < 10000
    ensures |Padded(year, 4)| == 4
  {
    assert Power10(4) == 10 * Power10(3) == 100 * Power10(2) == 1000 * Power10(1) == 10000;
    PaddedWidth(year, 4);
  }

  lemma Placed(before: string, field: string, after: string)
    ensures (before + field + after)[|before|..|before| + |field|] == field
  {
  }

  lemma DateReadsBack(year: nat, month: nat, day: nat)
    requires year < 10000 && month < 100 && day < 100
    ensures var text := DateText(year, month, day);
            && |text| == 10 && text[4] == text[7] == '-'
            && text[0..4] == Padded(year, 4) && text[5..7] == Padded(month, 2) && text[8..10] == Padded(day, 2)
  {
    FourDigits(year);
    PaddedWidth2(month);
    PaddedWidth2(day);
    var y, m, d := Padded(year, 4), Padded(month, 2), Padded(day, 2);
    assert DateText(year, month, day) == y + "-" + m + "-" + d;
  }

  lemma ClockReadsBack(hours: nat, minutes: nat, seconds: nat)
    requires hours < 100 && minutes < 100 && seconds < 100
    ensures var text := ClockText(hours, minutes, seconds);
            && |text| == 8 && text[2] == text[5] == ':'
            && text[0..2] == Padded(hours, 2) && text[3..5] == Padded(minutes, 2) && text[6..8] == Padded(seconds, 2)
  {
    PaddedWidth2(hours);
    PaddedWidth2(minutes);
    PaddedWidth2(seconds);
  }

  /** Printed fields read back as the numbers they were printed from, each in its place. */
  lemma FieldsReadBack(year: nat, month: nat, day: nat, hours: nat, minutes: nat, seconds: nat)
    requires year < 10000 && month < 100 && day < 100 && hours < 100 && minutes < 100 && seconds < 100
    ensures Stamp(DateText(year, month, day) + " " + ClockText(hours, minutes, seconds), year, month, day, hours, minutes, seconds)
  {
    var date, clock := DateText(year, month, day), ClockText(hours, minutes, seconds);
    var text := date + " " + clock;
    DateReadsBack(year, month, day);
    ClockReadsBack(hours, minutes, seconds);
    assert text[0..4] == date[0..4] && text[5..7] == date[5..7] && text[8..10] == date[8..10];
    assert text[11..13] == clock[0..2] && text[14..16] == clock[3..5] && text[17..19] == clock[6..8];
    PaddedDigits(year, 4);
    PaddedDigits(month, 2);
    PaddedDigits(day, 2);
    PaddedDigits(hours, 2);
    PaddedDigits(minutes, 2);
    PaddedDigits(seconds, 2);
  }

  lemma ClockSplits(secs: nat, day: int, hours: nat, minutes: nat, seconds: nat)
    requires hours < 24 && minutes < 60 && seconds < 60
    requires secs == 86400 * day + 3600 * hours + 60 * minutes + seconds
    ensures secs / 86400 == day && (secs % 86400) / 3600 == hours
    ensures ((secs % 86400) % 3600) / 60 == minutes && (secs % 86400) % 60 == seconds
  {
    DayAndRest(secs, day, 3600 * hours + 60 * minutes + seconds);
    HoursAndRest(secs % 86400, hours, minutes, seconds);
  }

  lemma DayAndRest(secs: int, day: int, rest: nat)
    requires secs == 86400 * day + rest && rest < 86400
    ensures secs / 86400 == day && secs % 86400 == rest
  {
  }

  lemma HoursAndRest(rest: nat, hours: nat, minutes: nat, seconds: nat)
    requires rest == 3600 * hours + 60 * minutes + seconds && minutes < 60 && seconds < 60
    ensures rest / 3600 == hours && (rest % 3600) / 60 == minutes && rest % 60 == seconds
  {
    HourAndRest(rest, hours, 60 * minutes + seconds);
    MinuteAndRest(60 * minutes + seconds, minutes, seconds);
    MinuteAndRest(rest, 60 * hours + minutes, seconds);
  }

  lemma HourAndRest(time: nat, hours: nat, rest: nat)
    requires time == 3600 * hours + rest && rest < 3600
    ensures time / 3600 == hours && time % 3600 == rest
  {
  }

  lemma MinuteAndRest(time: nat, minutes: nat, rest: nat)
    requires time == 60 * minutes + rest && rest < 60
    ensures time / 60 == minutes && time % 60 == rest
  {
  }

  /** Every date and time of day is what its second splits into. */
  lemma SplitReadsBack(secs: nat, date: Date, hours: nat, minutes: nat, seconds: nat)
    requires Valid(date) && hours < 24 && minutes < 60 && seconds < 60
    requires secs == 86400 * DayNumber(date) + 3600 * hours + 60 * minutes + seconds
    ensures Split(secs) == Instant(date, hours, minutes, seconds)
  {
    ClockSplits(secs, DayNumber(date), hours, minutes, seconds);
    DaysToYmdInverts(date);
  }

  lemma PrintIsDateAndClock(t: Instant)
    requires t.date.year >= 0 && Valid(t.date)
    ensures Print(t) == DateText(t.date.year, t.date.month, t.date.day) + " " + ClockText(t.hours, t.minutes, t.seconds)
  {
  }

  /** The text of the second with that date and time of day shows that date and that time of day. */
  lemma TimestampsReadBack(secs: nat, date: Date, hours: nat, minutes: nat, seconds: nat)
    requires Valid(date) && 0 <= date.year < 10000 && hours < 24 && minutes < 60 && seconds < 60
    requires secs == 86400 * DayNumber(date) + 3600 * hours + 60 * minutes + seconds
    ensures Stamp(ChronoFromUnixTimestamp(secs), date.year, date.month, date.day, hours, minutes, seconds)
  {
    SplitReadsBack(secs, date, hours, minutes, seconds);
    PrintIsDateAndClock(Split(secs));
    FieldsReadBack(date.year, date.month, date.day, hours, minutes, seconds);
  }

  // ---------- The text sorts as time does ----------

  lemma DaysFollowDates(a: nat, b: nat)
    ensures Before(DaysToYmd(a), DaysToYmd(b)) <==> a < b
    ensures DaysToYmd(a) == DaysToYmd(b) <==> a == b
  {
    DayNumberIsMonotone(DaysToYmd(a), DaysToYmd(b));
  }

  /** The date part, for years of at most four digits. */
  function PrintDate(t: Date): string
    requires 0 <= t.year && Valid(t)
  {
    DateText(t.year, t.month, t.day)
  }

  lemma SeparatorsDoNotMatter(a: string, b: string, sep: string, c: string, d: string)
    requires |a| == |b|
    ensures LexLess(a + sep + c, b + sep + d) <==> LexLess(a, b) || (a == b && LexLess(c, d))
    ensures a + sep + c == b + sep + d <==> a == b && c == d
  {
    LexConcat(a, b, sep + c, sep + d);
    LexConcat(sep, sep, c, d);
    LexIrreflexive(sep);
    assert a + sep + c == a + (sep + c) && b + sep + d == b + (sep + d);
    if a + sep + c == b + sep + d {
      assert (a + sep + c)[..|a|] == a && (b + sep + d)[..|b|] == b;
      assert (a + sep + c)[|a + sep|..] == c && (b + sep + d)[|b + sep|..] == d;
    }
  }

  lemma TwoDigits(m: nat, n: nat)
    requires m < 100 && n < 100
    ensures |Padded(m, 2)| == |Padded(n, 2)| == 2
    ensures LexLess(Padded(m, 2), Padded(n, 2)) <==> m < n
    ensures Padded(m, 2) == Padded(n, 2) <==> m == n
  {
    assert Power10(2) == 10 * Power10(1) == 100;
    PaddedWidth(m, 2);
    PaddedWidth(n, 2);
    PaddedOrder(m, n, 2);
  }

  lemma DatesSort(s: Date, t: Date)
    requires Valid(s) && Valid(t) && 0 <= s.year < 10000 && 0 <= t.year < 10000
    ensures |PrintDate(s)| == |PrintDate(t)|
    ensures LexLess(PrintDate(s), PrintDate(t)) <==> Before(s, t)
    ensures PrintDate(s) == PrintDate(t) <==> s == t
  {
    assert Power10(3) == 10 * Power10(2) && Power10(2) == 100;
    PaddedWidth(s.year, 4);
    PaddedWidth(t.year, 4);
    PaddedOrder(s.year, t.year, 4);
    TwoDigits(s.month, t.month);
    TwoDigits(s.day, t.day);
    var y, y' := Padded(s.year, 4), Padded(t.year, 4);
    var m, m' := Padded(s.month, 2), Padded(t.month, 2);
    SeparatorsDoNotMatter(y, y', "-", m, m');
    SeparatorsDoNotMatter(y + "-" + m, y' + "-" + m', "-", Padded(s.day, 2), Padded(t.day, 2));
  }

  lemma TimesSort(h: nat, m: nat, s: nat, h': nat, m': nat, s': nat)
    requires h < 24 && m < 60 && s < 60 && h' < 24 && m' < 60 && s' < 60
    ensures |ClockText(h, m, s)| == |ClockText(h', m', s')|
    ensures LexLess(ClockText(h, m, s), ClockText(h', m', s')) <==> 3600 * h + 60 * m + s < 3600 * h' + 60 * m' + s'
    ensures ClockText(h, m, s) == ClockText(h', m', s') <==> 3600 * h + 60 * m + s == 3600 * h' + 60 * m' + s'
  {
    TwoDigits(h, h');
    TwoDigits(m, m');
    TwoDigits(s, s');
    var p, p' := Padded(h, 2) + ":" + Padded(m, 2), Padded(h', 2) + ":" + Padded(m', 2);
    SeparatorsDoNotMatter(Padded(h, 2), Padded(h', 2), ":", Padded(m, 2), Padded(m', 2));
    SeparatorsDoNotMatter(p, p', ":", Padded(s, 2), Padded(s', 2));
  }

  /** Through year 9999, comparing the printed timestamps as text is comparing the instants. */
  lemma TimestampsSortAsTime(a: nat, b: nat)
    requires DaysToYmd(a / 86400).year < 10000 && DaysToYmd(b / 86400).year < 10000
    ensures LexLess(ChronoFromUnixTimestamp(a), ChronoFromUnixTimestamp(b)) <==> a < b
    ensures ChronoFromUnixTimestamp(a) == ChronoFromUnixTimestamp(b) <==> a == b
  {
    var s, t := Split(a), Split(b);
    YearsSinceEpoch(a / 86400);
    YearsSinceEpoch(b / 86400);
    DaysFollowDates(a / 86400, b / 86400);
    DatesSort(s.date, t.date);
    TimesSort(s.hours, s.minutes, s.seconds, t.hours, t.minutes, t.seconds);
    SeparatorsDoNotMatter(PrintDate(s.date), PrintDate(t.date), " ",
                          ClockText(s.hours, s.minutes, s.seconds), ClockText(t.hours, t.minutes, t.seconds));
    PrintIsDateAndClock(s);
    PrintIsDateAndClock(t);
    TimeOfDay(a);
    TimeOfDay(b);
  }

  lemma TimeOfDay(secs: nat)
    ensures var t := Split(secs);
            && t.hours < 24 && t.minutes < 60 && t.seconds < 60
            && secs == 86400 * (secs / 86400) + 3600 * t.hours + 60 * t.minutes + t.seconds
  {
    TimeParts(secs % 86400);
  }

  lemma TimeParts(rest: nat)
    requires rest < 86400
    ensures rest / 3600 < 24 && (rest % 3600) / 60 < 60 && rest % 60 < 60
    ensures rest == 3600 * (rest / 3600) + 60 * ((rest % 3600) / 60) + rest % 60
  {
  }

  /**
   * ... and exactly that far: up to an instant `last` the text order is the time
   * order if and only if `last` lies before the year 10000.
   */
  lemma TextOrderHoldsExactlyThrough9999(last: nat)
    ensures (forall a: nat, b: nat :: a <= last && b <= last ==>
               (LexLess(ChronoFromUnixTimestamp(a), ChronoFromUnixTimestamp(b)) <==> a < b))
            <==> DaysToYmd(last / 86400).year < 10000
  {
    if DaysToYmd(last / 86400).year < 10000 {
      forall a: nat, b: nat | a <= last && b <= last
        ensures LexLess(ChronoFromUnixTimestamp(a), ChronoFromUnixTimestamp(b)) <==> a < b
      {
        YearsNeverFall(a, last);
        YearsNeverFall(b, last);
        TimestampsSortAsTime(a, b);
      }
    } else {
      var first := YearTenThousand(last);
      EpochYear();
      FiveDigitYearsSortFirst(0, first);
      LexAsymmetric(ChronoFromUnixTimestamp(first), ChronoFromUnixTimestamp(0));
      assert 0 < first && !LexLess(ChronoFromUnixTimestamp(0), ChronoFromUnixTimestamp(first));
    }
  }

  lemma YearsNeverFall(a: nat, b: nat)
    requires a <= b
    ensures DaysToYmd(a / 86400).year <= DaysToYmd(b / 86400).year
  {
    DaysFollowDates(b / 86400, a / 86400);
    DaysFollowDates(a / 86400, b / 86400);
  }

  lemma NewYear(y: int)
    ensures Valid(Date(y, 1, 1)) && DayNumber(Date(y, 1, 1)) == DaysBeforeYear(y)
  {
  }

  /** A date falls in the year `y` or later exactly from that year's first day on. */
  lemma FromNewYear(day: nat, y: int)
    ensures DaysToYmd(day).year >= y <==> day >= DaysBeforeYear(y)
  {
    NewYear(y);
    DayNumberIsMonotone(DaysToYmd(day), Date(y, 1, 1));
  }

  lemma EpochYear()
    ensures DaysToYmd(0).year < 10000 && DaysBeforeYear(10000) > 0
  {
    YearsAddUp(1970);
    LaterYearsStartLater(1970, 10000);
    FromNewYear(0, 10000);
  }

  lemma NewYearOf10000() returns (day: nat)
    ensures day == DaysBeforeYear(10000) && DaysToYmd(day).year == 10000
  {
    EpochYear();
    day := DaysBeforeYear(10000);
    FromNewYear(day, 10000);
    FromNewYear(day, 10001);
    LaterYearsStartLater(10000, 10001);
  }

  /** The first second of the year 10000 is not past any instant from that year on. */
  lemma YearTenThousand(last: nat) returns (first: nat)
    requires DaysToYmd(last / 86400).year >= 10000
    ensures first <= last && DaysToYmd(first / 86400).year == 10000
  {
    var day := NewYearOf10000();
    FromNewYear(last / 86400, 10000);
    first := Midnight(day, last);
  }

  lemma Midnight(day: nat, last: nat) returns (first: nat)
    requires day <= last / 86400
    ensures first <= last && first / 86400 == day
  {
    first := 86400 * day;
  }

  /** The failing case: every instant of the years 10000 to 18999 prints before every instant of the years up to 9999. */
  lemma FiveDigitYearsSortFirst(a: nat, b: nat)
    requires DaysToYmd(a / 86400).year < 10000 <= DaysToYmd(b / 86400).year < 19000
    ensures a < b && LexLess(ChronoFromUnixTimestamp(b), ChronoFromUnixTimestamp(a))
  {
    YearsSinceEpoch(a / 86400);
    YearsSinceEpoch(b / 86400);
    DaysFollowDates(a / 86400, b / 86400);
    EarlyYearPrefix(DaysToYmd(a / 86400).year);
    LateYearPrefix(DaysToYmd(b / 86400).year);
    PrintStartsWithYear(Split(a));
    PrintStartsWithYear(Split(b));
    FirstCharacters(ChronoFromUnixTimestamp(b), ChronoFromUnixTimestamp(a));
  }

  lemma PrintStartsWithYear(t: Instant)
    requires t.date.year >= 0 && Valid(t.date)
    ensures Padded(t.date.year, 4) <= Print(t)
  {
  }

  lemma DropsOneDigit(n: nat, width: nat)
    requires width > 0 && (n >= 10 || width > 1)
    ensures Padded(n / 10, if width > 1 then width - 1 else 1) <= Padded(n, width)
  {
  }

  lemma EarlyYearPrefix(y: nat)
    requires 1970 <= y < 10000
    ensures var p := Padded(y, 4); |p| >= 2 && (p[0] > '1' || (p[0] == '1' && p[1] == '9'))
  {
    var b := y / 10 / 10;
    DropsOneDigit(y, 4);
    DropsOneDigit(y / 10, 3);
    assert Padded(b, 2) == [Digit(b / 10), Digit(b % 10)];
    assert 19 <= b < 100;
  }

  lemma LateYearPrefix(y: nat)
    requires 10000 <= y < 19000
    ensures var p := Padded(y, 4); |p| >= 2 && p[0] == '1' && p[1] < '9'
  {
    var c := y / 10 / 10 / 10;
    DropsOneDigit(y, 4);
    DropsOneDigit(y / 10, 3);
    DropsOneDigit(y / 10 / 10, 2);
    assert 10 <= c < 19;
    assert Padded(c, 1) == [Digit(c / 10), Digit(c % 10)];
  }

  lemma FirstCharacters(s: string, t: string)
    requires |s| >= 2 && |t| >= 2 && (s[0] < t[0] || (s[0] == t[0] && s[1] < t[1]))
    ensures LexLess(s, t)
  {
    assert s[1..][0] == s[1] && t[1..][0] == t[1];
  }
}
