/**
 * The two date algorithms behind the `modified` column of a directory
 * comparison: closed-form era arithmetic for remote files and a
 * year-then-month subtraction loop for local ones.
 */
module Calendar {

  datatype Date = Date(year: int, month: int, day: int)

  // ---------- The Gregorian calendar ----------

  predicate Leap(y: int) {
    (y % 4 == 0 && y % 100 != 0) || y % 400 == 0
  }

  function YearLength(y: int): int {
    if Leap(y) then 366 else 365
  }

  function MonthLength(y: int, m: int): int
    requires 1 <= m <= 12
  {
    if m == 2 then (if Leap(y) then 29 else 28)
    else if m == 4 || m == 6 || m == 9 || m == 11 then 30
    else 31
  }

  predicate Valid(t: Date) {
    1 <= t.month <= 12 && 1 <= t.day <= MonthLength(t.year, t.month)
  }

  /** Leap days in the years before `y`, counted from year 1. */
  function LeapDaysBefore(y: int): int {
    (y - 1) / 4 - (y - 1) / 100 + (y - 1) / 400
  }

  /** Days from 1970-01-01 to the first of January of `y`. */
  function DaysBeforeYear(y: int): int {
    365 * (y - 1970) + LeapDaysBefore(y) - 477
  }

  /** Days of year `y` before its month `m`. */
  function DaysBeforeMonth(y: int, m: int): int
    requires 1 <= m <= 12
    decreases m
  {
    if m == 1 then 0 else DaysBeforeMonth(y, m - 1) + MonthLength(y, m - 1)
  }

  /** The day number of a date: days since 1970-01-01. */
  function DayNumber(t: Date): int
    requires Valid(t)
  {
    DaysBeforeYear(t.year) + DaysBeforeMonth(t.year, t.month) + t.day - 1
  }

  /** The closed form for year starts agrees with adding up year lengths from the epoch. */
  lemma YearsAddUp(y: int)
    ensures DaysBeforeYear(1970) == 0
    ensures DaysBeforeYear(y + 1) == DaysBeforeYear(y) + YearLength(y)
  {
    Every4(y);
    Every100(y);
    Every400(y);
    LeapDays(y);
  }

  lemma Every4(y: int)
    ensures y / 4 == (y - 1) / 4 + if y % 4 == 0 then 1 else 0
  {
  }

  lemma Every100(y: int)
    ensures y / 100 == (y - 1) / 100 + if y % 100 == 0 then 1 else 0
  {
  }

  lemma Every400(y: int)
    ensures y / 400 == (y - 1) / 400 + if y % 400 == 0 then 1 else 0
  {
  }

  lemma LeapDays(y: int)
    ensures Leap(y) <==> (if y % 4 == 0 then 1 else 0) - (if y % 100 == 0 then 1 else 0) + (if y % 400 == 0 then 1 else 0) == 1
    ensures !Leap(y) <==> (if y % 4 == 0 then 1 else 0) - (if y % 100 == 0 then 1 else 0) + (if y % 400 == 0 then 1 else 0) == 0
  {
    HundredsAreFours(y);
    FourHundredsAreHundreds(y);
  }

  lemma HundredsAreFours(y: int)
    ensures y % 100 == 0 ==> y % 4 == 0
  {
    if y % 100 == 0 {
      assert y == 4 * (25 * (y / 100));
    }
  }

  lemma FourHundredsAreHundreds(y: int)
    ensures y % 400 == 0 ==> y % 100 == 0
  {
    if y % 400 == 0 {
      assert y == 100 * (4 * (y / 400));
    }
  }

  lemma MonthsAddUp(y: int)
    ensures DaysBeforeMonth(y, 12) + MonthLength(y, 12) == YearLength(y)
    ensures DaysBeforeMonth(y, 3) == if Leap(y) then 60 else 59
  {
    var l := if Leap(y) then 1 else 0;
    assert DaysBeforeMonth(y, 3) == 59 + l;
    assert DaysBeforeMonth(y, 5) == 120 + l;
    assert DaysBeforeMonth(y, 7) == 181 + l;
    assert DaysBeforeMonth(y, 9) == 243 + l;
    assert DaysBeforeMonth(y, 11) == 304 + l;
  }

  lemma {:induction false} LaterYearsStartLater(y: int, y': int)
    requires y < y'
    ensures DaysBeforeYear(y) + YearLength(y) <= DaysBeforeYear(y')
    decreases y' - y
  {
    YearsAddUp(y);
    if y + 1 < y' {
      LaterYearsStartLater(y + 1, y');
    }
  }

  lemma {:induction false} LaterMonthsStartLater(y: int, m: int, m': int)
    requires 1 <= m < m' <= 12
    ensures DaysBeforeMonth(y, m) + MonthLength(y, m) <= DaysBeforeMonth(y, m')
    decreases m'
  {
    if m + 1 < m' {
      LaterMonthsStartLater(y, m, m' - 1);
    }
  }

  predicate Before(s: Date, t: Date) {
    s.year < t.year || (s.year == t.year && (s.month < t.month || (s.month == t.month && s.day < t.day)))
  }

  lemma DayWithinYear(t: Date)
    requires Valid(t)
    ensures DaysBeforeYear(t.year) <= DayNumber(t) < DaysBeforeYear(t.year) + YearLength(t.year)
  {
    MonthsAddUp(t.year);
    if t.month > 1 {
      LaterMonthsStartLater(t.year, 1, t.month);
    }
    if t.month < 12 {
      LaterMonthsStartLater(t.year, t.month, 12);
    }
  }

  /** Day numbers follow the order of dates, so a day number belongs to one date only. */
  lemma DayNumberIsMonotone(s: Date, t: Date)
    requires Valid(s) && Valid(t)
    ensures Before(s, t) <==> DayNumber(s) < DayNumber(t)
    ensures s == t <==> DayNumber(s) == DayNumber(t)
  {
    if Before(s, t) {
      EarlierDatesAreSmaller(s, t);
    } else if Before(t, s) {
      EarlierDatesAreSmaller(t, s);
    }
  }

  lemma EarlierDatesAreSmaller(s: Date, t: Date)
    requires Valid(s) && Valid(t) && Before(s, t)
    ensures DayNumber(s) < DayNumber(t)
  {
    DayWithinYear(s);
    DayWithinYear(t);
    if s.year < t.year {
      LaterYearsStartLater(s.year, t.year);
    } else if s.month < t.month {
      LaterMonthsStartLater(s.year, s.month, t.month);
    }
  }

  // ---------- Closed form ----------

  /** Division as the source does it, rounding toward zero. */
  function TruncDiv(a: int, b: int): int
    requires b > 0
  {
    if a >= 0 then a / b else -(-a / b)
  }

  /** Year of the 400-year era a day falls in; eras begin on the first of March. */
  function YearOfEra(doe: nat): int {
    (doe - doe / 1460 + doe / 36524 - doe / 146096) / 365
  }

  /** Days of the era before its year `yoe`. */
  function DaysOfEraBefore(yoe: int): int {
    365 * yoe + yoe / 4 - yoe / 100
  }

  /**
   * Days since the epoch to a date, in three parts: the era, the year inside
   * it, and the month and day inside the year. The intermediate unsigned
   * values are naturals here, so that none of the subtractions can wrap is
   * part of what is proved. The result is the date whose day number is `days`:
   * on every day, before the epoch as well as after.
   */
  function DaysToYmd(days: int): (t: Date)
    ensures Valid(t) && DayNumber(t) == days
  {
    var z := days + 719468;
    var era := TruncDiv(if z >= 0 then z else z - 146096, 146097);
    EraIsFloor(z);
    EraDate(era, z - era * 146097)
  }

  /** The date of day `doe` of an era. */
  function EraDate(era: int, doe: nat): (t: Date)
    requires doe < 146097
    ensures Valid(t) && DayNumber(t) == era * 146097 + doe - 719468
  {
    YearOfEraIsRight(doe);
    var yoe: nat := YearOfEra(doe);
    MarchYearLength(yoe);
    LeapsRepeat(yoe + 1, era);
    MarchFirst(era, yoe);
    MarchDate(yoe + era * 400, doe - DaysOfEraBefore(yoe))
  }

  /** The date of day `doy` of the year that begins on the first of March of `y`. */
  function MarchDate(y: int, doy: nat): (t: Date)
    requires doy < YearLength(y + 1)
    ensures Valid(t) && DayNumber(t) == DaysBeforeYear(y) + DaysBeforeMonth(y, 3) + doy
  {
    MarchMonths(y, doy);
    YearsAddUp(y);
    var mp: nat := (5 * doy + 2) / 153;
    var d: nat := doy - (153 * mp + 2) / 5 + 1;
    var m: nat := if mp < 10 then mp + 3 else mp - 9;
    Date(if m <= 2 then y + 1 else y, m, d)
  }

  lemma EraIsFloor(z: int)
    ensures var era := TruncDiv(if z >= 0 then z else z - 146096, 146097);
            era == z / 146097 && 0 <= z - era * 146097 < 146097
  {
  }

  /** Day `doe` of an era lies in the year the formula names. */
  lemma YearOfEraIsRight(doe: nat)
    requires doe < 146097
    ensures 0 <= YearOfEra(doe) < 400
    ensures DaysOfEraBefore(YearOfEra(doe)) <= doe
    ensures doe < DaysOfEraBefore(YearOfEra(doe) + 1) + if YearOfEra(doe) == 399 then 1 else 0
  {
    var c := doe / 36524;
    if c == 4 {
      assert doe == 146096;
    } else {
      var r := doe - 36524 * c;
      assert 0 <= r < 36524 && c < 4;
      CenturyYear(c, r);
    }
  }

  /** Inside a century: day `t` of its four-year cycle `q`. */
  lemma CenturyYear(c: int, r: int)
    requires 0 <= c < 4 && 0 <= r < 36524
    ensures var doe := 36524 * c + r;
            var yoe := YearOfEra(doe);
            && 100 * c <= yoe < 100 * c + 100
            && DaysOfEraBefore(yoe) <= doe < DaysOfEraBefore(yoe + 1) + if yoe == 399 then 1 else 0
  {
    var q, t := r / 1461, r % 1461;
    var doe := 36524 * c + r;
    assert doe / 36524 == c && doe / 146096 == 0;
    var skipped := if 24 * c + q + t >= 1460 then 1 else 0;
    assert doe / 1460 == 25 * c + q + skipped;
    var i := if t < 365 then 0 else if t < 730 then 1 else if t < 1095 then 2 else 3;
    assert doe - doe / 1460 + c == 365 * (100 * c + 4 * q) + (t - skipped);
    assert YearOfEra(doe) == 100 * c + 4 * q + i;
    CycleYearStart(c, q, i);
    if i < 3 {
      CycleYearStart(c, q, i + 1);
    } else if q < 24 {
      CycleYearStart(c, q + 1, 0);
    } else {
      assert DaysOfEraBefore(100 * c + 100) == 36524 * c + 36524;
    }
  }

  lemma CycleYearStart(c: int, q: int, i: int)
    requires 0 <= c < 4 && 0 <= q < 25 && 0 <= i < 4
    ensures DaysOfEraBefore(100 * c + 4 * q + i) == 36524 * c + 1461 * q + 365 * i
  {
    var yoe := 100 * c + 4 * q + i;
    assert yoe / 4 == 25 * c + q && yoe / 100 == c;
  }

  /** Day `doy` of a March-based year: its month, counted from March, and the days before that month. */
  lemma MarchMonths(y: int, doy: nat)
    requires doy < 365 + if Leap(y + 1) then 1 else 0
    ensures var mp := (5 * doy + 2) / 153;
            var m := if mp < 10 then mp + 3 else mp - 9;
            var year := if m <= 2 then y + 1 else y;
            var d := doy - (153 * mp + 2) / 5 + 1;
            && 0 <= mp < 12 && 1 <= d <= MonthLength(year, m)
            && (m > 2 ==> DaysBeforeMonth(y, m) == DaysBeforeMonth(y, 3) + (153 * mp + 2) / 5)
            && (m <= 2 ==> DaysBeforeMonth(year, m) + YearLength(y) == DaysBeforeMonth(y, 3) + (153 * mp + 2) / 5)
  {
    MonthStarts(y);
    MonthStarts(y + 1);
    var mp := (5 * doy + 2) / 153;
    assert 153 * mp <= 5 * doy + 2 < 153 * mp + 153;
  }

  lemma MonthStarts(y: int)
    ensures var l := if Leap(y) then 1 else 0;
            && DaysBeforeMonth(y, 1) == 0 && DaysBeforeMonth(y, 2) == 31 && DaysBeforeMonth(y, 3) == 59 + l
            && DaysBeforeMonth(y, 4) == 90 + l && DaysBeforeMonth(y, 5) == 120 + l && DaysBeforeMonth(y, 6) == 151 + l
            && DaysBeforeMonth(y, 7) == 181 + l && DaysBeforeMonth(y, 8) == 212 + l && DaysBeforeMonth(y, 9) == 243 + l
            && DaysBeforeMonth(y, 10) == 273 + l && DaysBeforeMonth(y, 11) == 304 + l && DaysBeforeMonth(y, 12) == 334 + l
  {
    assert DaysBeforeMonth(y, 2) == 31;
    assert DaysBeforeMonth(y, 4) == DaysBeforeMonth(y, 3) + 31;
    assert DaysBeforeMonth(y, 6) == DaysBeforeMonth(y, 4) + 61;
    assert DaysBeforeMonth(y, 8) == DaysBeforeMonth(y, 6) + 61;
    assert DaysBeforeMonth(y, 10) == DaysBeforeMonth(y, 8) + 61;
  }

  /** The first of March of year `yoe` of an era, as a day number. */
  lemma MarchFirst(era: int, yoe: int)
    requires 0 <= yoe < 400
    ensures var y := yoe + 400 * era;
            DaysBeforeYear(y) + DaysBeforeMonth(y, 3) == era * 146097 + DaysOfEraBefore(yoe) - 719468
  {
    var y := yoe + 400 * era;
    MonthStarts(y);
    assert y / 4 == 100 * era + yoe / 4 && y / 100 == 4 * era + yoe / 100 && y / 400 == era;
    assert (y - 1) / 4 == y / 4 - if y % 4 == 0 then 1 else 0;
    assert (y - 1) / 100 == y / 100 - if y % 100 == 0 then 1 else 0;
    assert (y - 1) / 400 == y / 400 - if y % 400 == 0 then 1 else 0;
  }

  lemma LeapsRepeat(n: int, era: int)
    ensures Leap(n + 400 * era) == Leap(n)
  {
    Residues(n, 100 * era, n / 4, n / 100, n / 400);
    assert n + 4 * (100 * era) == n + 100 * (4 * era) == n + 400 * era;
  }

  lemma Residues(n: int, centuries: int, q4: int, q100: int, q400: int)
    requires centuries % 100 == 0
    requires n / 4 == q4 && n / 100 == q100 && n / 400 == q400
    ensures (n + 4 * centuries) % 4 == n % 4
    ensures (n + 4 * centuries) % 100 == n % 100
    ensures (n + 4 * centuries) % 400 == n % 400
  {
    var e := centuries / 100;
    assert centuries == 100 * e;
    var y := n + 4 * centuries;
    assert y / 4 == q4 + 100 * e;
    assert y / 100 == q100 + 4 * e;
    assert y / 400 == q400 + e;
  }

  /** The February at the end of the March-based year `yoe` has a 29th exactly when the era formula leaves room for it. */
  lemma MarchYearLength(yoe: int)
    requires 0 <= yoe < 400
    ensures DaysOfEraBefore(yoe + 1) + (if yoe == 399 then 1 else 0) - DaysOfEraBefore(yoe) == YearLength(yoe + 1)
  {
    var n := yoe + 1;
    assert n / 4 == yoe / 4 + (if n % 4 == 0 then 1 else 0);
    assert n / 100 == yoe / 100 + (if n % 100 == 0 then 1 else 0);
    assert n % 400 == 0 <==> yoe == 399;
  }

  /** The day number also inverts the closed form: the two are a bijection between days and dates. */
  lemma DaysToYmdInverts(t: Date)
    requires Valid(t)
    ensures DaysToYmd(DayNumber(t)) == t
  {
    DayNumberIsMonotone(DaysToYmd(DayNumber(t)), t);
  }

  // ---------- The subtraction loop ----------

  /** The year loop: take whole years off while they fit. */
  method YearByLoop(days: nat) returns (y: int, remainingDays: nat)
    ensures 1970 <= y && remainingDays < YearLength(y) && DaysBeforeYear(y) + remainingDays == days
  {
    YearsAddUp(1970);
    y, remainingDays := 1970, days;
    while true
      invariant 1970 <= y && DaysBeforeYear(y) + remainingDays == days
      decreases remainingDays
    {
      var daysInYear := if Leap(y) then 366 else 365;
      if remainingDays < daysInYear {
        break;
      }
      YearsAddUp(y);
      remainingDays := remainingDays - daysInYear;
      y := y + 1;
    }
  }

  /** Both loops: the year, then the month, then the day. */
  method YmdByLoops(days: nat) returns (t: Date)
    ensures Valid(t) && DayNumber(t) == days
    ensures t == DaysToYmd(days)
  {
    var y, remainingDays := YearByLoop(days);
    var m, rest := MonthByLoop(y, remainingDays);
    t := Date(y, m + 1, rest + 1);
    DayNumberIsMonotone(t, DaysToYmd(days));
  }

  /** The month loop: take whole months off while they fit; `m` counts from zero. */
  method MonthByLoop(y: int, days: nat) returns (m: nat, remainingDays: nat)
    requires days < YearLength(y)
    ensures m < 12 && remainingDays < MonthLength(y, m + 1) && DaysBeforeMonth(y, m + 1) + remainingDays == days
  {
    m, remainingDays := 0, days;
    var monthDays := if Leap(y) then [31, 29, 31, 30, 31, 30, 31, 31, 30, 31, 30, 31]
                     else [31, 28, 31, 30, 31, 30, 31, 31, 30, 31, 30, 31];
    var i := 0;
    MonthsAddUp(y);
    while i < 12
      invariant 0 <= i <= 12 && m == 0
      invariant i < 12 ==> DaysBeforeMonth(y, i + 1) + remainingDays == days
      invariant i == 12 ==> YearLength(y) + remainingDays == days
      invariant forall k :: 0 <= k < 12 ==> monthDays[k] == MonthLength(y, k + 1)
    {
      if remainingDays < monthDays[i] {
        m := i;
        break;
      }
      remainingDays := remainingDays - monthDays[i];
      i := i + 1;
    }
  }
}
