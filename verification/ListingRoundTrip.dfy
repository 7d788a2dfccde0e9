/** Printing a listing row and parsing it back. */
module ListingRoundTrip {
  import opened Wrappers
  import opened Text
  import opened Timestamps
  import opened ListingLines
  import opened FtpLines

  // ---------- Rows as listings print them ----------

  datatype When =
    | LongIso(date: string, time: string)
    | Recent(month: nat, day: nat, hour: nat, minute: nat)
    | Older(month: nat, day: nat, year: nat)

  datatype Row = Row(
    perms: string, links: string, owner: string, group: Option<string>, context: Option<string>,
    size: nat, when: When, name: seq<string>, target: Option<seq<string>>)

  function Optional(column: Option<string>): seq<string> {
    if column.Some? then [column.value] else []
  }

  function DateTokens(w: When): seq<string>
    requires ValidWhen(w)
  {
    match w
    case LongIso(date, time) => [date, time]
    case Recent(month, day, hour, minute) => [MONTHS[month - 1], Padded(day, 1), Padded(hour, 2) + ":" + Padded(minute, 2)]
    case Older(month, day, year) => [MONTHS[month - 1], Padded(day, 1), Padded(year, 4)]
  }

  function Columns(r: Row): seq<string> {
    [r.perms, r.links, r.owner] + Optional(r.group) + Optional(r.context) + [Padded(r.size, 1)]
  }

  function NameTokens(r: Row): seq<string> {
    r.name + if r.target.Some? then ["->"] + r.target.value else []
  }

  function Tokens(r: Row): seq<string>
    requires ValidWhen(r.when)
  {
    Columns(r) + DateTokens(r.when) + NameTokens(r)
  }

  predicate ValidWhen(w: When) {
    match w
    case LongIso(date, time) => IsIsoDate(date) && IsHhMm(time)
    case Recent(month, day, hour, minute) => 1 <= month <= 12 && 1 <= day <= 31 && hour < 24 && minute < 60
    case Older(month, day, year) => 1 <= month <= 12 && 1 <= day <= 31 && year < 10000
  }

  predicate StartsNoDate(column: string) {
    !IsIsoDate(column) && MonthNumber(column).None?
  }

  /** A column that is one word and cannot be taken for the start of a date. */
  predicate Plain(column: string) {
    IsWord(column) && StartsNoDate(column)
  }

  predicate NoLaterArrow(words: seq<string>) {
    forall k :: 0 < k < |words| ==> words[k] != "->"
  }

  predicate AllWords(words: seq<string>) {
    forall k :: 0 <= k < |words| ==> IsWord(words[k])
  }

  /** A symlink prints its target; an arrow inside its own name would be taken for the one before it. */
  predicate ValidName(r: Row)
    requires r.perms != []
  {
    && r.name != []
    && (KindOf(r.perms).Symlink? <==> r.target.Some?)
    && (r.target.Some? ==> r.target.value != [] && AllWords(r.target.value) && NoLaterArrow(r.name))
    && AllWords(r.name)
  }

  predicate IsWord(s: string) {
    s != [] && Word(s) == s
  }

  predicate WellFormed(r: Row) {
    && IsPerms(r.perms) && IsWord(r.perms) && ValidWhen(r.when) && ValidName(r) && r.size <= U64_MAX
    && Plain(r.links) && Plain(r.owner) && (r.group.Some? ==> Plain(r.group.value))
    && (r.context.Some? ==> r.group.Some? && Plain(r.context.value))
  }

  function Printed(w: When, thisYear: nat): string {
    match w
    case LongIso(date, time) => date + " " + time
    case Recent(month, day, hour, minute) => DateText(thisYear, month, day) + " " + Padded(hour, 2) + ":" + Padded(minute, 2) + ":00"
    case Older(month, day, year) => DateText(year, month, day) + " 00:00:00"
  }

  function Expected(r: Row, thisYear: nat): FileEntry
    requires r.perms != []
  {
    FileEntry(Spaced(r.name), r.size, Some(Printed(r.when, thisYear)), r.perms, KindOf(r.perms), Some(r.owner), r.group)
  }

  // ---------- Printed modes are recognised ----------

  /** One permission triple; `special` is the set-user, set-group or sticky bit. */
  datatype Triple = Triple(read: bool, write: bool, run: bool, special: bool)

  function TripleText(t: Triple, both: char, alone: char): (text: string)
    ensures |text| == 3
  {
    [if t.read then 'r' else '-', if t.write then 'w' else '-',
     if t.special then (if t.run then both else alone) else if t.run then 'x' else '-']
  }

  function ModeText(kind: FileKind, owner: Triple, group: Triple, other: Triple): string {
    [match kind case Directory => 'd' case Symlink => 'l' case File => '-']
    + TripleText(owner, 's', 'S') + TripleText(group, 's', 'S') + TripleText(other, 't', 'T')
  }

  /** Every mode `ls` prints, also with special bits or an access-control mark, is taken by both parsers for its kind of file. */
  lemma PrintedModesAreAccepted(kind: FileKind, owner: Triple, group: Triple, other: Triple, mark: char)
    requires mark in "+.@"
    ensures var mode := ModeText(kind, owner, group, other);
            && IsPerms(mode) && IsPerms(mode + [mark]) && IsModeToken(mode) && IsModeToken(mode + [mark])
            && KindOf(mode) == KindOf(mode + [mark]) == kind
  {
    var mode := ModeText(kind, owner, group, other);
    ModeCharacters(kind, owner, group, other);
    assert forall k :: 0 <= k < 10 ==> (mode + [mark])[k] == mode[k];
    ModesAgree(mode);
    ModesAgree(mode + [mark]);
  }

  lemma TripleCharacters(t: Triple, both: char, alone: char)
    ensures var text := TripleText(t, both, alone);
            && (text[0] == 'r' || text[0] == '-') && (text[1] == 'w' || text[1] == '-')
            && (text[2] == both || text[2] == alone || text[2] == 'x' || text[2] == '-')
  {
  }

  lemma ModeParts(letter: char, o: string, g: string, t: string)
    requires |o| == |g| == |t| == 3
    ensures var mode := [letter] + o + g + t;
            && |mode| == 10 && mode[0] == letter && mode[1] == o[0] && mode[2] == o[1] && mode[3] == o[2]
            && mode[4] == g[0] && mode[5] == g[1] && mode[6] == g[2] && mode[7] == t[0] && mode[8] == t[1] && mode[9] == t[2]
  {
  }

  lemma ModeCharacters(kind: FileKind, owner: Triple, group: Triple, other: Triple)
    ensures var mode := ModeText(kind, owner, group, other);
            && |mode| == 10 && mode[0] in "dl-" && KindOf(mode) == kind
            && forall k :: 1 <= k < 10 ==> IsPermsChar(k, mode[k])
  {
    var letter := match kind case Directory => 'd' case Symlink => 'l' case File => '-';
    ModeParts(letter, TripleText(owner, 's', 'S'), TripleText(group, 's', 'S'), TripleText(other, 't', 'T'));
    TripleCharacters(owner, 's', 'S');
    TripleCharacters(group, 's', 'S');
    TripleCharacters(other, 't', 'T');
  }

  lemma MonthsAreNumbered()
    ensures MonthNumber("Jan") == Some(1) && MonthNumber("Feb") == Some(2) && MonthNumber("Mar") == Some(3)
    ensures MonthNumber("Apr") == Some(4) && MonthNumber("May") == Some(5) && MonthNumber("Jun") == Some(6)
    ensures MonthNumber("Jul") == Some(7) && MonthNumber("Aug") == Some(8) && MonthNumber("Sep") == Some(9)
    ensures MonthNumber("Oct") == Some(10) && MonthNumber("Nov") == Some(11) && MonthNumber("Dec") == Some(12)
  {
    LaterMonthsAreNumbered();
  }

  lemma LaterMonthsAreNumbered()
    ensures MonthNumber("Jul") == Some(7) && MonthNumber("Aug") == Some(8) && MonthNumber("Sep") == Some(9)
    ensures MonthNumber("Oct") == Some(10) && MonthNumber("Nov") == Some(11) && MonthNumber("Dec") == Some(12)
  {
  }

  // ---------- Printed dates are recognised and parse back ----------

  lemma DayPrints(day: nat)
    requires 1 <= day <= 31
    ensures IsDay(Padded(day, 1))
  {
    PaddedDigits(day, 1);
    assert IsDigit(Padded(day, 1)[|Padded(day, 1)| - 1]);
    PaddedParses(day, 1, U32_MAX);
  }

  lemma TimePrints(hour: nat, minute: nat)
    requires hour < 24 && minute < 60
    ensures var time := Padded(hour, 2) + ":" + Padded(minute, 2);
            && ':' in time && IsTimeOrYear(time) && UpTo(time, ':') == Padded(hour, 2)
            && time[|Padded(hour, 2)| + 1..] == Padded(minute, 2)
  {
    var h, m := Padded(hour, 2), Padded(minute, 2);
    PaddedDigits(hour, 2);
    PaddedDigits(minute, 2);
    assert ':' !in h && ':' !in m;
    PartsOfOne(h, ':', m);
    PartsOfOne(m, ':', []);
    assert h + ":" + m == h + [':'] + m;
    assert (h + ":" + m)[|h|] == ':';
    UpToFirst(h, ':', m);
  }

  lemma YearPrints(year: nat)
    requires year < 10000
    ensures ':' !in Padded(year, 4) && IsTimeOrYear(Padded(year, 4))
  {
    PaddedDigits(year, 4);
    FourDigits(year);
  }

  lemma MonthPrints(month: nat)
    requires 1 <= month <= 12
    ensures MonthNumber(MONTHS[month - 1]) == Some(month) && |MONTHS[month - 1]| == 3
  {
  }

  lemma RecentPrints(name: string, month: nat, day: nat, hour: nat, minute: nat, thisYear: nat)
    requires MonthNumber(name) == Some(month) && 1 <= day <= 31 && hour < 24 && minute < 60
    ensures var time := Padded(hour, 2) + ":" + Padded(minute, 2);
            && MonthStyleDate(name, Padded(day, 1), time, thisYear)
            == Some(DateText(thisYear, month, day) + " " + Padded(hour, 2) + ":" + Padded(minute, 2) + ":00")
  {
    PaddedParses(day, 1, U32_MAX);
    TimePrints(hour, minute);
    PaddedParses(hour, 2, U32_MAX);
    PaddedParses(minute, 2, U32_MAX);
  }

  lemma OlderPrints(name: string, month: nat, day: nat, year: nat, thisYear: nat)
    requires MonthNumber(name) == Some(month) && 1 <= day <= 31 && year < 10000
    ensures MonthStyleDate(name, Padded(day, 1), Padded(year, 4), thisYear) == Some(DateText(year, month, day) + " 00:00:00")
  {
    PaddedParses(day, 1, U32_MAX);
    YearPrints(year);
    PaddedParses(year, 4, U32_MAX);
  }

  lemma DatePrints(w: When, thisYear: nat)
    requires ValidWhen(w) && !w.LongIso?
    ensures var t := DateTokens(w);
            && MonthNumber(t[0]).Some? && IsDay(t[1]) && IsTimeOrYear(t[2])
            && MonthStyleDate(t[0], t[1], t[2], thisYear) == Some(Printed(w, thisYear))
  {
    MonthPrints(w.month);
    DayPrints(w.day);
    match w
    case Recent(month, day, hour, minute) =>
      TimePrints(hour, minute);
      RecentPrints(MONTHS[month - 1], month, day, hour, minute, thisYear);
    case Older(month, day, year) =>
      YearPrints(year);
      OlderPrints(MONTHS[month - 1], month, day, year, thisYear);
  }

  lemma WholeMinutes(hour: nat, minute: nat)
    ensures ClockText(hour, minute, 0) == Padded(hour, 2) + ":" + Padded(minute, 2) + ":00"
    ensures ClockText(0, 0, 0) == "00:00:00"
  {
    assert Padded(0, 2) == "00";
    Regrouped(Padded(hour, 2) + ":" + Padded(minute, 2), ":", "00");
  }

  lemma PrintedAsFields(w: When, thisYear: nat)
    requires !w.LongIso?
    ensures w.Recent? ==> Printed(w, thisYear) == DateText(thisYear, w.month, w.day) + " " + ClockText(w.hour, w.minute, 0)
    ensures w.Older? ==> Printed(w, thisYear) == DateText(w.year, w.month, w.day) + " " + ClockText(0, 0, 0)
  {
    if w.Recent? {
      WholeMinutes(w.hour, w.minute);
      var date, time := DateText(thisYear, w.month, w.day), Padded(w.hour, 2) + ":" + Padded(w.minute, 2) + ":00";
      assert Printed(w, thisYear) == date + " " + time;
    } else {
      WholeMinutes(0, 0);
      assert " 00:00:00" == " " + "00:00:00";
      Regrouped(DateText(w.year, w.month, w.day), " ", "00:00:00");
    }
  }

  /** The long-iso columns taken for a date and a time are exactly four, two and two digits, and two and two. */
  lemma IsoColumnsAreNumbers(s: string)
    ensures IsIsoDate(s) <==> exists y: nat, m: nat, d: nat :: y < 10000 && m < 100 && d < 100 && s == DateText(y, m, d)
    ensures IsHhMm(s) <==> exists h: nat, m: nat :: h < 100 && m < 100 && s == Padded(h, 2) + ":" + Padded(m, 2)
  {
    if IsIsoDate(s) {
      IsoDatePrints(s);
    }
    if y: nat, m: nat, d: nat :| y < 10000 && m < 100 && d < 100 && s == DateText(y, m, d) {
      PrintedIsIso(y, m, d);
    }
    if IsHhMm(s) {
      HhMmPrints(s);
    }
    if h: nat, m: nat :| h < 100 && m < 100 && s == Padded(h, 2) + ":" + Padded(m, 2) {
      PrintedIsHhMm(h, m);
    }
  }

  lemma SmallNumber(digits: string)
    requires AllDigits(digits) && 1 <= |digits| <= 4
    ensures |digits| == 2 ==> Value(digits) < 100
    ensures |digits| == 4 ==> Value(digits) < 10000
    decreases |digits|
  {
    var n := |digits| - 1;
    assert Value(digits[..n]) < if n <= 0 then 1 else if n == 1 then 10 else if n == 2 then 100 else 1000 by {
      ShortValue(digits[..n]);
    }
  }

  lemma {:induction false} ShortValue(digits: string)
    requires AllDigits(digits)
    ensures Value(digits) < Power10(|digits|)
  {
    if digits != [] {
      ShortValue(digits[..|digits| - 1]);
    }
  }

  lemma IsoDatePrints(s: string)
    requires IsIsoDate(s)
    ensures exists y: nat, m: nat, d: nat :: y < 10000 && m < 100 && d < 100 && s == DateText(y, m, d)
  {
    var y, m, d := s[0..4], s[5..7], s[8..10];
    SmallNumber(y);
    SmallNumber(m);
    SmallNumber(d);
    DigitsPrintBack(y);
    DigitsPrintBack(m);
    DigitsPrintBack(d);
    assert s == y + "-" + m + "-" + d;
    assert s == DateText(Value(y), Value(m), Value(d));
  }

  lemma PrintedIsIso(y: nat, m: nat, d: nat)
    requires y < 10000 && m < 100 && d < 100
    ensures IsIsoDate(DateText(y, m, d))
  {
    var s := DateText(y, m, d);
    DateReadsBack(y, m, d);
    PaddedDigits(y, 4);
    PaddedDigits(m, 2);
    PaddedDigits(d, 2);
    forall k | 0 <= k < 10
      ensures if k == 4 || k == 7 then s[k] == '-' else IsDigit(s[k])
    {
      if k < 4 { assert s[k] == s[0..4][k]; }
      if 5 <= k < 7 { assert s[k] == s[5..7][k - 5]; }
      if 8 <= k { assert s[k] == s[8..10][k - 8]; }
    }
  }

  lemma HhMmPrints(s: string)
    requires IsHhMm(s)
    ensures exists h: nat, m: nat :: h < 100 && m < 100 && s == Padded(h, 2) + ":" + Padded(m, 2)
  {
    var h, m := s[0..2], s[3..5];
    SmallNumber(h);
    SmallNumber(m);
    DigitsPrintBack(h);
    DigitsPrintBack(m);
    assert s == h + ":" + m;
    assert s == Padded(Value(h), 2) + ":" + Padded(Value(m), 2);
  }

  lemma PrintedIsHhMm(h: nat, m: nat)
    requires h < 100 && m < 100
    ensures IsHhMm(Padded(h, 2) + ":" + Padded(m, 2))
  {
    PaddedWidth2(h);
    PaddedWidth2(m);
    PaddedDigits(h, 2);
    PaddedDigits(m, 2);
  }

  /** The third column of a month date is exactly a four-digit year, or two numbers with a colon between them. */
  lemma TimeOrYearIsNumbers(s: string)
    ensures IsTimeOrYear(s) <==>
            || (|s| == 4 && AllDigits(s))
            || exists h: string, m: string :: h != [] && AllDigits(h) && m != [] && AllDigits(m) && s == h + ":" + m
  {
    if ':' in s && IsTimeOrYear(s) {
      var parts := Parts(s, ':');
      PartsOfTwo(s, ':');
      assert s == parts[0] + ":" + parts[1];
    }
    if h: string, m: string :| h != [] && AllDigits(h) && m != [] && AllDigits(m) && s == h + ":" + m {
      assert ':' !in h && ':' !in m;
      PartsOfOne(h, ':', m);
      PartsOfOne(m, ':', []);
      assert s == h + [':'] + m && s[|h|] == ':';
    }
  }

  /** The date of a recent row in the year `thisYear`, or of an older one in its own, as a full timestamp. */
  lemma PrintedIsAStamp(w: When, thisYear: nat)
    requires ValidWhen(w) && !w.LongIso? && thisYear < 10000
    ensures match w
            case Recent(month, day, hour, minute) => Stamp(Printed(w, thisYear), thisYear, month, day, hour, minute, 0)
            case Older(month, day, year) => Stamp(Printed(w, thisYear), year, month, day, 0, 0, 0)
            case LongIso(_, _) => true
  {
    PrintedAsFields(w, thisYear);
    match w
    case Recent(month, day, hour, minute) => FieldsReadBack(thisYear, month, day, hour, minute, 0);
    case Older(month, day, year) => FieldsReadBack(year, month, day, 0, 0, 0);
  }

  lemma DateIsNotIso(w: When, k: nat)
    requires ValidWhen(w) && !w.LongIso? && k < 3
    ensures !IsIsoDate(DateTokens(w)[k])
  {
    match k
    case 0 => MonthPrints(w.month);
    case 1 => NumberIsNoDate(w.day, 1);
    case _ =>
      match w
      case Recent(_, _, hour, minute) =>
        PaddedWidth2(hour);
        PaddedWidth2(minute);
      case Older(_, _, year) => NumberIsNoDate(year, 4);
  }

  lemma NumberIsNoDate(n: nat, width: nat)
    requires width > 0
    ensures StartsNoDate(Padded(n, width))
  {
    PaddedDigits(n, width);
    DigitsAreNoDate(Padded(n, width));
  }

  lemma DigitsAreNoDate(s: string)
    requires AllDigits(s)
    ensures StartsNoDate(s)
  {
    assert |s| == 10 ==> IsDigit(s[4]);
    assert s != [] ==> IsDigit(s[0]);
  }

  // ---------- The name ----------

  lemma {:induction false} SpacedConcat(a: seq<string>, b: seq<string>)
    requires a != [] && b != []
    ensures Spaced(a + b) == Spaced(a) + " " + Spaced(b)
  {
    if |a| == 1 {
      assert (a + b)[1..] == b;
    } else {
      assert (a + b)[1..] == a[1..] + b;
      SpacedConcat(a[1..], b);
    }
  }

  /** No arrow starts inside a word. */
  lemma {:induction false} ArrowSkipsWord(word: string, rest: string)
    requires Word(word) == word
    ensures UpToArrow(word + rest) == word + UpToArrow(rest)
  {
    if word == [] {
      assert word + rest == rest;
    } else {
      assert !IsWhitespace(word[0]) && Word(word)[1..] == word[1..];
      assert (word + rest)[0] == word[0] && (word + rest)[1..] == word[1..] + rest;
      ArrowSkipsWord(word[1..], rest);
    }
  }

  lemma {:induction false} NameStopsAtArrow(words: seq<string>, arrow: string)
    requires words != [] && AllWords(words) && NoLaterArrow(words) && " -> " <= arrow
    ensures UpToArrow(Spaced(words) + arrow) == Spaced(words)
    decreases |words|
  {
    if |words| == 1 {
      ArrowSkipsWord(words[0], arrow);
    } else {
      var rest := words[1..];
      assert AllWords(rest) && NoLaterArrow(rest);
      NameStopsAtArrow(rest, arrow);
      NextWordIsNoArrow(rest, arrow);
      ArrowSkipsWordAndSpace(words[0], Spaced(rest) + arrow);
      SpacedCons(words, arrow);
    }
  }

  lemma SpacedCons(words: seq<string>, more: string)
    requires |words| > 1
    ensures Spaced(words) == words[0] + (" " + Spaced(words[1..]))
    ensures Spaced(words) + more == words[0] + (" " + (Spaced(words[1..]) + more))
  {
    var space, rest := " ", Spaced(words[1..]);
    Regrouped(words[0], space, rest);
    Regrouped(words[0], space + rest, more);
    Regrouped(space, rest, more);
  }

  lemma ArrowSkipsWordAndSpace(word: string, rest: string)
    requires Word(word) == word && !(" -> " <= " " + rest)
    ensures UpToArrow(word + (" " + rest)) == word + (" " + UpToArrow(rest))
  {
    ArrowSkipsWord(word, " " + rest);
    assert (" " + rest)[1..] == rest;
  }

  lemma NextWordIsNoArrow(words: seq<string>, arrow: string)
    requires words != [] && IsWord(words[0]) && words[0] != "->" && " -> " <= arrow
    ensures !(" -> " <= " " + (Spaced(words) + arrow))
  {
    var w := words[0];
    var text := " " + (Spaced(words) + arrow);
    WordHasNoSpace(w);
    assert forall k :: 0 <= k < |w| ==> text[k + 1] == w[k];
    assert arrow[..4] == " -> " && arrow[0] == ' ';
    assert text[|w| + 1] == ' ' by {
      if |words| > 1 { assert Spaced(words) == w + " " + Spaced(words[1..]); }
    }
    assert |w| == 2 && w[0] == '-' && w[1] == '>' ==> w == "->";
    if " -> " <= text { ArrowInFront(text); }
  }

  lemma ArrowInFront(text: string)
    requires " -> " <= text
    ensures |text| >= 4 && text[1] == '-' && text[2] == '>' && text[3] == ' '
  {
  }

  lemma NameReadsBack(r: Row)
    requires r.perms != [] && ValidName(r)
    ensures NameIn(KindOf(r.perms), NameTokens(r)) == Spaced(r.name)
  {
    if r.target.Some? {
      var target := r.target.value;
      SpacedConcat(r.name, ["->"] + target);
      SpacedConcat(["->"], target);
      assert Spaced(["->"] + target) == "-> " + Spaced(target);
      assert NameTokens(r) == r.name + (["->"] + target);
      assert Spaced(NameTokens(r)) == Spaced(r.name) + (" -> " + Spaced(target));
      NameStopsAtArrow(r.name, " -> " + Spaced(target));
    } else {
      assert NameTokens(r) == r.name;
    }
  }

  // ---------- The columns ----------

  lemma ColumnsReadBack(r: Row)
    requires WellFormed(r)
    ensures var t, d := Tokens(r), |Columns(r)|;
            && t[0] == r.perms && t[2] == r.owner && |t| > d + |DateTokens(r.when)|
            && SizeIndex(t, d) == Some((d - 1) as nat) && ParseUnsigned(t[d - 1], U64_MAX) == Some(r.size)
            && (if d - 1 > 3 then r.group == Some(t[3]) else r.group == None)
  {
    var t, d := Tokens(r), |Columns(r)|;
    PaddedParses(r.size, 1, U64_MAX);
    assert t[d - 1] == Columns(r)[d - 1] == Padded(r.size, 1);
    assert t[0] == Columns(r)[0] && t[2] == Columns(r)[2];
    if d > 4 { assert t[3] == Columns(r)[3]; }
  }

  lemma NothingBeforeTheDate(r: Row, k: nat)
    requires WellFormed(r) && k < |Columns(r)|
    ensures !IsoAt(Tokens(r), k) && !MonthAt(Tokens(r), k)
  {
    var c := Columns(r);
    assert Tokens(r)[k] == c[k];
    PaddedDigits(r.size, 1);
    DigitsAreNoDate(Padded(r.size, 1));
    assert !IsDigit(r.perms[0]);
    assert MonthNumber(r.perms).None?;
  }

  lemma EntryReadsBack(r: Row, modified: Option<string>)
    requires WellFormed(r)
    ensures |Columns(r)| + |DateTokens(r.when)| <= |Tokens(r)|
    ensures Spaced(r.name) != ""
    ensures EntryAt(Tokens(r), |Columns(r)|, |Columns(r)| + |DateTokens(r.when)|, modified)
         == FileEntry(Spaced(r.name), r.size, modified, r.perms, KindOf(r.perms), Some(r.owner), r.group)
  {
    var t, n := Tokens(r), |Columns(r)| + |DateTokens(r.when)|;
    ColumnsReadBack(r);
    NameReadsBack(r);
    assert t[n..] == NameTokens(r);
    assert |Spaced(r.name)| >= |r.name[0]|;
  }

  // ---------- Rows parse, however spaced ----------

  lemma TokensFromDate(r: Row)
    requires WellFormed(r)
    ensures Tokens(r)[|Columns(r)|..] == DateTokens(r.when) + NameTokens(r)
    ensures |NameTokens(r)| > 0
  {
  }

  lemma LongIsoIsFound(r: Row)
    requires WellFormed(r) && r.when.LongIso?
    ensures FindIso(Tokens(r), 0) == Some(|Columns(r)|)
  {
    var t, d := Tokens(r), |Columns(r)|;
    TokensFromDate(r);
    assert t[d] == t[d..][0] && t[d + 1] == t[d..][1];
    assert IsoAt(t, d);
    forall k: nat | k < d
      ensures !IsoAt(t, k)
    {
      NothingBeforeTheDate(r, k);
    }
  }

  /** The long-iso layout, however its columns are spaced; dot entries are dropped. */
  lemma LongIsoRowParses(r: Row, line: string, thisYear: nat)
    requires WellFormed(r) && r.when.LongIso? && Words(line) == Tokens(r)
    ensures ParseLs(line, thisYear) == if IsDots(Spaced(r.name)) then None else Some(Expected(r, thisYear))
  {
    var t, d := Tokens(r), |Columns(r)|;
    LongIsoIsFound(r);
    TokensFromDate(r);
    assert t[d] == t[d..][0] && t[d + 1] == t[d..][1];
    ColumnsReadBack(r);
    EntryReadsBack(r, Some(Printed(r.when, thisYear)));
  }

  /** In the month layout no later pair of tokens may look like a long-iso date. */
  ghost predicate NoIsoInName(r: Row) {
    forall k: nat :: !IsoAt(NameTokens(r), k)
  }

  lemma MonthIsThere(r: Row)
    requires WellFormed(r) && !r.when.LongIso?
    ensures MonthAt(Tokens(r), |Columns(r)|)
  {
    var t, d := Tokens(r), |Columns(r)|;
    TokensFromDate(r);
    DatePrints(r.when, 0);
    assert t[d] == t[d..][0] && t[d + 1] == t[d..][1] && t[d + 2] == t[d..][2];
  }

  lemma MonthIsFound(r: Row)
    requires WellFormed(r) && !r.when.LongIso?
    ensures FindMonth(Tokens(r), 0) == Some(|Columns(r)|)
  {
    MonthIsThere(r);
    forall k: nat | k < |Columns(r)|
      ensures !MonthAt(Tokens(r), k)
    {
      NothingBeforeTheDate(r, k);
    }
    FirstMonth(Tokens(r), |Columns(r)|);
  }

  lemma FirstMonth(tokens: seq<string>, at: nat)
    requires MonthAt(tokens, at) && forall k: nat :: k < at ==> !MonthAt(tokens, k)
    ensures FindMonth(tokens, 0) == Some(at)
  {
  }

  lemma NoIsoAnywhere(r: Row, k: nat)
    requires WellFormed(r) && !r.when.LongIso? && NoIsoInName(r)
    ensures !IsoAt(Tokens(r), k)
  {
    var t, d := Tokens(r), |Columns(r)|;
    if k < d {
      NothingBeforeTheDate(r, k);
    } else if k + 2 < |t| {
      TokensFromDate(r);
      assert t[k] == t[d..][k - d] && t[k + 1] == t[d..][k + 1 - d];
      if k < d + 3 {
        DateIsNotIso(r.when, k - d);
      } else {
        assert !IsoAt(NameTokens(r), k - d - 3);
      }
    }
  }

  /** The month layout, however spaced, read by the FTP parser, which keeps the dot entries its caller drops. */
  lemma FtpMonthRowParses(r: Row, line: string, thisYear: nat)
    requires WellFormed(r) && !r.when.LongIso? && Words(line) == Tokens(r)
    ensures ParseFtp(line, thisYear) == Some(Expected(r, thisYear))
  {
    var t, d := Tokens(r), |Columns(r)|;
    MonthIsFound(r);
    DatePrints(r.when, thisYear);
    TokensFromDate(r);
    assert t[d] == t[d..][0] && t[d + 1] == t[d..][1] && t[d + 2] == t[d..][2];
    EntryReadsBack(r, Some(Printed(r.when, thisYear)));
    ColumnsReadBack(r);
    FtpReadsTheMonthLayout(line, thisYear);
  }

  /** What a month row's `modified` shows, field by field: the row's own month, day and time, or year. */
  lemma MonthRowShowsItsDate(r: Row, line: string, thisYear: nat)
    requires WellFormed(r) && !r.when.LongIso? && Words(line) == Tokens(r) && thisYear < 10000
    ensures ParseFtp(line, thisYear).Some? && ParseFtp(line, thisYear).value.modified.Some?
    ensures var shown := ParseFtp(line, thisYear).value.modified.value;
            match r.when
            case Recent(month, day, hour, minute) => Stamp(shown, thisYear, month, day, hour, minute, 0)
            case Older(month, day, year) => Stamp(shown, year, month, day, 0, 0, 0)
            case LongIso(_, _) => true
  {
    FtpMonthRowParses(r, line, thisYear);
    PrintedIsAStamp(r.when, thisYear);
  }

  predicate IsDots(name: string) {
    name == "." || name == ".."
  }

  /**
   * The month layout, read by the `ls` parser, however its columns are spaced:
   * the row's entry comes back exactly when no pair of tokens in its name is a
   * long-iso date and it is not a dot entry.
   */
  lemma MonthRowParses(r: Row, line: string, thisYear: nat)
    requires WellFormed(r) && !r.when.LongIso? && Words(line) == Tokens(r)
    ensures ParseLs(line, thisYear) == Some(Expected(r, thisYear)) <==> NoIsoInName(r) && !IsDots(Spaced(r.name))
  {
    if NoIsoInName(r) {
      if FindIso(Tokens(r), 0).Some? {
        NoIsoAnywhere(r, FindIso(Tokens(r), 0).value);
      }
      FtpMonthRowParses(r, line, thisYear);
      ParsersAgree(line, thisYear);
    } else {
      IsoInNameIsFound(r);
      IsoEntriesAreShort(line, thisYear);
      PrintedIsLong(r.when, thisYear);
    }
  }

  lemma IsoEntriesAreShort(line: string, thisYear: nat)
    requires FindIso(Words(line), 0).Some?
    ensures var entry := ParseLs(line, thisYear);
            entry.Some? ==> entry.value.modified.Some? && |entry.value.modified.value| == 16
  {
    var t, i := Words(line), FindIso(Words(line), 0).value;
    assert |t[i] + " " + t[i + 1]| == 16;
  }

  lemma IsoInNameIsFound(r: Row)
    requires WellFormed(r) && !r.when.LongIso? && !NoIsoInName(r)
    ensures FindIso(Tokens(r), 0).Some?
  {
    var k: nat :| IsoAt(NameTokens(r), k);
    var t, d := Tokens(r), |Columns(r)|;
    TokensFromDate(r);
    assert t[d + 3 + k] == t[d..][3 + k] && t[d + 4 + k] == t[d..][4 + k];
    assert IsoAt(t, d + 3 + k);
  }

  /** A month date with its seconds is longer than a long-iso one. */
  lemma PrintedIsLong(w: When, thisYear: nat)
    requires !w.LongIso?
    ensures |Printed(w, thisYear)| >= 19
  {
  }

  lemma LsReadsTheMonthLayout(line: string, thisYear: nat)
    requires FindIso(Words(line), 0).None?
    ensures var entry := Named(MonthEntry(Words(line), thisYear));
            ParseLs(line, thisYear) == if entry.Some? && IsDots(entry.value.name) then None else entry
  {
    var tokens := Words(line);
    assert LocateDate(tokens, thisYear).None? <==> FindMonth(tokens, 0).None?;
  }

  /** Without a long-iso pair the two parsers differ on the dot entries only. */
  lemma ParsersAgree(line: string, thisYear: nat)
    requires FindIso(Words(line), 0).None?
    ensures var ls, ftp := ParseLs(line, thisYear), ParseFtp(line, thisYear);
            ls == if ftp.Some? && IsDots(ftp.value.name) then None else ftp
  {
    LsReadsTheMonthLayout(line, thisYear);
    FtpReadsTheMonthLayout(line, thisYear);
  }

  /** Words printed with single spaces come apart again. */
  lemma {:induction false} WordsOfSpaced(words: seq<string>)
    requires AllWords(words)
    ensures Words(Spaced(words)) == words
  {
    if |words| == 1 {
      WordsOf(words[0], []);
      assert words[0] + [] == words[0];
    } else if words != [] {
      var rest := [' '] + Spaced(words[1..]);
      assert Spaced(words) == words[0] + rest;
      WordsOf(words[0], rest);
      assert rest[1..] == Spaced(words[1..]);
      WordsOfSpaced(words[1..]);
    }
  }

  // ---------- Round trips ----------

  /** A row as one line of text. */
  function Line(r: Row): string
    requires ValidWhen(r.when)
  {
    Spaced(Tokens(r))
  }

  lemma {:induction false} SpaceFreeIsWord(s: string)
    requires s != [] && forall k :: 0 <= k < |s| ==> !IsWhitespace(s[k])
    ensures IsWord(s)
  {
    if |s| > 1 {
      SpaceFreeIsWord(s[1..]);
    } else {
      assert Word(s[1..]) == [];
    }
    assert s == [s[0]] + s[1..];
  }

  lemma DigitsAreAWord(n: nat, width: nat)
    requires width > 0
    ensures IsWord(Padded(n, width))
  {
    PaddedDigits(n, width);
    SpaceFreeIsWord(Padded(n, width));
  }

  lemma MonthIsAWord(month: nat)
    requires 1 <= month <= 12
    ensures IsWord(MONTHS[month - 1])
  {
    SpaceFreeIsWord(MONTHS[month - 1]);
  }

  lemma TimeIsAWord(hour: nat, minute: nat)
    ensures IsWord(Padded(hour, 2) + ":" + Padded(minute, 2))
  {
    PaddedDigits(hour, 2);
    PaddedDigits(minute, 2);
    SpaceFreeIsWord(Padded(hour, 2) + ":" + Padded(minute, 2));
  }

  lemma DateTokensAreWords(w: When)
    requires ValidWhen(w)
    ensures AllWords(DateTokens(w))
  {
    match w
    case LongIso(date, time) =>
      SpaceFreeIsWord(date);
      SpaceFreeIsWord(time);
    case Recent(month, day, hour, minute) =>
      MonthIsAWord(month);
      DigitsAreAWord(day, 1);
      TimeIsAWord(hour, minute);
    case Older(month, day, year) =>
      MonthIsAWord(month);
      DigitsAreAWord(day, 1);
      DigitsAreAWord(year, 4);
  }

  lemma RowTokensAreWords(r: Row)
    requires WellFormed(r)
    ensures AllWords(Tokens(r))
  {
    DigitsAreAWord(r.size, 1);
    assert AllWords(Columns(r));
    DateTokensAreWords(r.when);
    SpaceFreeIsWord("->");
    assert AllWords(NameTokens(r));
  }

  /** Printing a row splits back into its columns. */
  lemma LineSplits(r: Row)
    requires WellFormed(r)
    ensures Words(Line(r)) == Tokens(r)
  {
    RowTokensAreWords(r);
    WordsOfSpaced(Tokens(r));
  }

  /** Printing a long-iso row and parsing the line gives the row's entry back, except for the dot entries. */
  lemma LongIsoRoundTrip(r: Row, thisYear: nat)
    requires WellFormed(r) && r.when.LongIso?
    ensures ParseLs(Line(r), thisYear) == if IsDots(Spaced(r.name)) then None else Some(Expected(r, thisYear))
  {
    LineSplits(r);
    LongIsoRowParses(r, Line(r), thisYear);
  }

  /** So does printing a month row, exactly when nothing in its name looks like a long-iso date. */
  lemma MonthRoundTrip(r: Row, thisYear: nat)
    requires WellFormed(r) && !r.when.LongIso?
    ensures ParseLs(Line(r), thisYear) == Some(Expected(r, thisYear)) <==> NoIsoInName(r) && !IsDots(Spaced(r.name))
  {
    LineSplits(r);
    MonthRowParses(r, Line(r), thisYear);
  }

  /** And, for the FTP parser, any month row. */
  lemma FtpMonthRoundTrip(r: Row, thisYear: nat)
    requires WellFormed(r) && !r.when.LongIso?
    ensures ParseFtp(Line(r), thisYear) == Some(Expected(r, thisYear))
  {
    LineSplits(r);
    FtpMonthRowParses(r, Line(r), thisYear);
  }
}
