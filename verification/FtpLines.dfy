/** The FTP browser's own line parser and its own copies of the token tests; it knows the month layout only. */
module FtpLines {
  import opened Wrappers
  import opened Text
  import opened ListingLines
  import opened Timestamps

  /** The nine characters behind the type letter, counted from zero. */
  predicate IsModeChar(i: nat, c: char) {
    if i == 2 || i == 5 then c == 'x' || c == 's' || c == 'S' || c == '-'
    else if i == 8 then c == 'x' || c == 't' || c == 'T' || c == '-'
    else c == 'r' || c == 'w' || c == '-'
  }

  predicate IsModeToken(s: string) {
    && 10 <= |s| <= 11 && (s[0] == 'd' || s[0] == 'l' || s[0] == '-')
    && (forall i :: 0 <= i < 9 ==> IsModeChar(i, s[1..10][i]))
    && (|s| == 11 ==> s[10] < '\U{0080}')
  }

  predicate IsTotal(tokens: seq<string>) {
    |tokens| >= 2 && |tokens[0]| == 5 && forall k :: 0 <= k < 5 ==> tokens[0][k] == "total"[k] || tokens[0][k] == "TOTAL"[k]
  }

  predicate IsMonthAbbreviation(s: string) {
    s in {"Jan", "Feb", "Mar", "Apr", "May", "Jun", "Jul", "Aug", "Sep", "Oct", "Nov", "Dec"}
  }

  /** The token at `i`, if there is one, begins with a day of the month. */
  predicate IsDayField(tokens: seq<string>, i: nat) {
    i < |tokens| &&
    match ParseUnsigned(TrimToDigit(tokens[i]), U32_MAX)
    case Some(day) => 1 <= day <= 31
    case None => false
  }

  predicate IsNumeric(s: string) {
    s != [] && AllDigits(s)
  }

  predicate IsDateField(tokens: seq<string>, i: nat) {
    i < |tokens| &&
    if ':' in tokens[i] then
      var parts := Parts(tokens[i], ':');
      |parts| == 2 && forall part <- parts :: IsNumeric(part)
    else |tokens[i]| == 4 && AllDigits(tokens[i])
  }

  /** Where the date triple starts: a month, a day, a time or year, and a name behind them. */
  function FindTriple(tokens: seq<string>, i: nat): (at: Option<nat>)
    ensures at.Some? ==> i <= at.value && at.value + 3 < |tokens|
    decreases |tokens| - i
  {
    if |tokens| <= i + 3 then None
    else if IsMonthAbbreviation(tokens[i]) && IsDayField(tokens, i + 1) && IsDateField(tokens, i + 2) then Some(i)
    else FindTriple(tokens, i + 1)
  }

  /** Before and behind the first separator. */
  function SplitOnce(s: string, separator: char): (string, Option<string>) {
    var head := UpTo(s, separator);
    (head, if |head| < |s| then Some(s[|head| + 1..]) else None)
  }

  function NumberOr(word: Option<string>, otherwise: nat): nat {
    match word
    case None => otherwise
    case Some(text) => OrElse(ParseUnsigned(text, U32_MAX), otherwise)
  }

  const MONTH_NUMBERS: map<string, nat> := map[
    "Jan" := 1, "Feb" := 2, "Mar" := 3, "Apr" := 4, "May" := 5, "Jun" := 6,
    "Jul" := 7, "Aug" := 8, "Sep" := 9, "Oct" := 10, "Nov" := 11, "Dec" := 12]

  function Modified(month: string, day: string, timeOrYear: string, thisYear: nat): Option<string> {
    if month !in MONTH_NUMBERS then None else
      var m, d := MONTH_NUMBERS[month], NumberOr(Some(day), 1);
      if ':' in timeOrYear then
        var (hours, minutes) := SplitOnce(timeOrYear, ':');
        Some(DateText(thisYear, m, d) + " " + Padded(NumberOr(Some(hours), 0), 2) + ":" + Padded(NumberOr(minutes, 0), 2) + ":00")
      else
        Some(DateText(NumberOr(Some(timeOrYear), 1970), m, d) + " 00:00:00")
  }

  /** The index of the last numeric token. */
  function LastNumber(tokens: seq<string>): (at: Option<nat>)
    ensures at.Some? ==> at.value < |tokens| && ParseUnsigned(tokens[at.value], U64_MAX).Some?
  {
    if tokens == [] then None
    else if ParseUnsigned(tokens[|tokens| - 1], U64_MAX).Some? then Some(|tokens| - 1) else LastNumber(tokens[..|tokens| - 1])
  }

  /** The entry whose date triple starts at `at`; none when it has no name. */
  function EntryFrom(tokens: seq<string>, at: nat, thisYear: nat): Option<FileEntry>
    requires at + 3 < |tokens| && tokens[0] != []
  {
    var kind := if tokens[0][0] == 'd' then Directory else if tokens[0][0] == 'l' then Symlink else File;
    var rest := Spaced(tokens[at + 3..]);
    var name := if kind == Symlink then UpToArrow(rest) else rest;
    var sizeAt := LastNumber(tokens[..at]);
    if name == "" then None else
      Some(FileEntry(
        name, if sizeAt.Some? then ParseUnsigned(tokens[sizeAt.value], U64_MAX).value else 0,
        Modified(tokens[at], tokens[at + 1], tokens[at + 2], thisYear), tokens[0], kind,
        if 2 < |tokens| then Some(tokens[2]) else None,
        if sizeAt.Some? && sizeAt.value > 3 then Some(tokens[3]) else None))
  }

  function ParseFtp(line: string, thisYear: nat): Option<FileEntry> {
    var tokens := Words(line);
    if tokens == [] || IsTotal(tokens) || !IsModeToken(tokens[0]) then None else
      match FindTriple(tokens, 0)
      case None => None
      case Some(at) => EntryFrom(tokens, at, thisYear)
  }

  // ---------- The copies agree with the other parser's ----------

  lemma ModesAgree(s: string)
    ensures IsModeToken(s) <==> IsPerms(s)
  {
    if 10 <= |s| <= 11 {
      assert forall k :: 1 <= k < 10 ==> s[k] == s[1..10][k - 1];
    }
  }

  lemma MonthsAgree(s: string)
    ensures IsMonthAbbreviation(s) <==> MonthNumber(s).Some?
    ensures MonthNumber(s) == if s in MONTH_NUMBERS then Some(MONTH_NUMBERS[s]) else None
  {
  }

  lemma DateFieldsAgree(tokens: seq<string>, i: nat)
    requires i < |tokens|
    ensures IsDateField(tokens, i) <==> IsTimeOrYear(tokens[i])
  {
    var parts := Parts(tokens[i], ':');
    if |parts| == 2 {
      assert parts[0] in parts && parts[1] in parts;
    }
  }

  lemma TriplesAgree(tokens: seq<string>, i: nat)
    requires i + 3 < |tokens|
    ensures MonthAt(tokens, i) <==> IsMonthAbbreviation(tokens[i]) && IsDayField(tokens, i + 1) && IsDateField(tokens, i + 2)
  {
    MonthsAgree(tokens[i]);
    DateFieldsAgree(tokens, i + 2);
  }

  lemma {:induction false} FindersAgree(tokens: seq<string>, i: nat)
    ensures FindTriple(tokens, i) == FindMonth(tokens, i)
    decreases |tokens| - i
  {
    if i + 3 < |tokens| {
      TriplesAgree(tokens, i);
      FindersAgree(tokens, i + 1);
    }
  }

  lemma {:induction false} UpToLess(s: string, stop: char)
    ensures |UpTo(s, stop)| <= |s|
    ensures |UpTo(s, stop)| < |s| <==> stop in s
  {
    if s != [] && s[0] != stop {
      UpToLess(s[1..], stop);
      assert s == [s[0]] + s[1..];
    }
  }

  lemma DatesAgree(month: string, day: string, timeOrYear: string, thisYear: nat)
    ensures Modified(month, day, timeOrYear, thisYear) == MonthStyleDate(month, day, timeOrYear, thisYear)
  {
    MonthsAgree(month);
    UpToLess(timeOrYear, ':');
  }

  lemma {:induction false} SizesAgree(tokens: seq<string>, end: nat)
    requires end <= |tokens|
    ensures LastNumber(tokens[..end]) == SizeIndex(tokens, end)
  {
    if end > 0 {
      assert tokens[..end][..end - 1] == tokens[..end - 1];
      SizesAgree(tokens, end - 1);
    }
  }

  /** The entry of a month-layout line, in the other parser's terms. */
  ghost function MonthEntry(tokens: seq<string>, thisYear: nat): Option<FileEntry> {
    if tokens == [] || !IsPerms(tokens[0]) then None else
      match FindMonth(tokens, 0)
      case None => None
      case Some(i) => Some(EntryAt(tokens, i, i + 3, MonthStyleDate(tokens[i], tokens[i + 1], tokens[i + 2], thisYear)))
  }

  function Named(entry: Option<FileEntry>): Option<FileEntry> {
    if entry.Some? && entry.value.name == "" then None else entry
  }

  lemma EntriesAgree(tokens: seq<string>, at: nat, thisYear: nat)
    requires at + 3 < |tokens| && IsPerms(tokens[0])
    ensures EntryFrom(tokens, at, thisYear)
         == Named(Some(EntryAt(tokens, at, at + 3, MonthStyleDate(tokens[at], tokens[at + 1], tokens[at + 2], thisYear))))
  {
    DatesAgree(tokens[at], tokens[at + 1], tokens[at + 2], thisYear);
    SizesAgree(tokens, at);
  }

  lemma FtpReadsTheMonthLayout(line: string, thisYear: nat)
    ensures ParseFtp(line, thisYear) == Named(MonthEntry(Words(line), thisYear))
  {
    var tokens := Words(line);
    if tokens != [] {
      ModesAgree(tokens[0]);
      FindersAgree(tokens, 0);
      if IsPerms(tokens[0]) && FindMonth(tokens, 0).Some? {
        EntriesAgree(tokens, FindMonth(tokens, 0).value, thisYear);
      }
    }
  }
}
