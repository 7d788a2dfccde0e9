/** One line of an `ls -l` style listing, as the SSH browser parses it. */
module ListingLines {
  import opened Wrappers
  import opened Text
  import opened Timestamps

  datatype FileKind = Directory | Symlink | File

  datatype FileEntry = FileEntry(
    name: string, size: nat, modified: Option<string>, permissions: string, kind: FileKind,
    owner: Option<string>, group: Option<string>)

  const U32_MAX: nat := 0xffff_ffff
  const U64_MAX: nat := 0xffff_ffff_ffff_ffff

  // ---------- Token shapes ----------

  predicate IsPermsChar(k: nat, c: char) {
    if k == 3 || k == 6 then c in "xsS-" else if k == 9 then c in "xtT-" else c in "rw-"
  }

  /** A type letter, nine permission characters and at most one single-byte suffix. */
  predicate IsPerms(s: string) {
    && 10 <= |s| <= 11 && s[0] in "dl-"
    && (forall k :: 1 <= k < 10 ==> IsPermsChar(k, s[k]))
    && (|s| == 11 ==> s[10] < '\U{0080}')
  }

  function KindOf(perms: string): FileKind
    requires perms != []
  {
    if perms[0] == 'd' then Directory else if perms[0] == 'l' then Symlink else File
  }

  predicate IsIsoDate(s: string) {
    |s| == 10 && forall k :: 0 <= k < 10 ==> if k == 4 || k == 7 then s[k] == '-' else IsDigit(s[k])
  }

  predicate IsHhMm(s: string) {
    |s| == 5 && forall k :: 0 <= k < 5 ==> if k == 2 then s[k] == ':' else IsDigit(s[k])
  }

  const MONTHS: seq<string> := ["Jan", "Feb", "Mar", "Apr", "May", "Jun", "Jul", "Aug", "Sep", "Oct", "Nov", "Dec"]

  function MonthNumber(s: string): (m: Option<nat>)
    ensures m.Some? ==> 1 <= m.value <= 12 && s == MONTHS[m.value - 1]
  {
    if s == "Jan" then Some(1) else if s == "Feb" then Some(2) else if s == "Mar" then Some(3)
    else if s == "Apr" then Some(4) else if s == "May" then Some(5) else if s == "Jun" then Some(6)
    else if s == "Jul" then Some(7) else if s == "Aug" then Some(8) else if s == "Sep" then Some(9)
    else if s == "Oct" then Some(10) else if s == "Nov" then Some(11) else if s == "Dec" then Some(12) else None
  }

  function TrimToDigit(s: string): string {
    if s != [] && !IsDigit(s[|s| - 1]) then TrimToDigit(s[..|s| - 1]) else s
  }

  predicate IsDay(s: string) {
    var day := ParseUnsigned(TrimToDigit(s), U32_MAX);
    day.Some? && 1 <= day.value <= 31
  }

  predicate IsTimeOrYear(s: string) {
    if ':' in s then
      var parts := Parts(s, ':');
      |parts| == 2 && parts[0] != [] && AllDigits(parts[0]) && parts[1] != [] && AllDigits(parts[1])
    else |s| == 4 && AllDigits(s)
  }

  // ---------- The date columns ----------

  /** A long-iso pair needs a token behind it. */
  predicate IsoAt(tokens: seq<string>, i: nat) {
    i + 2 < |tokens| && IsIsoDate(tokens[i]) && IsHhMm(tokens[i + 1])
  }

  predicate MonthAt(tokens: seq<string>, i: nat) {
    i + 3 < |tokens| && MonthNumber(tokens[i]).Some? && IsDay(tokens[i + 1]) && IsTimeOrYear(tokens[i + 2])
  }

  function FindIso(tokens: seq<string>, i: nat): (at: Option<nat>)
    ensures at.Some? ==> IsoAt(tokens, at.value) && forall j: nat :: i <= j < at.value ==> !IsoAt(tokens, j)
    ensures at.None? ==> forall j: nat :: i <= j ==> !IsoAt(tokens, j)
    decreases |tokens| - i
  {
    if i + 2 >= |tokens| then None else if IsoAt(tokens, i) then Some(i) else FindIso(tokens, i + 1)
  }

  function FindMonth(tokens: seq<string>, i: nat): (at: Option<nat>)
    ensures at.Some? ==> MonthAt(tokens, at.value) && forall j: nat :: i <= j < at.value ==> !MonthAt(tokens, j)
    ensures at.None? ==> forall j: nat :: i <= j ==> !MonthAt(tokens, j)
    decreases |tokens| - i
  {
    if i + 3 >= |tokens| then None else if MonthAt(tokens, i) then Some(i) else FindMonth(tokens, i + 1)
  }

  function OrElse(n: Option<nat>, otherwise: nat): nat {
    if n.Some? then n.value else otherwise
  }

  /** The month layout as `YYYY-MM-DD HH:MM:SS`; a recent file's line omits the year, so today's is used. */
  function MonthStyleDate(month: string, day: string, timeOrYear: string, thisYear: nat): Option<string> {
    match MonthNumber(month)
    case None => None
    case Some(m) =>
      var d := OrElse(ParseUnsigned(day, U32_MAX), 1);
      if ':' in timeOrYear then
        var hours := UpTo(timeOrYear, ':');
        var hh := OrElse(ParseUnsigned(hours, U32_MAX), 0);
        var mm := OrElse(ParseUnsigned(timeOrYear[Least(|hours| + 1, |timeOrYear|)..], U32_MAX), 0);
        Some(DateText(thisYear, m, d) + " " + Padded(hh, 2) + ":" + Padded(mm, 2) + ":00")
      else
        Some(DateText(OrElse(ParseUnsigned(timeOrYear, U32_MAX), 1970), m, d) + " 00:00:00")
  }

  function Least(a: nat, b: nat): nat {
    if a < b then a else b
  }

  // ---------- Names and the other columns ----------

  function Spaced(words: seq<string>): string {
    if words == [] then [] else if |words| == 1 then words[0] else words[0] + " " + Spaced(words[1..])
  }

  /** What precedes the first " -> ". */
  function UpToArrow(s: string): string {
    if s == [] || " -> " <= s then [] else [s[0]] + UpToArrow(s[1..])
  }

  function NameIn(kind: FileKind, words: seq<string>): string {
    if kind.Symlink? then UpToArrow(Spaced(words)) else Spaced(words)
  }

  /** The rightmost numeric token before `end`. */
  function SizeIndex(tokens: seq<string>, end: nat): (at: Option<nat>)
    requires end <= |tokens|
    ensures at.Some? ==> at.value < end && ParseUnsigned(tokens[at.value], U64_MAX).Some?
    ensures end > 0 && ParseUnsigned(tokens[end - 1], U64_MAX).Some? ==> at == Some((end - 1) as nat)
  {
    if end == 0 then None
    else if ParseUnsigned(tokens[end - 1], U64_MAX).Some? then Some(end - 1) else SizeIndex(tokens, end - 1)
  }

  /** The entry, given where its date and its name start. */
  function EntryAt(tokens: seq<string>, dateStart: nat, nameStart: nat, modified: Option<string>): FileEntry
    requires dateStart <= nameStart <= |tokens| && |tokens| > 0 && tokens[0] != []
  {
    var sizeAt := SizeIndex(tokens, dateStart);
    FileEntry(
      NameIn(KindOf(tokens[0]), tokens[nameStart..]),
      if sizeAt.Some? then ParseUnsigned(tokens[sizeAt.value], U64_MAX).value else 0,
      modified, tokens[0], KindOf(tokens[0]),
      if |tokens| > 2 then Some(tokens[2]) else None,
      if sizeAt.Some? && sizeAt.value > 3 && |tokens| > 3 then Some(tokens[3]) else None)
  }

  function LocateDate(tokens: seq<string>, thisYear: nat): (found: Option<(nat, nat, Option<string>)>)
    ensures found.Some? ==> found.value.0 + found.value.1 < |tokens|
  {
    match FindIso(tokens, 0)
    case Some(i) => Some((i, 2, Some(tokens[i] + " " + tokens[i + 1])))
    case None =>
      match FindMonth(tokens, 0)
      case Some(i) => Some((i, 3, MonthStyleDate(tokens[i], tokens[i + 1], tokens[i + 2], thisYear)))
      case None => None
  }

  /** The SSH browser's parser. (A "total" line fails the permission test.) */
  function ParseLs(line: string, thisYear: nat): Option<FileEntry> {
    var tokens := Words(line);
    if tokens == [] || !IsPerms(tokens[0]) then None else
      match LocateDate(tokens, thisYear)
      case None => None
      case Some((start, length, modified)) =>
        var entry := EntryAt(tokens, start, start + length, modified);
        if entry.name == "" || entry.name == "." || entry.name == ".." then None else Some(entry)
  }
}
