/** Order, splitting and number parsing of strings. */
module Text {
  import opened Wrappers

  // ---------- Lexicographic order ----------

  predicate LexLess(a: string, b: string) {
    b != [] && (a == [] || a[0] < b[0] || (a[0] == b[0] && LexLess(a[1..], b[1..])))
  }

  /** The two strings agree before `k`, where `a` has ended or has the smaller character. */
  predicate SmallerAt(a: string, b: string, k: nat) {
    k <= |a| && k < |b| && a[..k] == b[..k] && (k == |a| || a[k] < b[k])
  }

  lemma {:induction false} FirstDifferenceDecides(a: string, b: string)
    ensures LexLess(a, b) <==> exists k: nat :: SmallerAt(a, b, k)
  {
    if k: nat :| SmallerAt(a, b, k) {
      SmallerAtStarts(a, b, k);
    }
    if a != [] && b != [] && a[0] == b[0] {
      FirstDifferenceDecides(a[1..], b[1..]);
      if k: nat :| SmallerAt(a[1..], b[1..], k) {
        assert a[..k + 1] == [a[0]] + a[1..][..k] && b[..k + 1] == [b[0]] + b[1..][..k];
        assert SmallerAt(a, b, k + 1);
      }
    } else if LexLess(a, b) {
      assert SmallerAt(a, b, 0);
    }
  }

  lemma SmallerAtStarts(a: string, b: string, k: nat)
    requires SmallerAt(a, b, k)
    ensures k == 0 ==> LexLess(a, b)
    ensures k > 0 ==> a[0] == b[0] && SmallerAt(a[1..], b[1..], k - 1)
  {
    if k > 0 {
      assert a[..k][0] == b[..k][0] && a[1..][..k - 1] == a[..k][1..] && b[1..][..k - 1] == b[..k][1..];
    }
  }

  /** Behind prefixes of equal length, the prefixes decide first. */
  lemma {:induction false} LexConcat(a: string, b: string, c: string, d: string)
    requires |a| == |b|
    ensures LexLess(a + c, b + d) <==> LexLess(a, b) || (a == b && LexLess(c, d))
  {
    if a == [] {
      assert a + c == c && b + d == d;
    } else {
      assert (a + c)[1..] == a[1..] + c && (b + d)[1..] == b[1..] + d;
      LexConcat(a[1..], b[1..], c, d);
      assert a == [a[0]] + a[1..] && b == [b[0]] + b[1..];
    }
  }

  lemma {:induction false} LexIrreflexive(a: string)
    ensures !LexLess(a, a)
  {
    if a != [] {
      LexIrreflexive(a[1..]);
    }
  }

  lemma {:induction false} LexAsymmetric(a: string, b: string)
    requires LexLess(a, b)
    ensures !LexLess(b, a)
  {
    if a != [] && a[0] == b[0] {
      LexAsymmetric(a[1..], b[1..]);
    }
  }

  lemma {:induction false} LexTransitive(a: string, b: string, c: string)
    requires LexLess(a, b) && LexLess(b, c)
    ensures LexLess(a, c)
  {
    if a != [] && a[0] == b[0] == c[0] {
      LexTransitive(a[1..], b[1..], c[1..]);
    }
  }

  lemma {:induction false} LexTotal(a: string, b: string)
    ensures LexLess(a, b) || a == b || LexLess(b, a)
  {
    if a != [] && b != [] && a[0] == b[0] {
      LexTotal(a[1..], b[1..]);
      assert a == [a[0]] + a[1..] && b == [b[0]] + b[1..];
    }
  }

  lemma Regrouped<T>(a: seq<T>, b: seq<T>, c: seq<T>)
    ensures (a + b) + c == a + (b + c)
  {
  }

  // ---------- Slash-separated names ----------

  /** A file name: not empty and free of the separator. */
  type Name = s: string | s != [] && '/' !in s witness "a"

  function Joined(names: seq<Name>): string {
    if names == [] then [] else if |names| == 1 then names[0] else names[0] + "/" + Joined(names[1..])
  }

  /** The parts of a string between its separators. */
  function Parts(s: string, separator: char): (parts: seq<string>)
    ensures parts != []
  {
    if s == [] then [[]]
    else if s[0] == separator then [[]] + Parts(s[1..], separator)
    else var rest := Parts(s[1..], separator); [[s[0]] + rest[0]] + rest[1..]
  }

  lemma {:induction false} PartsOfOne(s: string, separator: char, more: string)
    requires separator !in s
    ensures Parts(s, separator) == [s]
    ensures Parts(s + [separator] + more, separator) == [s] + Parts(more, separator)
  {
    if s == [] {
      assert s + [separator] + more == [separator] + more && (s + [separator] + more)[1..] == more;
    } else {
      PartsOfOne(s[1..], separator, more);
      assert (s + [separator] + more)[1..] == s[1..] + [separator] + more;
      assert s == [s[0]] + s[1..];
    }
  }

  lemma {:induction false} PartsOfTwo(s: string, separator: char)
    requires |Parts(s, separator)| == 2
    ensures s == Parts(s, separator)[0] + [separator] + Parts(s, separator)[1]
  {
    if s[0] == separator {
      PartsOfLast(s[1..], separator);
    } else {
      PartsOfTwo(s[1..], separator);
      assert s == [s[0]] + s[1..];
    }
  }

  lemma {:induction false} PartsOfLast(s: string, separator: char)
    requires |Parts(s, separator)| == 1
    ensures Parts(s, separator)[0] == s
  {
    if s != [] {
      PartsOfLast(s[1..], separator);
    }
  }

  /** Splitting a relative path gives its names back, so the path determines them. */
  lemma {:induction false} PartsOfJoined(names: seq<Name>)
    requires names != []
    ensures Parts(Joined(names), '/') == names
  {
    if |names| == 1 {
      PartsOfOne(names[0], '/', []);
    } else {
      PartsOfJoined(names[1..]);
      PartsOfOne(names[0], '/', Joined(names[1..]));
    }
  }

  // ---------- Words ----------

  /** Unicode White_Space. */
  predicate IsWhitespace(c: char) {
    || '\U{0009}' <= c <= '\U{000d}' || c == ' ' || c == '\U{0085}' || c == '\U{00a0}' || c == '\U{1680}'
    || '\U{2000}' <= c <= '\U{200a}' || c == '\U{2028}' || c == '\U{2029}' || c == '\U{202f}' || c == '\U{205f}' || c == '\U{3000}'
  }

  function UpTo(text: string, stop: char): string {
    if text == [] || text[0] == stop then [] else [text[0]] + UpTo(text[1..], stop)
  }

  function Word(text: string): string {
    if text == [] || IsWhitespace(text[0]) then [] else [text[0]] + Word(text[1..])
  }

  function Words(text: string): seq<string> {
    if text == [] then []
    else if IsWhitespace(text[0]) then Words(text[1..])
    else
      WordFits(text);
      [Word(text)] + Words(text[|Word(text)|..])
  }

  lemma {:induction false} WordFits(text: string)
    ensures |Word(text)| <= |text|
  {
    if text != [] && !IsWhitespace(text[0]) {
      WordFits(text[1..]);
    }
  }

  lemma WordsOf(word: string, rest: string)
    requires word != [] && Word(word) == word && (rest == [] || IsWhitespace(rest[0]))
    ensures Words(word + rest) == [word] + Words(rest)
  {
    WordStops(word, rest);
    assert (word + rest)[|word|..] == rest;
    assert (word + rest)[0] == word[0] && !IsWhitespace(word[0]);
  }

  lemma {:induction false} WordStops(word: string, rest: string)
    requires Word(word) == word && (rest == [] || IsWhitespace(rest[0]))
    ensures Word(word + rest) == word
  {
    if word == [] {
      assert word + rest == rest;
    } else {
      assert (word + rest)[1..] == word[1..] + rest;
      assert !IsWhitespace(word[0]);
      assert Word(word)[1..] == word[1..];
      WordStops(word[1..], rest);
    }
  }

  lemma {:induction false} UpToFirst(s: string, stop: char, more: string)
    requires stop !in s
    ensures UpTo(s + [stop] + more, stop) == s
  {
    if s != [] {
      assert (s + [stop] + more)[1..] == s[1..] + [stop] + more;
      UpToFirst(s[1..], stop, more);
    }
  }

  lemma {:induction false} WordHasNoSpace(word: string)
    requires Word(word) == word
    ensures forall k :: 0 <= k < |word| ==> !IsWhitespace(word[k])
  {
    if word != [] {
      assert Word(word)[1..] == word[1..];
      WordHasNoSpace(word[1..]);
    }
  }

  // ---------- Decimal numbers ----------

  predicate IsDigit(c: char) {
    '0' <= c <= '9'
  }

  predicate AllDigits(s: string) {
    forall k :: 0 <= k < |s| ==> IsDigit(s[k])
  }

  function DigitValue(c: char): (d: nat)
    requires IsDigit(c)
    ensures d < 10
  {
    c as int - '0' as int
  }

  function Value(digits: string): nat
    requires AllDigits(digits)
  {
    if digits == [] then 0 else 10 * Value(digits[..|digits| - 1]) + DigitValue(digits[|digits| - 1])
  }

  lemma ValueOfNext(digits: string, next: char)
    requires AllDigits(digits) && IsDigit(next)
    ensures AllDigits(digits + [next]) && Value(digits + [next]) == 10 * Value(digits) + DigitValue(next)
  {
  }

  /** Parsing an unsigned number of at most `most`: an optional plus sign, then digits. */
  function ParseUnsigned(word: string, most: nat): Option<nat> {
    var digits := if word != [] && word[0] == '+' then word[1..] else word;
    if digits == [] || !AllDigits(digits) then None
    else if Value(digits) > most then None
    else Some(Value(digits))
  }
}
