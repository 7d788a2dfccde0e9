/** The HTTP CONNECT handshake: the header is cut out of the stream however it arrives, the rest is replayed. */
module HttpConnect {
  import opened Bytes
  import opened Wrappers
  import opened Sockets
  import opened Text

  // ---------- The end of the header ----------

  const BLANK_LINE: seq<byte> := [13, 10, 13, 10]

  predicate EndsAt(s: seq<byte>, p: nat) {
    4 <= p <= |s| && s[p - 4..p] == BLANK_LINE
  }

  /** `p` is just past the first empty line. */
  ghost predicate HeaderEndsAt(s: seq<byte>, p: nat) {
    EndsAt(s, p) && forall q: nat :: q < p ==> !EndsAt(s, q)
  }

  ghost predicate Endless(s: seq<byte>) {
    forall q: nat :: !EndsAt(s, q)
  }

  method FindHeaderEnd(bytes: seq<byte>) returns (pos: Option<nat>)
    ensures pos.Some? ==> HeaderEndsAt(bytes, pos.value)
    ensures pos.None? ==> Endless(bytes)
  {
    var i := 0;
    while i + 4 <= |bytes|
      invariant forall q: nat :: q < i + 4 ==> !EndsAt(bytes, q)
    {
      if bytes[i..i + 4] == BLANK_LINE {
        return Some(i + 4);
      }
      i := i + 1;
    }
    return None;
  }

  lemma EndInPrefix(s: seq<byte>, t: seq<byte>, p: nat)
    requires p <= |s|
    ensures EndsAt(s + t, p) <==> EndsAt(s, p)
  {
  }

  /** The end found in what has arrived so far is the end in the whole stream. */
  lemma HeaderEndIsStable(s: seq<byte>, t: seq<byte>, p: nat)
    requires p <= |s|
    ensures HeaderEndsAt(s + t, p) <==> HeaderEndsAt(s, p)
  {
    forall q: nat | q <= p
      ensures EndsAt(s + t, q) <==> EndsAt(s, q)
    {
      EndInPrefix(s, t, q);
    }
  }

  // ---------- The status line ----------

  /** The first of a text's lines, without its line ending. */
  function FirstLine(text: string): string {
    var line := UpTo(text, '\n');
    if |line| < |text| && line != [] && line[|line| - 1] == '\r' then line[..|line| - 1] else line
  }

  function ParseU16(word: string): Option<nat> {
    ParseUnsigned(word, 65535)
  }

  function StatusCode(header: string): Option<nat> {
    var words := Words(FirstLine(header));
    if |words| > 1 then ParseU16(words[1]) else None
  }

  predicate Accepts(header: string) {
    StatusCode(header) == Some(200)
  }

  predicate AllZeros(s: string) {
    forall k :: 0 <= k < |s| ==> s[k] == '0'
  }

  lemma {:induction false} ZeroIsZeros(digits: string)
    requires AllDigits(digits)
    ensures Value(digits) == 0 <==> AllZeros(digits)
  {
    if digits != [] {
      ZeroIsZeros(digits[..|digits| - 1]);
    }
  }

  lemma TwoHundred(head: string, a: char, b: char, c: char)
    requires AllDigits(head) && IsDigit(a) && IsDigit(b) && IsDigit(c)
    ensures AllDigits(head + [a] + [b] + [c])
    ensures Value(head + [a] + [b] + [c]) == 200 <==> AllZeros(head) && a == '2' && b == '0' && c == '0'
  {
    ValueOfNext(head, a);
    ValueOfNext(head + [a], b);
    ValueOfNext(head + [a] + [b], c);
    ZeroIsZeros(head);
  }

  lemma SmallValue(digits: string)
    requires AllDigits(digits) && |digits| <= 2
    ensures Value(digits) < 100
  {
  }

  /** The codes taken for success: 200 behind any number of zeros and at most one plus sign. */
  lemma AcceptedCodes(word: string)
    ensures ParseU16(word) == Some(200) <==>
            exists zeros: string :: AllZeros(zeros) && (word == zeros + "200" || word == "+" + zeros + "200")
  {
    if ParseU16(word) == Some(200) {
      AcceptedIsTwoHundred(word);
    }
    if zeros: string :| AllZeros(zeros) && (word == zeros + "200" || word == "+" + zeros + "200") {
      TwoHundredIsAccepted(zeros);
    }
  }

  lemma AcceptedIsTwoHundred(word: string)
    requires ParseU16(word) == Some(200)
    ensures exists zeros: string :: AllZeros(zeros) && (word == zeros + "200" || word == "+" + zeros + "200")
  {
    var digits := if word[0] == '+' then word[1..] else word;
    var zeros := ZerosBeforeTwoHundred(digits);
    assert word[0] == '+' ==> word == ['+'] + digits == "+" + zeros + "200";
  }

  lemma ZerosBeforeTwoHundred(digits: string) returns (zeros: string)
    requires AllDigits(digits) && Value(digits) == 200
    ensures AllZeros(zeros) && digits == zeros + "200"
  {
    if |digits| <= 2 { SmallValue(digits); }
    var n := |digits|;
    zeros := digits[..n - 3];
    LastThree(digits);
    TwoHundred(zeros, digits[n - 3], digits[n - 2], digits[n - 1]);
  }

  lemma LastThree(digits: string)
    requires |digits| >= 3
    ensures var n := |digits|; digits == digits[..n - 3] + [digits[n - 3]] + [digits[n - 2]] + [digits[n - 1]]
  {
  }

  lemma TwoHundredIsAccepted(zeros: string)
    requires AllZeros(zeros)
    ensures ParseU16(zeros + "200") == Some(200) && ParseU16("+" + zeros + "200") == Some(200)
  {
    var digits := zeros + "200";
    assert digits == zeros + ['2'] + ['0'] + ['0'];
    TwoHundred(zeros, '2', '0', '0');
    assert digits[0] != '+';
    assert ("+" + zeros + "200")[1..] == digits;
  }

  /** Whatever the version word and the reason phrase, the second word of the status line decides. */
  lemma SecondWordDecides(version: string, code: string, rest: string, header: string)
    requires version != [] && code != [] && Word(version) == version && Word(code) == code
    requires rest == [] || IsWhitespace(rest[0])
    requires FirstLine(header) == version + " " + code + rest
    ensures Accepts(header) <==> ParseU16(code) == Some(200)
  {
    TwoWords(version, code, rest);
  }

  /** A version word, a code word, and a reason on the same line that does not run into the code. */
  predicate StatusLine(version: string, code: string, reason: string) {
    && version != [] && Word(version) == version && code != [] && Word(code) == code
    && '\n' !in reason && (reason == [] || IsWhitespace(reason[0]))
  }

  lemma FirstLineOf(line: string, more: string)
    requires '\n' !in line
    ensures FirstLine(line + "\n" + more) == if line != [] && line[|line| - 1] == '\r' then line[..|line| - 1] else line
  {
    UpToFirst(line, '\n', more);
    assert |line| < |line + "\n" + more|;
  }

  /** The carriage return of the line ending may be read as the end of the reason. */
  lemma ReturnEndsReason(version: string, code: string, reason: string, more: string)
    requires StatusLine(version, code, reason)
    ensures StatusLine(version, code, reason + "\r")
    ensures version + " " + code + (reason + "\r") + "\n" + more == version + " " + code + reason + "\r\n" + more
  {
    assert (reason + "\r")[0] == if reason == [] then '\r' else reason[0];
    var head := version + " " + code;
    Regrouped(head, reason, "\r");
    Regrouped(head + reason, "\r", "\n");
    assert "\r" + "\n" == "\r\n";
  }

  /** On the header as it is sent, behind either line ending, the code decides: nothing else of the header matters. */
  lemma CodeDecides(version: string, code: string, reason: string, more: string)
    requires StatusLine(version, code, reason)
    ensures Accepts(version + " " + code + reason + "\n" + more) <==> ParseU16(code) == Some(200)
    ensures Accepts(version + " " + code + reason + "\r\n" + more) <==> ParseU16(code) == Some(200)
  {
    CodeDecidesLine(version, code, reason, more);
    ReturnEndsReason(version, code, reason, more);
    CodeDecidesLine(version, code, reason + "\r", more);
  }

  lemma CodeDecidesLine(version: string, code: string, reason: string, more: string)
    requires StatusLine(version, code, reason)
    ensures Accepts(version + " " + code + reason + "\n" + more) <==> ParseU16(code) == Some(200)
  {
    WordHasNoSpace(version);
    WordHasNoSpace(code);
    var line := version + " " + code + reason;
    FirstLineOf(line, more);
    var rest := if reason != [] && reason[|reason| - 1] == '\r' then reason[..|reason| - 1] else reason;
    assert reason == [] ==> line[|line| - 1] == code[|code| - 1];
    assert FirstLine(line + "\n" + more) == version + " " + code + rest;
    SecondWordDecides(version, code, rest, line + "\n" + more);
  }

  lemma {:induction false} WordOfPlain(word: string)
    requires forall k :: 0 <= k < |word| ==> !IsWhitespace(word[k])
    ensures Word(word) == word
  {
    if word != [] {
      WordOfPlain(word[1..]);
    }
  }

  /** The usual answer of an HTTP proxy is accepted. */
  lemma OrdinaryAnswerIsAccepted(more: string)
    ensures Accepts("HTTP/1.1" + " " + "200" + " Connection established" + "\r\n" + more)
  {
    OrdinaryStatusLine();
    CodeIs200();
    CodeDecides("HTTP/1.1", "200", " Connection established", more);
  }

  lemma CodeIs200()
    ensures ParseU16("200") == Some(200)
  {
    TwoHundredIsAccepted("");
    assert "" + "200" == "200";
  }

  lemma OrdinaryStatusLine()
    ensures StatusLine("HTTP/1.1", "200", " Connection established")
  {
    WordOfPlain("HTTP/1.1");
    WordOfPlain("200");
  }

  lemma TwoWords(first: string, second: string, rest: string)
    requires first != [] && second != [] && Word(first) == first && Word(second) == second
    requires rest == [] || IsWhitespace(rest[0])
    ensures |Words(first + " " + second + rest)| > 1 && Words(first + " " + second + rest)[1] == second
  {
    var words := second + rest;
    Regrouped(first, " ", second);
    Regrouped(first, " " + second, rest);
    Regrouped(" ", second, rest);
    WordsOf(first, " " + words);
    WordsSkipSpace(words);
    WordsOf(second, rest);
  }

  lemma WordsSkipSpace(text: string)
    ensures Words(" " + text) == Words(text)
  {
    assert (" " + text)[1..] == text;
  }

  // ---------- The handshake ----------

  datatype Outcome = Tunnelled(extra: seq<byte>) | ClosedEarly | Rejected

  /** What the proxy's whole byte stream, however it is split, must lead to; `left` is what nobody has read yet. */
  ghost predicate Handshake(stream: seq<byte>, lossy: seq<byte> -> string, outcome: Outcome, left: seq<byte>) {
    && (outcome.ClosedEarly? <==> Endless(stream))
    && (forall p: nat :: HeaderEndsAt(stream, p) ==>
          if Accepts(lossy(stream[..p])) then outcome.Tunnelled? && outcome.extra + left == stream[p..] else outcome.Rejected?)
  }

  /** The read loop, from the request being sent; `lossy` turns header bytes into text. */
  method HttpConnect(stream: Socket, lossy: seq<byte> -> string) returns (outcome: Outcome)
    modifies stream`incoming
    ensures Handshake(old(stream.incoming), lossy, outcome, stream.incoming)
  {
    var response: seq<byte> := [];
    var headerEnd: Option<nat> := None;
    ghost var whole := stream.incoming;
    assert Endless(response);
    while headerEnd.None?
      invariant response + stream.incoming == whole
      invariant headerEnd.None? ==> Endless(response)
      invariant headerEnd.Some? ==> HeaderEndsAt(response, headerEnd.value)
      decreases |stream.incoming|, headerEnd.None?
    {
      var chunk := stream.Read(1024);
      if chunk == [] {
        assert response == whole;
        return ClosedEarly;
      }
      assert response + (chunk + stream.incoming) == (response + chunk) + stream.incoming;
      response := response + chunk;
      headerEnd := FindHeaderEnd(response);
    }
    var p := headerEnd.value;
    HeaderEndIsStable(response, stream.incoming, p);
    var extra := response[p..];
    assert response[..p] == whole[..p] && extra + stream.incoming == whole[p..];
    forall q: nat | HeaderEndsAt(whole, q)
      ensures q == p
    {
      assert !(q < p) && !(p < q);
    }
    outcome := if Accepts(lossy(response[..p])) then Tunnelled(extra) else Rejected;
  }

  /** Two runs over one stream, split differently, agree on everything. */
  lemma SplitsDoNotMatter(stream: seq<byte>, lossy: seq<byte> -> string, a: Outcome, leftA: seq<byte>, b: Outcome, leftB: seq<byte>)
    requires Handshake(stream, lossy, a, leftA) && Handshake(stream, lossy, b, leftB)
    ensures a.Tunnelled? == b.Tunnelled? && a.Rejected? == b.Rejected?
    ensures a.Tunnelled? ==> a.extra + leftA == b.extra + leftB
  {
    if !Endless(stream) {
      var q: nat :| EndsAt(stream, q);
      var p := FirstEnd(stream, q);
    }
  }

  lemma {:induction false} FirstEnd(s: seq<byte>, q: nat) returns (p: nat)
    requires EndsAt(s, q)
    ensures HeaderEndsAt(s, p)
    decreases q
  {
    if r: nat :| r < q && EndsAt(s, r) {
      p := FirstEnd(s, r);
    } else {
      p := q;
    }
  }

  /** A header without an earlier empty line ends with the one behind it. */
  lemma HeaderEndsBehind(head: seq<byte>, rest: seq<byte>)
    requires Endless(head + [13, 10, 13])
    ensures HeaderEndsAt(head + BLANK_LINE + rest, |head| + 4)
  {
    var all := head + BLANK_LINE + rest;
    assert all[|head|..|head| + 4] == BLANK_LINE;
    forall q: nat | q < |head| + 4
      ensures !EndsAt(all, q)
    {
      assert all == head + [13, 10, 13] + ([10] + rest);
      EndInPrefix(head + [13, 10, 13], [10] + rest, q);
    }
  }

  /**
   * A proxy that sends a header with a status line, an empty line and more
   * opens a tunnel exactly when its code is 200, however its bytes are split,
   * and the tunnel starts behind the empty line.
   */
  lemma TunnelsOpenOn200(
    head: seq<byte>, rest: seq<byte>, lossy: seq<byte> -> string, version: string, code: string, reason: string, more: string,
    outcome: Outcome, left: seq<byte>)
    requires Endless(head + [13, 10, 13]) && StatusLine(version, code, reason)
    requires lossy(head + BLANK_LINE) == version + " " + code + reason + "\r\n" + more
    requires Handshake(head + BLANK_LINE + rest, lossy, outcome, left)
    ensures outcome.Tunnelled? <==> ParseU16(code) == Some(200)
    ensures outcome.Rejected? <==> ParseU16(code) != Some(200)
    ensures outcome.Tunnelled? ==> outcome.extra + left == rest
    ensures (exists p: nat :: HeaderEndsAt(head + BLANK_LINE + rest, p) && Accepts(lossy((head + BLANK_LINE + rest)[..p])))
            <==> ParseU16(code) == Some(200)
  {
    var all, p := head + BLANK_LINE + rest, |head| + 4;
    HeaderEndsBehind(head, rest);
    assert all[..p] == head + BLANK_LINE && all[p..] == rest;
    CodeDecides(version, code, reason, more);
    forall q: nat | HeaderEndsAt(all, q)
      ensures q == p
    {
      assert !(q < p) && !(p < q);
    }
  }

  // ---------- The tunnel ----------

  class Tunnel {
    const stream: Socket
    var pending: seq<byte>

    constructor (stream: Socket, pending: seq<byte>)
      ensures this.stream == stream && this.pending == pending
    {
      this.stream, this.pending := stream, pending;
    }

    /** Everything a reader has still to get. */
    function Unread(): seq<byte>
      reads this, stream
    {
      pending + stream.incoming
    }

    /** Replays what the handshake read too much before touching the socket again. */
    method PollRead(capacity: nat) returns (chunk: seq<byte>)
      modifies this`pending, stream`incoming
      ensures chunk + Unread() == old(Unread())
      ensures |chunk| <= capacity
      ensures chunk == [] <==> capacity == 0 || old(Unread()) == []
      ensures old(pending) != [] ==> stream.incoming == old(stream.incoming)
    {
      if pending != [] {
        var n := Min(capacity, |pending|);
        chunk := pending[..n];
        pending := pending[n..];
        assert chunk + (pending + stream.incoming) == (chunk + pending) + stream.incoming;
      } else {
        chunk := stream.Read(capacity);
        assert Unread() == stream.incoming;
      }
    }

    /** A reader with buffers of any sizes gets the stream in order, and all of it if it keeps reading. */
    method ReadMany(capacities: seq<nat>) returns (bytes: seq<byte>)
      modifies this`pending, stream`incoming
      ensures bytes + Unread() == old(Unread())
      ensures (forall k :: 0 <= k < |capacities| ==> capacities[k] > 0) && |capacities| >= |old(Unread())| ==> bytes == old(Unread())
    {
      bytes := [];
      for k := 0 to |capacities|
        invariant bytes + Unread() == old(Unread())
        invariant (forall j :: 0 <= j < |capacities| ==> capacities[j] > 0) ==> |bytes| >= k || Unread() == []
      {
        var chunk := PollRead(capacities[k]);
        assert bytes + (chunk + Unread()) == (bytes + chunk) + Unread();
        bytes := bytes + chunk;
      }
    }
  }

  /** Through an HTTP proxy: a tunnel reads exactly what follows the first empty line. */
  method OpenTunnel(stream: Socket, lossy: seq<byte> -> string) returns (tunnel: Option<Tunnel>)
    modifies stream`incoming
    ensures tunnel.Some? <==> exists p: nat :: HeaderEndsAt(old(stream.incoming), p) && Accepts(lossy(old(stream.incoming)[..p]))
    ensures tunnel.Some? ==> fresh(tunnel.value) && tunnel.value.stream == stream
    ensures tunnel.Some? ==> forall p: nat :: HeaderEndsAt(old(stream.incoming), p) ==> tunnel.value.Unread() == old(stream.incoming)[p..]
  {
    ghost var whole := stream.incoming;
    var outcome := HttpConnect(stream, lossy);
    match outcome
    case Tunnelled(extra) =>
      ghost var q: nat :| EndsAt(whole, q);
      ghost var p := FirstEnd(whole, q);
      var t := new Tunnel(stream, extra);
      tunnel := Some(t);
    case _ =>
      tunnel := None;
  }
}
