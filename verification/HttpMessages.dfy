/**
  Composed messages, read back: a number written in decimal, a status line, a header field, a request line.
  What is read is said of the text alone.
 */
module HttpMessages {
  import opened Wrappers
  import opened HttpHead

  // ---------------------------------------------------------------------------------------
  // Numbers
  // ---------------------------------------------------------------------------------------

  const DIGITS: string := "0123456789"

  /** A number as a sender writes it. */
  function Decimal(n: nat): string {
    if n < 10 then [DIGITS[n]] else Decimal(n / 10) + [DIGITS[n % 10]]
  }

  predicate AllZeros(s: string) { forall i :: 0 <= i < |s| ==> s[i] == '0' }

  lemma {:induction false} DecimalReads(zeros: string, n: nat)
    requires AllZeros(zeros)
    ensures Digits(zeros + Decimal(n)) && DecimalValue(zeros + Decimal(n)) == n
    decreases n
  {
    if n < 10 {
      ZerosRead(zeros);
      LastDigit(zeros, n);
      assert zeros + Decimal(n) == zeros + [DIGITS[n]];
    } else {
      DecimalReads(zeros, n / 10);
      LastDigit(zeros + Decimal(n / 10), n % 10);
      assert zeros + Decimal(n) == zeros + Decimal(n / 10) + [DIGITS[n % 10]];
    }
  }

  lemma {:induction false} ZerosRead(zeros: string)
    requires AllZeros(zeros)
    ensures Digits(zeros) && DecimalValue(zeros) == 0
  {
    if zeros != "" {
      ZerosRead(zeros[..|zeros| - 1]);
    }
  }

  lemma LastDigit(s: string, d: nat)
    requires Digits(s) && d < 10
    ensures Digits(s + [DIGITS[d]]) && DecimalValue(s + [DIGITS[d]]) == 10 * DecimalValue(s) + d
  {
    assert (s + [DIGITS[d]])[..|s|] == s;
  }

  /** The ways a number can be written: leading zeros, and a plus sign in front of them. */
  ghost predicate Writes(s: string, n: nat) {
    exists zeros: string :: AllZeros(zeros) && (s == zeros + Decimal(n) || s == "+" + zeros + Decimal(n))
  }

  lemma DecimalNotEmpty(n: nat)
    ensures Decimal(n) != ""
  {
  }

  /** Digits alone are read as they stand, and with a plus sign in front. */
  lemma DigitsParse(d: string)
    requires d != "" && Digits(d) && DecimalValue(d) <= U64_MAX
    ensures ParseU64(d) == Some(DecimalValue(d)) && ParseU64("+" + d) == Some(DecimalValue(d))
  {
    hide DecimalValue;
    assert d[0] != '+';
    assert ("+" + d)[1..] == d;
  }

  lemma NumberRead(s: string, n: nat)
    requires Writes(s, n) && n <= U64_MAX
    ensures ParseU64(s) == Some(n)
  {
    hide DecimalValue, Decimal, ParseU64, Digits, AllZeros;
    var zeros :| AllZeros(zeros) && (s == zeros + Decimal(n) || s == "+" + zeros + Decimal(n));
    DecimalReads(zeros, n);
    DecimalNotEmpty(n);
    DigitsParse(zeros + Decimal(n));
    assert "+" + zeros + Decimal(n) == "+" + (zeros + Decimal(n));
  }

  // ---------------------------------------------------------------------------------------
  // Padding
  // ---------------------------------------------------------------------------------------

  predicate Blanks(s: string) { forall i :: 0 <= i < |s| ==> s[i] == ' ' || s[i] == '\t' }

  /** Text that starts and ends on a character, not a blank. */
  predicate Solid(v: string) { v != "" ==> !IsSpace(v[0]) && !IsSpace(v[|v| - 1]) }

  lemma {:induction false} TrimFront(pad: string, v: string)
    requires Blanks(pad) && (v != "" ==> !IsSpace(v[0]))
    ensures TrimStart(pad + v) == v
  {
    if pad == "" {
      assert pad + v == v;
    } else {
      TrimFront(pad[1..], v);
      assert (pad + v)[1..] == pad[1..] + v;
    }
  }

  lemma {:induction false} TrimBack(v: string, pad: string)
    requires Blanks(pad) && (v != "" ==> !IsSpace(v[|v| - 1]))
    ensures TrimEnd(v + pad) == v
    decreases |pad|
  {
    if pad == "" {
      assert v + pad == v;
    } else {
      TrimBack(v, pad[..|pad| - 1]);
      assert (v + pad)[..|v + pad| - 1] == v + pad[..|pad| - 1];
    }
  }

  lemma {:induction false} BlankTrims(pad: string)
    requires Blanks(pad)
    ensures TrimStart(pad) == ""
  {
    if pad != "" {
      BlankTrims(pad[1..]);
    }
  }

  lemma PaddingTrimmed(front: string, v: string, back: string)
    requires Blanks(front) && Blanks(back) && Solid(v)
    ensures Trim(front + v + back) == v
  {
    if v == "" {
      assert front + v + back == front + back;
      BlankTrims(front + back);
    } else {
      assert front + v + back == front + (v + back);
      TrimFront(front, v + back);
      TrimBack(v, back);
    }
  }

  lemma WrittenIsSolid(s: string, n: nat)
    requires Writes(s, n)
    ensures Solid(s) && s != ""
  {
    hide DecimalValue, Decimal;
    var zeros :| AllZeros(zeros) && (s == zeros + Decimal(n) || s == "+" + zeros + Decimal(n));
    DecimalReads(zeros, n);
    DecimalNotEmpty(n);
    var d := zeros + Decimal(n);
    assert s[|s| - 1] == d[|d| - 1];
    assert s[0] == d[0] || s[0] == '+';
  }

  // ---------------------------------------------------------------------------------------
  // Header fields
  // ---------------------------------------------------------------------------------------

  /** The line is a field called `name`, which is in lower case. */
  predicate Names(line: string, name: string) {
    exists i :: 0 <= i < |line| && line[i] == ':' && ':' !in line[..i] && Lower(line[..i]) == name
  }

  /** The line is the field `name`, in any letter case, with the value `v` and blanks around it. */
  ghost predicate Field(line: string, name: string, v: string) {
    exists n: string, front: string, back: string ::
      Lower(n) == name && ':' !in n && Blanks(front) && Blanks(back) && Solid(v) && line == n + ":" + front + v + back
  }

  lemma NamesIs(line: string, name: string)
    requires Lower(name) == name
    ensures FieldValue(line, name).Some? <==> Names(line, name)
  {
    hide Lower;
    match SplitOnce(line, ':')
    case None =>
    case Some((n, v)) =>
      assert line[|n|] == ':' && line[..|n|] == n;
      if Names(line, name) {
        var i :| 0 <= i < |line| && line[i] == ':' && ':' !in line[..i] && Lower(line[..i]) == name;
        IndexOfIs(line, ':', i);
      }
  }

  lemma FieldIs(line: string, name: string, v: string)
    requires Lower(name) == name && Field(line, name, v)
    ensures Names(line, name) && FieldValue(line, name).Some? && Trim(FieldValue(line, name).value) == v
  {
    hide Lower, Trim;
    var n: string, front: string, back: string :|
      Lower(n) == name && ':' !in n && Blanks(front) && Blanks(back) && Solid(v) && line == n + ":" + front + v + back;
    assert line[|n|] == ':' && line[..|n|] == n && line[|n| + 1..] == front + v + back;
    IndexOfIs(line, ':', |n|);
    PaddingTrimmed(front, v, back);
    NamesIs(line, name);
  }

  /** The first field called `name` has the value `v`. */
  ghost predicate FirstIs(headers: seq<string>, name: string, v: string) {
    exists i :: 0 <= i < |headers| && Field(headers[i], name, v) && forall j :: 0 <= j < i ==> !Names(headers[j], name)
  }

  predicate NoneNames(headers: seq<string>, name: string) {
    forall i :: 0 <= i < |headers| ==> !Names(headers[i], name)
  }

  /** What the fields called `name` come to. */
  ghost predicate Tells(headers: seq<string>, name: string, v: Option<string>) {
    match v
    case None => NoneNames(headers, name)
    case Some(x) => FirstIs(headers, name, x)
  }

  lemma {:induction false} FirstFieldIs(headers: seq<string>, name: string, v: Option<string>)
    requires Lower(name) == name && Tells(headers, name, v)
    ensures FirstField(headers, name) == v
  {
    hide Lower, Trim, Names, Field, FieldValue;
    if headers != [] {
      NamesIs(headers[0], name);
      var rest := headers[1..];
      assert forall j :: 0 <= j < |rest| ==> rest[j] == headers[j + 1];
      if v.Some? {
        var i :| 0 <= i < |headers| && Field(headers[i], name, v.value) && forall j :: 0 <= j < i ==> !Names(headers[j], name);
        if i == 0 {
          FieldIs(headers[0], name, v.value);
        } else {
          assert Field(rest[i - 1], name, v.value);
          FirstFieldIs(rest, name, v);
        }
      } else {
        FirstFieldIs(rest, name, v);
      }
    }
  }

  /** A header field of a whole message, read back: the first of its name, in any letter case, blanks off. */
  lemma HeaderReadsBack(first: string, headers: seq<string>, body: string, name: string, v: Option<string>)
    requires CleanHead(first, headers) && Lower(name) == name && Tells(headers, name, v)
    ensures HeaderValue(Head(first, headers) + body, name) == v
  {
    hide Lower, Tells, FirstField;
    HeaderLinesOfMessage(first, headers, body);
    FirstFieldIs(headers, name, v);
  }

  /** The names read are in lower case already. */
  lemma LowerNames()
    ensures Lower("host") == "host" && Lower("content-length") == "content-length"
    ensures Lower("transfer-encoding") == "transfer-encoding" && Lower("x-amz-request-id") == "x-amz-request-id"
  {
  }

  // ---------------------------------------------------------------------------------------
  // The declared length
  // ---------------------------------------------------------------------------------------

  /** 5 TiB, the largest object there is. */
  const LARGEST: nat := 5_497_558_138_880

  /** The line declares `n` bytes, in one of the ways a number can be written. */
  ghost predicate LengthLine(line: string, n: nat) {
    exists s: string :: Writes(s, n) && Field(line, "content-length", s)
  }

  /**
    The framing of a message: no declared length when a transfer coding is named or no length is, or when some
    length is over the largest or two of them differ; `n` when every length line says `n`.
   */
  ghost predicate Declares(headers: seq<string>, d: Option<nat>) {
    match d
    case None =>
      || NoneNames(headers, "content-length")
      || !NoneNames(headers, "transfer-encoding")
      || (exists i, n: nat :: 0 <= i < |headers| && LARGEST < n <= U64_MAX && LengthLine(headers[i], n))
      || (exists i, j, n: nat, m: nat :: 0 <= i < |headers| && 0 <= j < |headers| && n < m <= U64_MAX
                                         && LengthLine(headers[i], n) && LengthLine(headers[j], m))
    case Some(n) =>
      && n <= LARGEST && NoneNames(headers, "transfer-encoding") && !NoneNames(headers, "content-length")
      && forall i :: 0 <= i < |headers| && Names(headers[i], "content-length") ==> LengthLine(headers[i], n)
  }

  lemma LengthLineIs(line: string, n: nat)
    requires LengthLine(line, n) && n <= U64_MAX
    ensures IsContentLength(line) && LineLength(line) == if n <= LARGEST then Some(n) else None
  {
    hide Lower, Trim, Field, Writes, ParseU64;
    LowerNames();
    var s: string :| Writes(s, n) && Field(line, "content-length", s);
    FieldIs(line, "content-length", s);
    NumberRead(s, n);
  }

  lemma DeclaredFrames(headers: seq<string>, d: Option<nat>)
    requires Declares(headers, d)
    ensures d.Some? ==> Frames(headers, d.value)
    ensures d.None? ==> forall n :: !Frames(headers, n)
  {
    hide Lower, Names, FieldValue, LineLength, LengthLine;
    LowerNames();
    forall l: string ensures (IsTransferEncoding(l) <==> Names(l, "transfer-encoding")) && (IsContentLength(l) <==> Names(l, "content-length")) {
      NamesIs(l, "transfer-encoding");
      NamesIs(l, "content-length");
    }
    forall l: string, n: nat | n <= U64_MAX && LengthLine(l, n)
      ensures IsContentLength(l) && LineLength(l) == if n <= LARGEST then Some(n) else None
    {
      LengthLineIs(l, n);
    }
  }

  /** The length a whole message declares is the number written in it. */
  lemma LengthReadsBack(first: string, headers: seq<string>, body: string, d: Option<nat>)
    requires CleanHead(first, headers) && Declares(headers, d)
    ensures ContentLength(Head(first, headers) + body) == d
  {
    hide Declares, Frames, ContentLength, CleanHead;
    DeclaredFrames(headers, d);
    var data := Head(first, headers) + body;
    if d.Some? {
      MessageLength(first, headers, body, d.value);
    } else if ContentLength(data).Some? {
      MessageLength(first, headers, body, ContentLength(data).value);
    }
  }

  /** In particular: one `Content-Length: n` line and no other framing line. */
  lemma OneLengthLine(first: string, before: seq<string>, text: string, n: nat, after: seq<string>, body: string)
    requires Writes(text, n) && n <= LARGEST
    requires var headers := before + ["Content-Length: " + text] + after; CleanHead(first, headers)
    requires NoneNames(before + after, "content-length") && NoneNames(before + after, "transfer-encoding")
    ensures ContentLength(Head(first, before + ["Content-Length: " + text] + after) + body) == Some(n)
  {
    hide CleanHead, Writes, Names, Lower;
    var line := "Content-Length: " + text;
    var headers := before + [line] + after;
    LengthText(text, n);
    forall i | 0 <= i < |headers| ensures headers[i] == line || headers[i] in before + after {
    }
    forall l | l in before + after ensures !Names(l, "content-length") && !Names(l, "transfer-encoding") {
    }
    assert headers[|before|] == line;
    LengthReadsBack(first, headers, body, Some(n));
  }

  lemma LengthText(text: string, n: nat)
    requires Writes(text, n)
    ensures var line := "Content-Length: " + text;
            LengthLine(line, n) && Names(line, "content-length") && !Names(line, "transfer-encoding")
  {
    var line, name := "Content-Length: " + text, "Content-Length";
    WrittenIsSolid(text, n);
    hide Writes, Names;
    LengthName();
    assert line == name + ":" + (" " + text) == name + ":" + " " + text + "";
    NamedAs(name, " " + text, "content-length");
    NamedAs(name, " " + text, "transfer-encoding");
    assert Field(line, "content-length", text) by {
      hide Lower;
      assert Blanks(" ") && Blanks("");
    }
  }

  lemma LengthName()
    ensures Lower("Content-Length") == "content-length" && ':' !in "Content-Length"
  {
  }

  /** A line's name is what is ahead of its first colon. */
  lemma NamedAs(n: string, rest: string, name: string)
    requires ':' !in n
    ensures Names(n + ":" + rest, name) <==> Lower(n) == name
  {
    hide Lower;
    var line := n + ":" + rest;
    assert line[|n|] == ':' && line[..|n|] == n;
    IndexOfIs(line, ':', |n|);
    if Names(line, name) {
      var i :| 0 <= i < |line| && line[i] == ':' && ':' !in line[..i] && Lower(line[..i]) == name;
      IndexOfIs(line, ':', i);
    }
  }

  // ---------------------------------------------------------------------------------------
  // First lines
  // ---------------------------------------------------------------------------------------

  lemma SplitStep(word: string, rest: string)
    requires ' ' !in word
    ensures Split(word + " " + rest, ' ') == [word] + Split(rest, ' ')
  {
    var s := word + " " + rest;
    assert s[|word|] == ' ' && s[..|word|] == word && s[|word| + 1..] == rest;
    IndexOfIs(s, ' ', |word|);
  }

  lemma SplitLast(word: string)
    requires ' ' !in word
    ensures Split(word, ' ') == [word]
  {
  }

  lemma SplitNonempty(s: string)
    ensures |Split(s, ' ')| >= 1
  {
  }

  /** The first line of a message, whatever follows. */
  lemma FirstLineOf(first: string, headers: seq<string>, body: string)
    requires CleanHead(first, headers)
    ensures Lines(HeadStr(Head(first, headers) + body))[0] == first
  {
    hide Lines, HeadStr;
    JoinClean(headers);
    CutAtNul(Head(first, headers), body);
    var rest := JoinLines(headers) + CRLF + HeadStr(body);
    LinesStep(first, rest);
    assert Head(first, headers) + HeadStr(body) == first + CRLF + rest;
  }

  /** Three digits. */
  function ThreeDigits(a: nat, b: nat, c: nat): string
    requires a < 10 && b < 10 && c < 10
  {
    [DIGITS[a], DIGITS[b], DIGITS[c]]
  }

  lemma ThreeDigitsValue(a: nat, b: nat, c: nat)
    requires a < 10 && b < 10 && c < 10
    ensures Digits(ThreeDigits(a, b, c)) && DecimalValue(ThreeDigits(a, b, c)) == 100 * a + 10 * b + c
  {
    var x, y, z := [DIGITS[a]], [DIGITS[b]], [DIGITS[c]];
    LastDigit("", a);
    assert "" + x == x && DecimalValue("") == 0;
    hide DecimalValue, Digits;
    LastDigit(x, b);
    LastDigit(x + y, c);
    assert ThreeDigits(a, b, c) == x + y + z;
  }

  lemma NoSpaces(s: string)
    requires Digits(s)
    ensures ' ' !in s
  {
  }

  lemma ThreeDigitsRead(a: nat, b: nat, c: nat)
    requires a < 10 && b < 10 && c < 10
    ensures ParseU64(ThreeDigits(a, b, c)) == Some(100 * a + 10 * b + c) && ' ' !in ThreeDigits(a, b, c)
  {
    ThreeDigitsValue(a, b, c);
    assert |ThreeDigits(a, b, c)| == 3;
    hide DecimalValue, ParseU64, Digits, ThreeDigits;
    DigitsParse(ThreeDigits(a, b, c));
    NoSpaces(ThreeDigits(a, b, c));
  }

  /** `HTTP/1.1 204`, with or without a reason after it. */
  function StatusLine(minor: string, a: nat, b: nat, c: nat, reason: string): string
    requires a < 10 && b < 10 && c < 10
  {
    "HTTP/1." + minor + " " + ThreeDigits(a, b, c) + reason
  }

  lemma WordsFrom(code: string, reason: string)
    requires ' ' !in code && (reason != "" ==> reason[0] == ' ')
    ensures Split(code + reason, ' ')[0] == code
  {
    hide Split;
    if reason == "" {
      assert code + reason == code;
      SplitLast(code);
    } else {
      assert code + reason == code + " " + reason[1..];
      SplitStep(code, reason[1..]);
    }
  }

  lemma WordsOfStatus(minor: string, a: nat, b: nat, c: nat, reason: string)
    requires a < 10 && b < 10 && c < 10 && ' ' !in minor && (reason != "" ==> reason[0] == ' ')
    ensures var words := Split(StatusLine(minor, a, b, c, reason), ' ');
            |words| >= 2 && words[0] == "HTTP/1." + minor && words[1] == ThreeDigits(a, b, c)
  {
    hide Split, ThreeDigits, ParseU64;
    var version, code := "HTTP/1." + minor, ThreeDigits(a, b, c);
    VersionWord(minor);
    ThreeDigitsRead(a, b, c);
    WordsFrom(code, reason);
    SplitNonempty(code + reason);
    SplitStep(version, code + reason);
    assert StatusLine(minor, a, b, c, reason) == version + " " + (code + reason);
  }

  /** The status of a response is the number on its first line. */
  lemma StatusReadsBack(minor: string, a: nat, b: nat, c: nat, reason: string, headers: seq<string>, body: string)
    requires a < 10 && b < 10 && c < 10 && ' ' !in minor && (reason != "" ==> reason[0] == ' ')
    requires CleanHead(StatusLine(minor, a, b, c, reason), headers)
    ensures var n := 100 * a + 10 * b + c;
            ParseStatus(Head(StatusLine(minor, a, b, c, reason), headers) + body) == if 100 <= n <= 599 then Some(n) else None
  {
    hide Lines, HeadStr, Split, ParseU64, StatusLine, Head;
    FirstLineOf(StatusLine(minor, a, b, c, reason), headers, body);
    ThreeDigitsRead(a, b, c);
    WordsOfStatus(minor, a, b, c, reason);
    VersionWord(minor);
  }

  lemma VersionWord(minor: string)
    requires ' ' !in minor
    ensures ' ' !in "HTTP/1." + minor && StartsWith("HTTP/1." + minor, "HTTP/1.")
  {
  }

  /** Data that does not start as a response has no status. */
  lemma NotAResponse(data: string)
    requires !("HTTP/1." <= data)
    ensures ParseStatus(data).None?
  {
    var text := HeadStr(data);
    assert text <= data;
    LinesNonempty(text);
    var line := Lines(text)[0];
    assert line <= text;
    assert Split(line, ' ')[0] <= line;
  }

  /** A method: one to sixteen capital letters. */
  predicate Verb(v: string) { 1 <= |v| <= 16 && forall i :: 0 <= i < |v| ==> 'A' <= v[i] <= 'Z' }

  /** A request target: a path, and a query after the first question mark if there is one. */
  function Target(path: string, query: Option<string>): string {
    match query
    case None => path
    case Some(q) => path + "?" + q
  }

  function RequestLine(verb: string, path: string, query: Option<string>, minor: string): string {
    verb + " " + Target(path, query) + " HTTP/1." + minor
  }

  predicate PlainTarget(path: string, query: Option<string>) {
    ' ' !in path && '?' !in path && (query.Some? ==> ' ' !in query.value)
  }

  lemma ThreeWords(a: string, b: string, c: string)
    requires ' ' !in a && ' ' !in b && ' ' !in c
    ensures Split(a + " " + b + " " + c, ' ') == [a, b, c]
  {
    hide Split;
    assert a + " " + b + " " + c == a + " " + (b + " " + c);
    SplitStep(a, b + " " + c);
    SplitStep(b, c);
    SplitLast(c);
  }

  lemma WordsOfRequest(verb: string, path: string, query: Option<string>, minor: string)
    requires Verb(verb) && PlainTarget(path, query) && ' ' !in minor
    ensures Split(RequestLine(verb, path, query, minor), ' ') == [verb, Target(path, query), "HTTP/1." + minor]
  {
    hide Split, Target;
    VersionWord(minor);
    TargetSplits(path, query);
    ThreeWords(verb, Target(path, query), "HTTP/1." + minor);
    assert RequestLine(verb, path, query, minor) == verb + " " + Target(path, query) + " " + ("HTTP/1." + minor);
  }

  /** A request read back: its method, its path and query apart, and its Host. */
  lemma RequestReadsBack(verb: string, path: string, query: Option<string>, minor: string, headers: seq<string>, body: string,
                         host: Option<string>)
    requires Verb(verb) && PlainTarget(path, query) && ' ' !in minor
    requires CleanHead(RequestLine(verb, path, query, minor), headers) && Tells(headers, "host", host)
    ensures ParseRequest(Head(RequestLine(verb, path, query, minor), headers) + body)
         == Some(RequestHead(verb, path, query.GetOr(""), host))
  {
    hide Lines, HeadStr, Split, HeaderValue, Tells, CleanHead, Lower, RequestLine, Head, Target;
    var data := Head(RequestLine(verb, path, query, minor), headers) + body;
    FirstLineOf(RequestLine(verb, path, query, minor), headers, body);
    LowerNames();
    HeaderReadsBack(RequestLine(verb, path, query, minor), headers, body, "host", host);
    VersionWord(minor);
    TargetSplits(path, query);
    WordsOfRequest(verb, path, query, minor);
    assert HeaderValue(data, "host") == host;
  }

  /** Words with single spaces between them. */
  function Spaced(words: seq<string>): string
    requires words != []
  {
    if |words| == 1 then words[0] else words[0] + " " + Spaced(words[1..])
  }

  predicate Words(words: seq<string>) { words != [] && forall i :: 0 <= i < |words| ==> ' ' !in words[i] }

  lemma {:induction false} SpacedSplits(words: seq<string>)
    requires Words(words)
    ensures Split(Spaced(words), ' ') == words
  {
    hide Split;
    if |words| == 1 {
      SplitLast(words[0]);
    } else {
      SplitStep(words[0], Spaced(words[1..]));
      SpacedSplits(words[1..]);
    }
  }

  /** A first line is a request's exactly when it is three words, a method ahead and an HTTP/1 version behind. */
  lemma RequestExactly(words: seq<string>, headers: seq<string>, body: string)
    requires Words(words) && CleanHead(Spaced(words), headers)
    ensures ParseRequest(Head(Spaced(words), headers) + body).Some? <==>
            |words| == 3 && Verb(words[0]) && "HTTP/1." <= words[2]
  {
    hide Lines, HeadStr, Split, HeaderValue, CleanHead, Spaced, Head;
    FirstLineOf(Spaced(words), headers, body);
    SpacedSplits(words);
  }

  lemma TargetSplits(path: string, query: Option<string>)
    requires PlainTarget(path, query)
    ensures ' ' !in Target(path, query) && (query.None? ==> Target(path, query) == path)
    ensures SplitOnce(Target(path, query), '?') == match query case None => None case Some(q) => Some((path, q))
  {
    if query.Some? {
      var s := Target(path, query);
      assert s[|path|] == '?' && s[..|path|] == path && s[|path| + 1..] == query.value;
      IndexOfIs(s, '?', |path|);
    }
  }
}
