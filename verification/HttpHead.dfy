/**
  HTTP message heads: the request line, the status line, the declared body length, and where the
  head ends and the body starts.
 */
module HttpHead {
  import opened Wrappers

  const CRLF: string := "\r\n"
  const BLANK: string := "\r\n\r\n"
  const MAX_CONTENT_LENGTH: nat := 5 * 0x100_0000_0000

  // ---------------------------------------------------------------------------------------
  // String searching
  // ---------------------------------------------------------------------------------------

  predicate MatchAt(s: string, i: nat, pat: string) {
    i + |pat| <= |s| && forall j :: 0 <= j < |pat| ==> s[i + j] == pat[j]
  }

  lemma Mismatch(s: string, i: nat, pat: string, j: nat)
    requires j < |pat| && (i + j < |s| ==> s[i + j] != pat[j])
    ensures !MatchAt(s, i, pat)
  {
  }

  lemma MatchShift(a: string, t: string, i: nat, pat: string)
    ensures MatchAt(a + t, |a| + i, pat) <==> MatchAt(t, i, pat)
  {
    var s := a + t;
    if MatchAt(s, |a| + i, pat) {
      forall j | 0 <= j < |pat| ensures t[i + j] == pat[j] {
        assert s[|a| + i + j] == pat[j];
      }
    }
  }

  /** The first occurrence of `pat` at or after `from`. */
  function Find(s: string, pat: string, from: nat): (r: Option<nat>)
    ensures r.Some? ==> from <= r.value && MatchAt(s, r.value, pat)
    ensures r.Some? ==> forall i :: from <= i < r.value ==> !MatchAt(s, i, pat)
    ensures r.None? ==> forall i :: from <= i <= |s| ==> !MatchAt(s, i, pat)
    decreases |s| - from
  {
    if from > |s| then None
    else if MatchAt(s, from, pat) then Some(from)
    else Find(s, pat, from + 1)
  }

  lemma FindIs(s: string, pat: string, r: nat)
    requires MatchAt(s, r, pat) && forall i :: 0 <= i < r ==> !MatchAt(s, i, pat)
    ensures Find(s, pat, 0) == Some(r)
  {
  }

  /** `str::split("\r\n")`. */
  function Lines(s: string): seq<string>
    decreases |s|
  {
    match Find(s, CRLF, 0)
    case None => [s]
    case Some(i) => [s[..i]] + Lines(s[i + 2..])
  }

  function IndexOf(s: string, c: char): (r: Option<nat>)
    ensures r.Some? ==> r.value < |s| && s[r.value] == c && c !in s[..r.value]
    ensures r.None? ==> c !in s
  {
    if s == "" then None
    else if s[0] == c then Some(0)
    else
      match IndexOf(s[1..], c)
      case None => None
      case Some(i) => assert s[..i + 1] == [s[0]] + s[1..][..i]; Some(i + 1)
  }

  /** `str::split_once`. */
  function SplitOnce(s: string, c: char): (r: Option<(string, string)>)
    ensures r.Some? ==> s == r.value.0 + [c] + r.value.1 && c !in r.value.0
    ensures r.None? ==> c !in s
  {
    match IndexOf(s, c)
    case None => None
    case Some(i) => Some((s[..i], s[i + 1..]))
  }

  /** `str::split(c)`. */
  function Split(s: string, c: char): seq<string>
    decreases |s|
  {
    match IndexOf(s, c)
    case None => [s]
    case Some(i) => [s[..i]] + Split(s[i + 1..], c)
  }

  predicate StartsWith(s: string, p: string) { p <= s }

  predicate EndsWith(s: string, p: string) { |p| <= |s| && s[|s| - |p|..] == p }

  predicate SameIgnoringCase(a: string, b: string) { Lower(a) == Lower(b) }

  predicate IsSpace(c: char) { c == ' ' || '\t' <= c <= '\r' }

  function TrimStart(s: string): string {
    if s != "" && IsSpace(s[0]) then TrimStart(s[1..]) else s
  }

  function TrimEnd(s: string): string {
    if s != "" && IsSpace(s[|s| - 1]) then TrimEnd(s[..|s| - 1]) else s
  }

  function Trim(s: string): string { TrimEnd(TrimStart(s)) }

  predicate Digits(s: string) { forall i :: 0 <= i < |s| ==> '0' <= s[i] <= '9' }

  function DecimalValue(s: string): nat
    requires Digits(s)
  {
    if s == "" then 0 else DecimalValue(s[..|s| - 1]) * 10 + (s[|s| - 1] - '0') as int
  }

  /** `str::parse::<u64>()`: an optional plus sign, then digits. */
  function ParseU64(s: string): Option<nat> {
    var d := if s != "" && s[0] == '+' then s[1..] else s;
    if d == "" || !Digits(d) || DecimalValue(d) > U64_MAX then None else Some(DecimalValue(d))
  }

  // ---------------------------------------------------------------------------------------
  // Heads
  // ---------------------------------------------------------------------------------------

  /** The captured bytes up to the first NUL. */
  function HeadStr(data: string): string {
    match IndexOf(data, '\0')
    case None => data
    case Some(i) => data[..i]
  }

  /** The lines before the first blank one. */
  function UntilBlank(lines: seq<string>): seq<string> {
    if lines == [] || lines[0] == "" then [] else [lines[0]] + UntilBlank(lines[1..])
  }

  /** The header lines: everything after the first line and before the blank one. */
  function HeaderLines(data: string): seq<string> {
    UntilBlank(Lines(HeadStr(data))[1..])
  }

  lemma LinesNonempty(s: string)
    ensures |Lines(s)| >= 1
  {
  }

  /** The value of a header line, if its name is `name`. */
  function FieldValue(line: string, name: string): Option<string> {
    match SplitOnce(line, ':')
    case None => None
    case Some((n, v)) => if SameIgnoringCase(n, name) then Some(v) else None
  }

  function FirstField(lines: seq<string>, name: string): Option<string> {
    if lines == [] then None
    else
      match FieldValue(lines[0], name)
      case Some(v) => Some(Trim(v))
      case None => FirstField(lines[1..], name)
  }

  function HeaderValue(data: string, name: string): Option<string> {
    FirstField(HeaderLines(data), name)
  }

  method HeaderValueLoop(data: string, name: string) returns (r: Option<string>)
    ensures r == HeaderValue(data, name)
  {
    hide Lines, HeadStr;
    LinesNonempty(HeadStr(data));
    var lines := Lines(HeadStr(data))[1..];
    var i := 0;
    while i < |lines|
      invariant 0 <= i <= |lines|
      invariant FirstField(UntilBlank(lines[i..]), name) == HeaderValue(data, name)
    {
      var line := lines[i];
      if line == "" { break; }
      assert UntilBlank(lines[i..]) == [line] + UntilBlank(lines[i + 1..]) by { assert lines[i..][1..] == lines[i + 1..]; }
      var kv := SplitOnce(line, ':');
      if kv.Some? && SameIgnoringCase(kv.value.0, name) { return Some(Trim(kv.value.1)); }
      i := i + 1;
    }
    return None;
  }

  datatype RequestHead = RequestHead(method_: string, path: string, query: string, host: Option<string>)

  /** A plausible method token: one to sixteen uppercase letters. */
  predicate IsToken(s: string) {
    1 <= |s| <= 16 && forall i :: 0 <= i < |s| ==> 'A' <= s[i] <= 'Z'
  }

  function ParseRequest(data: string): Option<RequestHead> {
    LinesNonempty(HeadStr(data));
    var parts := Split(Lines(HeadStr(data))[0], ' ');
    if |parts| != 3 || !IsToken(parts[0]) || !StartsWith(parts[2], "HTTP/1.") then None
    else
      var (path, query) := match SplitOnce(parts[1], '?') case Some((p, q)) => (p, q) case None => (parts[1], "");
      Some(RequestHead(parts[0], path, query, HeaderValue(data, "host")))
  }

  method ParseRequestHead(data: string) returns (r: Option<RequestHead>)
    ensures r == ParseRequest(data)
  {
    hide Lines, HeadStr, Split, HeaderValue;
    LinesNonempty(HeadStr(data));
    var parts := Split(Lines(HeadStr(data))[0], ' ');
    if |parts| < 3 || !IsToken(parts[0]) {
      return None;
    }
    if !StartsWith(parts[2], "HTTP/1.") || |parts| > 3 {
      return None;
    }
    var target := SplitOnce(parts[1], '?');
    var path, query := parts[1], "";
    if target.Some? {
      path, query := target.value.0, target.value.1;
    }
    var host := HeaderValueLoop(data, "host");
    return Some(RequestHead(parts[0], path, query, host));
  }

  function ParseStatus(data: string): (r: Option<nat>)
    ensures r.Some? ==> 100 <= r.value <= 599
  {
    LinesNonempty(HeadStr(data));
    var parts := Split(Lines(HeadStr(data))[0], ' ');
    if |parts| < 2 || !StartsWith(parts[0], "HTTP/1.") || |parts[1]| != 3 then None
    else
      match ParseU64(parts[1])
      case Some(c) => if 100 <= c <= 599 then Some(c) else None
      case None => None
  }

  /** Just past the blank line that ends the head. */
  function HeaderEnd(data: string): (r: Option<nat>)
    ensures r.Some? ==> 4 <= r.value <= |data|
  {
    match Find(data, BLANK, 0)
    case None => None
    case Some(i) => Some(i + 4)
  }

  // ---------------------------------------------------------------------------------------
  // The declared body length (section 6.3 of RFC 9112)
  // ---------------------------------------------------------------------------------------

  predicate IsTransferEncoding(line: string) { FieldValue(line, "transfer-encoding").Some? }

  predicate IsContentLength(line: string) { FieldValue(line, "content-length").Some? }

  /** What one Content-Length line declares, if it is a length an object can have. */
  function LineLength(line: string): Option<nat>
    requires IsContentLength(line)
  {
    match ParseU64(Trim(FieldValue(line, "content-length").value))
    case Some(n) => if n <= MAX_CONTENT_LENGTH then Some(n) else None
    case None => None
  }

  /**
    The framing rule: `n` is the body length exactly when no line names a transfer coding, some
    line is a Content-Length, and every Content-Length line says `n`.
   */
  ghost predicate Frames(lines: seq<string>, n: nat) {
    && (forall l :: l in lines ==> !IsTransferEncoding(l))
    && (exists l :: l in lines && IsContentLength(l))
    && (forall l :: l in lines && IsContentLength(l) ==> LineLength(l) == Some(n))
  }

  /** The scan over the header lines, `len` being the length met so far. */
  function ScanLength(lines: seq<string>, len: Option<nat>): Option<nat> {
    if lines == [] then len
    else if IsTransferEncoding(lines[0]) then None
    else if !IsContentLength(lines[0]) then ScanLength(lines[1..], len)
    else
      match LineLength(lines[0])
      case None => None
      case Some(n) => if len.Some? && len.value != n then None else ScanLength(lines[1..], Some(n))
  }

  function ContentLength(data: string): Option<nat> {
    ScanLength(HeaderLines(data), None)
  }

  lemma ReadsLength(line: string)
    requires IsContentLength(line)
    ensures var n := ParseU64(Trim(FieldValue(line, "content-length").value));
            LineLength(line) == if n == None || n.value > MAX_CONTENT_LENGTH then None else n
  {
  }

  method ContentLengthLoop(data: string) returns (r: Option<nat>)
    ensures r == ContentLength(data)
  {
    hide Lines, HeadStr, LineLength;
    LinesNonempty(HeadStr(data));
    var lines := Lines(HeadStr(data))[1..];
    var len: Option<nat> := None;
    var i := 0;
    while i < |lines|
      invariant 0 <= i <= |lines|
      invariant ScanLength(UntilBlank(lines[i..]), len) == ContentLength(data)
    {
      var line := lines[i];
      if line == "" { break; }
      assert UntilBlank(lines[i..]) == [line] + UntilBlank(lines[i + 1..]) by { assert lines[i..][1..] == lines[i + 1..]; }
      i := i + 1;
      var kv := SplitOnce(line, ':');
      if kv == None { continue; }
      var (name, value) := kv.value;
      if SameIgnoringCase(name, "transfer-encoding") { return None; }
      if SameIgnoringCase(name, "content-length") {
        var n := ParseU64(Trim(value));
        ReadsLength(line);
        if n == None || n.value > MAX_CONTENT_LENGTH { return None; }
        if len.Some? && len.value != n.value { return None; }
        len := n;
      }
    }
    return len;
  }

  lemma TwoNames(line: string)
    ensures !(IsTransferEncoding(line) && IsContentLength(line))
  {
    assert |Lower("transfer-encoding")| == 17;
    assert |Lower("content-length")| == 14;
  }

  lemma {:induction false} ScanMeaning(lines: seq<string>, len: Option<nat>, n: nat)
    ensures ScanLength(lines, len) == Some(n) <==>
            && (forall l :: l in lines ==> !IsTransferEncoding(l))
            && (forall l :: l in lines && IsContentLength(l) ==> LineLength(l) == Some(n))
            && (len == Some(n) || (len == None && exists l :: l in lines && IsContentLength(l)))
  {
    if lines != [] {
      var l, rest := lines[0], lines[1..];
      TwoNames(l);
      assert forall x :: x in lines <==> x == l || x in rest;
      if !IsTransferEncoding(l) {
        if !IsContentLength(l) {
          ScanMeaning(rest, len, n);
        } else if LineLength(l).Some? {
          ScanMeaning(rest, LineLength(l), n);
        }
      }
    }
  }

  /** The length the scan returns is the one the framing rule allows, and no other. */
  lemma ContentLengthFrames(data: string, n: nat)
    ensures ContentLength(data) == Some(n) <==> Frames(HeaderLines(data), n)
    ensures ContentLength(data) == Some(n) ==> n <= MAX_CONTENT_LENGTH
  {
    ScanMeaning(HeaderLines(data), None, n);
  }

  lemma ContentLengthBound(data: string)
    ensures ContentLength(data).Some? ==> ContentLength(data).value <= MAX_CONTENT_LENGTH
  {
    if ContentLength(data).Some? {
      ContentLengthFrames(data, ContentLength(data).value);
    }
  }

  lemma SameLines(a: seq<string>, b: seq<string>)
    requires multiset(a) == multiset(b)
    ensures forall l :: l in a <==> l in b
  {
    forall l ensures l in a <==> l in b {
      assert l in a <==> l in multiset(a);
      assert l in b <==> l in multiset(b);
    }
  }

  /** The order of the header lines does not matter. */
  lemma LengthOfPermutation(a: seq<string>, b: seq<string>)
    requires multiset(a) == multiset(b)
    ensures ScanLength(a, None) == ScanLength(b, None)
  {
    SameLines(a, b);
    if ScanLength(a, None).Some? {
      ScanMeaning(a, None, ScanLength(a, None).value);
      ScanMeaning(b, None, ScanLength(a, None).value);
    }
    if ScanLength(b, None).Some? {
      ScanMeaning(a, None, ScanLength(b, None).value);
      ScanMeaning(b, None, ScanLength(b, None).value);
    }
  }

  // ---------------------------------------------------------------------------------------
  // A composed message
  // ---------------------------------------------------------------------------------------

  /** A line as a sender writes it: no line feed and no NUL. */
  predicate CleanLine(l: string) { '\n' !in l && '\0' !in l }

  predicate CleanHead(first: string, headers: seq<string>) {
    CleanLine(first) && first != "" && forall i :: 0 <= i < |headers| ==> CleanLine(headers[i]) && headers[i] != ""
  }

  function JoinLines(ls: seq<string>): string {
    if ls == [] then "" else ls[0] + CRLF + JoinLines(ls[1..])
  }

  /** First line, header lines, blank line. */
  function Head(first: string, headers: seq<string>): string {
    first + CRLF + JoinLines(headers) + CRLF
  }

  /** A line ends at the first line feed. */
  lemma FindTerminator(l: string, rest: string)
    requires '\n' !in l
    ensures Find(l + CRLF + rest, CRLF, 0) == Some(|l|)
  {
    var s := l + CRLF + rest;
    assert MatchAt(s, |l|, CRLF);
    forall i | 0 <= i < |l| ensures !MatchAt(s, i, CRLF) {
      NoFeedInLine(l, rest, i);
      Mismatch(s, i, CRLF, 1);
    }
  }

  lemma NoFeedInLine(l: string, rest: string, i: nat)
    requires '\n' !in l && i < |l|
    ensures (l + CRLF + rest)[i + 1] != '\n'
  {
    var s := l + CRLF + rest;
    assert s[i + 1] == if i + 1 < |l| then l[i + 1] else '\r';
  }

  lemma LinesStep(l: string, rest: string)
    requires '\n' !in l
    ensures Lines(l + CRLF + rest) == [l] + Lines(rest)
  {
    FindTerminator(l, rest);
    var s := l + CRLF + rest;
    assert s[..|l|] == l && s[|l| + 2..] == rest;
  }

  lemma JoinStep(ls: seq<string>, tail: string)
    requires ls != []
    ensures JoinLines(ls) + tail == ls[0] + CRLF + (JoinLines(ls[1..]) + tail)
  {
  }

  lemma {:induction false} HeaderLinesOfBlock(headers: seq<string>, tail: string)
    requires forall i :: 0 <= i < |headers| ==> CleanLine(headers[i]) && headers[i] != ""
    requires UntilBlank(Lines(tail)) == []
    ensures UntilBlank(Lines(JoinLines(headers) + tail)) == headers
  {
    hide Lines;
    if headers == [] {
      assert JoinLines(headers) + tail == tail;
    } else {
      var rest := JoinLines(headers[1..]) + tail;
      HeaderLinesOfBlock(headers[1..], tail);
      JoinStep(headers, tail);
      LinesStep(headers[0], rest);
      BlockStep(headers[0], Lines(rest));
    }
  }

  lemma BlockStep(line: string, rest: seq<string>)
    requires line != ""
    ensures UntilBlank([line] + rest) == [line] + UntilBlank(rest)
  {
    assert ([line] + rest)[1..] == rest;
  }

  lemma {:induction false} IndexOfIs(s: string, c: char, i: nat)
    requires i < |s| && s[i] == c && c !in s[..i]
    ensures IndexOf(s, c) == Some(i)
  {
    if i > 0 {
      assert s[0] == s[..i][0];
      assert s[1..][..i - 1] == s[1..i];
      assert forall x :: x in s[1..i] ==> x in s[..i];
      IndexOfIs(s[1..], c, i - 1);
    }
  }

  lemma CutAtNul(head: string, body: string)
    requires '\0' !in head
    ensures HeadStr(head + body) == head + HeadStr(body)
  {
    var s := head + body;
    var b := IndexOf(body, '\0');
    if b == None {
      assert '\0' !in s;
    } else {
      var j := b.value;
      assert s[..|head| + j] == head + body[..j];
      IndexOfIs(s, '\0', |head| + j);
    }
  }

  lemma {:induction false} JoinClean(headers: seq<string>)
    requires forall i :: 0 <= i < |headers| ==> CleanLine(headers[i])
    ensures '\0' !in JoinLines(headers)
  {
    if headers != [] {
      JoinClean(headers[1..]);
    }
  }

  /** The header lines read back are the ones sent, whatever body bytes follow the head. */
  lemma HeaderLinesOfMessage(first: string, headers: seq<string>, body: string)
    requires CleanHead(first, headers)
    ensures HeaderLines(Head(first, headers) + body) == headers
  {
    hide Lines, HeadStr;
    JoinClean(headers);
    CutAtNul(Head(first, headers), body);
    var tail := CRLF + HeadStr(body);
    LinesStep("", HeadStr(body));
    assert "" + CRLF + HeadStr(body) == tail;
    HeaderLinesOfBlock(headers, tail);
    LinesStep(first, JoinLines(headers) + tail);
    assert Head(first, headers) + HeadStr(body) == first + CRLF + (JoinLines(headers) + tail);
    var lines := Lines(JoinLines(headers) + tail);
    assert ([first] + lines)[1..] == lines;
  }

  lemma {:induction false} FirstBlank(l: string, headers: seq<string>, tail: string)
    requires CleanHead(l, headers)
    requires |tail| >= 2 && tail[..2] == CRLF
    ensures Find(l + CRLF + (JoinLines(headers) + tail), BLANK, 0) == Some(|l| + |JoinLines(headers)|)
    decreases |headers|
  {
    hide Find, MatchAt;
    if headers == [] {
      assert JoinLines(headers) + tail == tail;
      BlankAfter(l, tail);
    } else {
      var m, later := headers[0], JoinLines(headers[1..]) + tail;
      FirstBlank(m, headers[1..], tail);
      FirstTwo(m, later);
      SkipLine(l, m + CRLF + later, |m| + |JoinLines(headers[1..])|);
      JoinStep(headers, tail);
    }
  }

  lemma BlankAfter(l: string, tail: string)
    requires CleanLine(l) && |tail| >= 2 && tail[..2] == CRLF
    ensures Find(l + CRLF + tail, BLANK, 0) == Some(|l|)
  {
    var s := l + CRLF + tail;
    NoBlankInLine(l, tail);
    assert tail[0] == tail[..2][0] && tail[1] == tail[..2][1];
    assert MatchAt(s, |l|, BLANK);
    FindIs(s, BLANK, |l|);
  }

  lemma FirstTwo(m: string, rest: string)
    requires m != "" && '\n' !in m
    ensures var t := m + CRLF + rest; |t| >= 2 && t[0] != '\n' && t[1] != '\n'
  {
    var t := m + CRLF + rest;
    assert t[0] == m[0];
    assert t[1] == if |m| > 1 then m[1] else '\r';
  }

  /** No blank line starts inside a nonempty line. */
  lemma NoBlankInLine(l: string, rest: string)
    requires '\n' !in l
    ensures forall i :: 0 <= i < |l| ==> !MatchAt(l + CRLF + rest, i, BLANK)
  {
    forall i | 0 <= i < |l| ensures !MatchAt(l + CRLF + rest, i, BLANK) {
      NoFeedInLine(l, rest, i);
      Mismatch(l + CRLF + rest, i, BLANK, 1);
    }
  }

  /** A nonempty line before `t` moves the first blank line of `t` by its length. */
  lemma SkipLine(l: string, t: string, at: nat)
    requires '\n' !in l && |t| >= 2 && t[0] != '\n' && t[1] != '\n'
    requires Find(t, BLANK, 0) == Some(at)
    ensures Find(l + CRLF + t, BLANK, 0) == Some(|l| + 2 + at)
  {
    hide MatchAt, Find;
    var s := l + CRLF + t;
    MatchShift(l + CRLF, t, at, BLANK);
    forall i | 0 <= i < |l| + 2 + at ensures !MatchAt(s, i, BLANK) {
      BeforeBlank(l, t, at, i);
    }
    FindIs(s, BLANK, |l| + 2 + at);
  }

  lemma BeforeBlank(l: string, t: string, at: nat, i: nat)
    requires '\n' !in l && |t| >= 2 && t[0] != '\n' && t[1] != '\n'
    requires Find(t, BLANK, 0) == Some(at) && i < |l| + 2 + at
    ensures !MatchAt(l + CRLF + t, i, BLANK)
  {
    var s, pat := l + CRLF + t, BLANK;
    if i < |l| {
      NoBlankInLine(l, t);
    } else if i == |l| {
      assert s[i + 3] == t[1];
      Mismatch(s, i, pat, 3);
    } else if i == |l| + 1 {
      Mismatch(s, i, pat, 0);
    } else {
      MatchShift(l + CRLF, t, i - (|l| + 2), pat);
    }
  }

  /** The body starts right after the head, whatever its bytes spell. */
  lemma HeaderEndOfMessage(first: string, headers: seq<string>, body: string)
    requires CleanHead(first, headers)
    ensures HeaderEnd(Head(first, headers) + body) == Some(|Head(first, headers)|)
  {
    FirstBlank(first, headers, CRLF + body);
    assert Head(first, headers) + body == first + CRLF + (JoinLines(headers) + (CRLF + body));
  }

  /**
    The length a whole message declares: a function of the set of its header lines, so neither
    their order, nor the first line, nor the body has a say.
   */
  lemma MessageLength(first: string, headers: seq<string>, body: string, n: nat)
    requires CleanHead(first, headers)
    ensures ContentLength(Head(first, headers) + body) == Some(n) <==> Frames(headers, n)
  {
    HeaderLinesOfMessage(first, headers, body);
    ContentLengthFrames(Head(first, headers) + body, n);
  }

  lemma ReorderedMessage(first: string, headers: seq<string>, body: string,
                         first': string, headers': seq<string>, body': string)
    requires CleanHead(first, headers) && CleanHead(first', headers')
    requires multiset(headers) == multiset(headers')
    ensures ContentLength(Head(first, headers) + body) == ContentLength(Head(first', headers') + body')
  {
    HeaderLinesOfMessage(first, headers, body);
    HeaderLinesOfMessage(first', headers', body');
    LengthOfPermutation(headers, headers');
  }
}
