/**
  DNS names and responses: the in-kernel query decoder, which runs over a scratch buffer that is
  never cleared, and the userspace decoder of the response. The two must come to the same name
  for one query, or the response is never joined to it.
 */
module DnsNames {
  import opened Wrappers

  const QNAME_MAX: nat := 255
  const DNS_SCRATCH_LEN: nat := 512
  const DNS_HDR_LEN: nat := 12
  const UDP_HDR_LEN: nat := 8
  const DNS_PAYLOAD_MAX: nat := 512
  const DECODE_BUDGET: nat := 256
  const LABEL_BUDGET: nat := 128
  const RECORD_BUDGET: nat := 64

  type Bytes = seq<byte>

  const DOT: byte := 46

  // ---------------------------------------------------------------------------------------
  // The in-kernel decoder
  // ---------------------------------------------------------------------------------------

  datatype Decoded = Decoded(name: Bytes, truncated: bool, end: nat)

  /** What the decoder makes of the bytes from `pos` on, with `left` characters of a label due. */
  function DecodeFrom(buf: Bytes, pos: nat, out: Bytes, left: nat, needDot: bool, budget: nat): Decoded
    decreases |buf| - pos
  {
    if budget == 0 || pos >= |buf| then Decoded(out, true, pos)
    else
      var b := buf[pos];
      if left == 0 then
        if b == 0 then Decoded(out, false, pos + 1)
        else if b >= 192 then Decoded(out, true, pos + 2)
        else if b > 63 then Decoded(out, true, pos + 1)
        else if !needDot then DecodeFrom(buf, pos + 1, out, b, true, budget - 1)
        else if |out| < QNAME_MAX then DecodeFrom(buf, pos + 1, out + [DOT], b, true, budget - 1)
        else Decoded(out, true, pos + 1)
      else if |out| < QNAME_MAX then DecodeFrom(buf, pos + 1, out + [b], left - 1, needDot, budget - 1)
      else Decoded(out, true, pos + 1)
  }

  function DecodeName(buf: Bytes, start: nat): Decoded {
    DecodeFrom(buf, start, [], 0, false, DECODE_BUDGET)
  }

  /**
    The decoder over the scratch buffer: its answer is a function of the `len` bytes copied in,
    so nothing a previous message left past them can surface.
   */
  method DnsDecodeName(buf: array<byte>, len: nat, start: nat, out: array<byte>)
    returns (end: nat, nameLen: nat, truncated: bool)
    requires buf.Length == DNS_SCRATCH_LEN && len <= DNS_SCRATCH_LEN
    requires out.Length == QNAME_MAX && out != buf
    modifies out
    ensures nameLen <= 255
    ensures Decoded(out[..nameLen], truncated, end) == DecodeName(buf[..len], start)
  {
    var pos: nat, olen: nat, left: nat := start, 0, 0;
    var needDot := false;
    truncated := true;
    ghost var data := buf[..len];
    var i := 0;
    while i < 256
      invariant 0 <= i <= 256 && olen <= QNAME_MAX && truncated
      invariant buf[..len] == data
      invariant DecodeFrom(data, pos, out[..olen], left, needDot, 256 - i) == DecodeName(data, start)
    {
      if pos >= len { break; }
      var b := buf[pos % DNS_SCRATCH_LEN];
      assert b == data[pos];
      pos := pos + 1;
      if left == 0 {
        if b == 0 { truncated := false; break; }
        if b >= 192 { pos := pos + 1; break; }
        if b > 63 { break; }
        left := b;
        if needDot {
          if olen < QNAME_MAX {
            out[olen] := DOT;
            olen := olen + 1;
            assert out[..olen] == out[..olen - 1] + [DOT];
          } else { break; }
        }
        needDot := true;
      } else {
        if olen < QNAME_MAX {
          out[olen] := b;
          olen := olen + 1;
          assert out[..olen] == out[..olen - 1] + [b];
        } else { break; }
        left := left - 1;
      }
      i := i + 1;
    }
    return pos, olen, truncated;
  }

  function Be16(buf: Bytes, off: nat): nat
    requires off + 1 < |buf|
  {
    (buf[off] as int) * 256 + buf[off + 1]
  }

  /** The query walk: a message without a question section names nothing. */
  function QueryWalk(buf: Bytes): Option<Decoded>
    requires |buf| >= DNS_HDR_LEN
  {
    if Be16(buf, 4) == 0 then None else Some(DecodeName(buf, DNS_HDR_LEN))
  }

  /** The query walk over the scratch buffer. */
  method DnsQueryWalk(buf: array<byte>, len: nat, out: array<byte>) returns (named: bool, nameLen: nat, truncated: bool)
    requires buf.Length == DNS_SCRATCH_LEN && DNS_HDR_LEN <= len <= DNS_SCRATCH_LEN
    requires out.Length == QNAME_MAX && out != buf
    modifies out
    ensures nameLen <= 255 && (named <==> QueryWalk(buf[..len]).Some?)
    ensures named ==> var d := QueryWalk(buf[..len]).value; out[..nameLen] == d.name && truncated == d.truncated
  {
    hide DecodeName;
    ghost var data := buf[..len];
    nameLen, truncated := 0, false;
    if buf[4] == 0 && buf[5] == 0 {
      return false, 0, false;
    }
    named := true;
    var end: nat;
    end, nameLen, truncated := DnsDecodeName(buf, len, DNS_HDR_LEN, out);
    assert buf[..len] == data;
  }

  /** How much of a received datagram may be copied: never past its end, never a partial header. */
  method DnsResponseCopyLen(udpLen: nat, avail: nat) returns (n: nat)
    ensures n != 0 <==> udpLen >= 20 && avail >= 12
    ensures n != 0 ==> 12 <= n <= avail && n <= udpLen - 8 && n <= 511 && (n == avail || n == udpLen - 8 || n == 511)
  {
    if udpLen < UDP_HDR_LEN + DNS_HDR_LEN {
      return 0;
    }
    n := udpLen - UDP_HDR_LEN;
    if n > DNS_PAYLOAD_MAX - 1 {
      n := DNS_PAYLOAD_MAX - 1;
    }
    n := n % DNS_PAYLOAD_MAX;
    if n > avail {
      n := avail;
    }
    if n < DNS_HDR_LEN {
      return 0;
    }
  }

  // ---------------------------------------------------------------------------------------
  // The userspace decoder
  // ---------------------------------------------------------------------------------------

  /** Bytes as text. Names are ASCII; a byte above 127 becomes a character no legal host has. */
  function Text(bs: Bytes): (s: string)
    ensures |s| == |bs|
  {
    seq(|bs|, i requires 0 <= i < |bs| => bs[i] as char)
  }

  predicate HostLegal(c: char) {
    'a' <= c <= 'z' || 'A' <= c <= 'Z' || '0' <= c <= '9' || c == '-' || c == '.' || c == '_'
  }

  /** A length-prefixed name field, canonicalized; `None` when empty or not a host name. */
  function QnameStr(buf: Bytes, len: nat): (r: Option<string>)
    ensures r.Some? ==> r.value != "" && forall i :: 0 <= i < |r.value| ==> HostLegal(r.value[i])
  {
    var n := if len < |buf| then len else |buf|;
    var s := Lower(TrimDots(Text(buf[..n])));
    if s == "" || exists i :: 0 <= i < |s| && !HostLegal(s[i]) then None else Some(s)
  }

  function SkipName(buf: Bytes, off: nat, budget: nat): Option<nat>
    decreases |buf| - off
  {
    if budget == 0 || off >= |buf| then None
    else if buf[off] == 0 then Some(off + 1)
    else if buf[off] >= 192 then Some(off + 2)
    else SkipName(buf, off + buf[off] + 1, budget - 1)
  }

  function ReadLabels(buf: Bytes, off: nat, out: Bytes, budget: nat): Option<Bytes>
    decreases |buf| - off
  {
    if budget == 0 then Some(out)
    else if off >= |buf| then None
    else if buf[off] == 0 || buf[off] >= 192 then Some(out)
    else if off + 1 + buf[off] > |buf| then None
    else
      ReadLabels(buf, off + 1 + buf[off],
                 (if out == [] then [] else out + [DOT]) + buf[off + 1..off + 1 + buf[off]], budget - 1)
  }

  /** The question's name as text; the bytes of a non-ASCII label are kept as they are. */
  function ReadQname(buf: Bytes, off: nat): Option<string> {
    match ReadLabels(buf, off, [], LABEL_BUDGET)
    case None => None
    case Some(s) => if s == [] then None else Some(Lower(Text(s)))
  }

  datatype IpAddr = V4(octets: Bytes) | V6(octets: Bytes)

  datatype Answer = Answer(ip: IpAddr, ttl: nat)

  /** A v4-mapped IPv6 address is IPv4 traffic. */
  function Normalize(v6: Bytes): IpAddr
    requires |v6| == 16
  {
    if v6[..10] == [0, 0, 0, 0, 0, 0, 0, 0, 0, 0] && v6[10] == 255 && v6[11] == 255 then V4(v6[12..]) else V6(v6)
  }

  function Be32(buf: Bytes, off: nat): nat
    requires off + 3 < |buf|
  {
    Be16(buf, off) * 65536 + Be16(buf, off + 2)
  }

  function SkipQuestions(p: Bytes, off: nat, n: nat): Option<nat>
    decreases n
  {
    if n == 0 then Some(off)
    else
      match SkipName(p, off, LABEL_BUDGET)
      case None => None
      case Some(o) => SkipQuestions(p, o + 4, n - 1)
  }

  /** The address a record carries, if it is an A or an AAAA. */
  function RecordAnswer(rtype: nat, ttl: nat, rdata: Bytes): seq<Answer> {
    if rtype == 1 && |rdata| == 4 then [Answer(V4(rdata), ttl)]
    else if rtype == 28 && |rdata| == 16 then [Answer(Normalize(rdata), ttl)]
    else []
  }

  datatype Found = Found(answers: seq<Answer>, next: nat)

  /** One answer record: what it contributes and where the next one starts. */
  function ReadRecord(p: Bytes, off: nat): Option<Found> {
    match SkipName(p, off, LABEL_BUDGET)
    case None => None
    case Some(o) =>
      if o + 10 > |p| || o + 10 + Be16(p, o + 8) > |p| then None
      else
        var end := o + 10 + Be16(p, o + 8);
        Some(Found(RecordAnswer(Be16(p, o), Be32(p, o + 4), p[o + 10..end]), end))
  }

  function ReadAnswers(p: Bytes, off: nat, n: nat): seq<Answer>
    decreases n
  {
    if n == 0 then []
    else
      match ReadRecord(p, off)
      case None => []
      case Some(f) => f.answers + ReadAnswers(p, f.next, n - 1)
  }

  datatype Response = Response(txnId: nat, qname: Option<string>, answers: seq<Answer>)

  function Bounded(n: nat): nat { if n < RECORD_BUDGET then n else RECORD_BUDGET }

  function ParseResponse(p: Bytes): Option<Response> {
    if |p| < DNS_HDR_LEN then None
    else
      var qdcount := Be16(p, 4);
      var qname := if qdcount >= 1 then ReadQname(p, DNS_HDR_LEN) else None;
      var answers :=
        match SkipQuestions(p, DNS_HDR_LEN, Bounded(qdcount))
        case None => []
        case Some(off) => ReadAnswers(p, off, Bounded(Be16(p, 6)));
      Some(Response(Be16(p, 0), qname, answers))
  }

  method SkipNameLoop(buf: Bytes, start: nat) returns (r: Option<nat>)
    ensures r == SkipName(buf, start, LABEL_BUDGET)
  {
    var off: nat := start;
    for i := 0 to LABEL_BUDGET
      invariant SkipName(buf, off, LABEL_BUDGET - i) == SkipName(buf, start, LABEL_BUDGET)
    {
      if off >= |buf| { return None; }
      var b := buf[off];
      if b == 0 { return Some(off + 1); }
      if b >= 192 { return Some(off + 2); }
      off := off + b + 1;
    }
    return None;
  }

  method ReadQnameLoop(buf: Bytes, start: nat) returns (r: Option<string>)
    ensures r == ReadQname(buf, start)
  {
    var off: nat, out: Bytes := start, [];
    var i := 0;
    while i < LABEL_BUDGET
      invariant 0 <= i <= LABEL_BUDGET
      invariant ReadLabels(buf, off, out, LABEL_BUDGET - i) == ReadLabels(buf, start, [], LABEL_BUDGET)
    {
      if off >= |buf| { return None; }
      var len := buf[off];
      if len == 0 || len >= 192 { break; }
      off := off + 1;
      if off + len > |buf| { return None; }
      var chars := buf[off..off + len];
      if out != [] {
        out := out + [DOT];
      }
      out := out + chars;
      off := off + len;
      i := i + 1;
    }
    if out == [] { return None; }
    return Some(Lower(Text(out)));
  }

  /** The question section: every name skipped, with its type and class. */
  method SkipQuestionsLoop(p: Bytes, qdcount: nat) returns (r: Option<nat>)
    ensures r == SkipQuestions(p, DNS_HDR_LEN, Bounded(qdcount))
  {
    var off: nat := DNS_HDR_LEN;
    for i := 0 to Bounded(qdcount)
      invariant SkipQuestions(p, off, Bounded(qdcount) - i) == SkipQuestions(p, DNS_HDR_LEN, Bounded(qdcount))
    {
      var o := SkipNameLoop(p, off);
      if o == None { return None; }
      off := o.value + 4;
    }
    return Some(off);
  }

  method ReadRecordStep(p: Bytes, start: nat) returns (r: Option<Found>)
    ensures r == ReadRecord(p, start)
  {
    var o := SkipNameLoop(p, start);
    if o == None { return None; }
    var off: nat := o.value;
    if off + 10 > |p| { return None; }
    var rtype, ttl, rdlen := Be16(p, off), Be32(p, off + 4), Be16(p, off + 8);
    off := off + 10;
    if off + rdlen > |p| { return None; }
    if rtype == 1 && rdlen == 4 {
      return Some(Found([Answer(V4(p[off..off + 4]), ttl)], off + rdlen));
    } else if rtype == 28 && rdlen == 16 {
      return Some(Found([Answer(Normalize(p[off..off + 16]), ttl)], off + rdlen));
    }
    return Some(Found([], off + rdlen));
  }

  /** The answer section, read until it ends or stops making sense. */
  method ReadAnswersLoop(p: Bytes, start: nat, ancount: nat) returns (answers: seq<Answer>)
    ensures answers == ReadAnswers(p, start, Bounded(ancount))
  {
    hide ReadRecord;
    answers := [];
    var off: nat := start;
    var left: nat := Bounded(ancount);
    ghost var whole := ReadAnswers(p, start, Bounded(ancount));
    while left > 0
      invariant answers + ReadAnswers(p, off, left) == whole
    {
      var r := ReadRecordStep(p, off);
      if r == None { break; }
      Regroup(answers, r.value.answers, ReadAnswers(p, r.value.next, left - 1));
      answers := answers + r.value.answers;
      off := r.value.next;
      left := left - 1;
    }
    assert answers + [] == answers;
  }

  lemma Regroup<T>(a: seq<T>, b: seq<T>, c: seq<T>)
    ensures a + (b + c) == (a + b) + c
  {
  }

  method ParseDnsResponse(p: Bytes) returns (r: Option<Response>)
    ensures r == ParseResponse(p)
  {
    if |p| < DNS_HDR_LEN { return None; }
    var txnId, qdcount, ancount := Be16(p, 0), Be16(p, 4), Be16(p, 6);
    var qname: Option<string> := None;
    if qdcount >= 1 {
      qname := ReadQnameLoop(p, DNS_HDR_LEN);
    }
    var off := SkipQuestionsLoop(p, qdcount);
    if off == None {
      return Some(Response(txnId, qname, []));
    }
    var answers := ReadAnswersLoop(p, off.value, ancount);
    return Some(Response(txnId, qname, answers));
  }

  // ---------------------------------------------------------------------------------------
  // Legal names on the wire (section 3.1 of RFC 1035)
  // ---------------------------------------------------------------------------------------

  /** Letters, digits, hyphen and underscore, by their codes. */
  predicate LabelByte(b: byte) {
    97 <= b <= 122 || 65 <= b <= 90 || 48 <= b <= 57 || b == 45 || b == 95
  }

  predicate LegalLabel(l: Bytes) {
    1 <= |l| <= 63 && forall i :: 0 <= i < |l| ==> LabelByte(l[i])
  }

  predicate LegalLabels(ls: seq<Bytes>) {
    forall i :: 0 <= i < |ls| ==> LegalLabel(ls[i])
  }

  function Wire(ls: seq<Bytes>): Bytes
    requires LegalLabels(ls)
  {
    if ls == [] then [0] else [|ls[0]|] + ls[0] + Wire(ls[1..])
  }

  predicate LegalName(ls: seq<Bytes>) {
    ls != [] && LegalLabels(ls) && |Wire(ls)| <= 255
  }

  /** What the labels `ls` add to a name already begun (`begun`) or not. */
  function Rest(ls: seq<Bytes>, begun: bool): Bytes {
    if ls == [] then [] else (if begun then [DOT] else []) + ls[0] + Rest(ls[1..], true)
  }

  /** Presentation form: the labels joined by dots. */
  function Dotted(ls: seq<Bytes>): Bytes { Rest(ls, false) }

  lemma {:induction false} RestLength(ls: seq<Bytes>, begun: bool)
    requires LegalLabels(ls)
    ensures |Rest(ls, begun)| == |Wire(ls)| - 1 - (if begun || ls == [] then 0 else 1)
    ensures |Wire(ls)| >= 1 + 2 * |ls|
  {
    if ls != [] {
      RestLength(ls[1..], true);
    }
  }

  /** The kernel loop consumes the `n` characters of a label one at a time. */
  lemma {:induction false} DecodeChars(buf: Bytes, pos: nat, out: Bytes, n: nat, needDot: bool, budget: nat)
    requires pos + n <= |buf| && |out| + n <= QNAME_MAX && n <= budget
    ensures DecodeFrom(buf, pos, out, n, needDot, budget)
         == DecodeFrom(buf, pos + n, out + buf[pos..pos + n], 0, needDot, budget - n)
    decreases n
  {
    if n == 0 {
      assert out + buf[pos..pos] == out;
    } else {
      DecodeChars(buf, pos + 1, out + [buf[pos]], n - 1, needDot, budget - 1);
      assert out + [buf[pos]] + buf[pos + 1..pos + n] == out + buf[pos..pos + n];
    }
  }

  /** `w` sits in `buf` at `pos`. */
  predicate At(buf: Bytes, pos: nat, w: Bytes) {
    pos + |w| <= |buf| && buf[pos..pos + |w|] == w
  }

  lemma AtSplit(buf: Bytes, pos: nat, a: Bytes, b: Bytes)
    requires At(buf, pos, a + b)
    ensures At(buf, pos, a) && At(buf, pos + |a|, b)
  {
    assert buf[pos..pos + |a|] == (a + b)[..|a|];
    assert buf[pos + |a|..pos + |a| + |b|] == (a + b)[|a|..];
  }

  /** The first label of an encoded name, taken apart. */
  lemma AtBytes(buf: Bytes, pos: nat, w: Bytes, i: nat)
    requires At(buf, pos, w) && i < |w|
    ensures pos + i < |buf| && buf[pos + i] == w[i]
  {
    assert buf[pos..pos + |w|][i] == buf[pos + i];
  }

  lemma AtLabel(buf: Bytes, pos: nat, l: Bytes, tail: Bytes)
    requires 1 <= |l| <= 63 && At(buf, pos, [|l| as byte] + l + tail)
    ensures pos + 1 + |l| + |tail| <= |buf|
    ensures buf[pos] == |l|
    ensures buf[pos + 1..pos + 1 + |l|] == l
    ensures At(buf, pos + 1 + |l|, tail)
  {
    var n: Bytes := [|l| as byte];
    AtSplit(buf, pos, n + l, tail);
    AtSplit(buf, pos, n, l);
    assert buf[pos] == buf[pos..pos + 1][0];
  }

  /** The separator and the label itself: what one label adds to a name. */
  function Joined(out: Bytes, begun: bool, l: Bytes): Bytes {
    (if begun then out + [DOT] else out) + l
  }

  lemma JoinedNonempty(out: Bytes, begun: bool, l: Bytes)
    requires l != []
    ensures Joined(out, begun, l) != []
  {
  }

  lemma JoinRest(out: Bytes, begun: bool, ls: seq<Bytes>)
    requires ls != []
    ensures Joined(out, begun, ls[0]) + Rest(ls[1..], true) == out + Rest(ls, begun)
  {
  }

  lemma DecodeLabel(buf: Bytes, pos: nat, out: Bytes, begun: bool, l: Bytes, tail: Bytes, budget: nat)
    requires 1 <= |l| <= 63 && At(buf, pos, [|l| as byte] + l + tail)
    requires |Joined(out, begun, l)| <= QNAME_MAX && 1 + |l| <= budget
    ensures DecodeFrom(buf, pos, out, 0, begun, budget)
         == DecodeFrom(buf, pos + 1 + |l|, Joined(out, begun, l), 0, true, budget - 1 - |l|)
  {
    AtLabel(buf, pos, l, tail);
    DecodeChars(buf, pos + 1, if begun then out + [DOT] else out, |l|, true, budget - 1);
  }

  lemma {:induction false} DecodeLabels(buf: Bytes, pos: nat, out: Bytes, begun: bool, ls: seq<Bytes>, budget: nat)
    requires LegalLabels(ls) && At(buf, pos, Wire(ls))
    requires |out| + |Rest(ls, begun)| <= QNAME_MAX && |Wire(ls)| <= budget
    ensures DecodeFrom(buf, pos, out, 0, begun, budget) == Decoded(out + Rest(ls, begun), false, pos + |Wire(ls)|)
    decreases |ls|
  {
    if ls == [] {
      assert out + [] == out;
      assert buf[pos] == buf[pos..pos + 1][0];
    } else {
      var l, out1 := ls[0], Joined(out, begun, ls[0]);
      JoinRest(out, begun, ls);
      AtLabel(buf, pos, l, Wire(ls[1..]));
      DecodeLabel(buf, pos, out, begun, l, Wire(ls[1..]), budget);
      DecodeLabels(buf, pos + 1 + |l|, out1, true, ls[1..], budget - 1 - |l|);
    }
  }

  /** A legal question is decoded whole, and the decoder lands just past it. */
  lemma KernelDecodesLegalName(buf: Bytes, pos: nat, ls: seq<Bytes>)
    requires LegalName(ls) && At(buf, pos, Wire(ls))
    ensures DecodeName(buf, pos) == Decoded(Dotted(ls), false, pos + |Wire(ls)|)
  {
    RestLength(ls, false);
    DecodeLabels(buf, pos, [], false, ls, DECODE_BUDGET);
    assert [] + Rest(ls, false) == Dotted(ls);
  }

  lemma {:induction false} SkipLabels(buf: Bytes, pos: nat, ls: seq<Bytes>, budget: nat)
    requires LegalLabels(ls) && At(buf, pos, Wire(ls)) && |ls| < budget
    ensures SkipName(buf, pos, budget) == Some(pos + |Wire(ls)|)
    decreases |ls|
  {
    if ls == [] {
      assert buf[pos] == buf[pos..pos + 1][0];
    } else {
      AtLabel(buf, pos, ls[0], Wire(ls[1..]));
      SkipLabels(buf, pos + 1 + |ls[0]|, ls[1..], budget - 1);
    }
  }

  lemma ReadLabel(buf: Bytes, pos: nat, out: Bytes, l: Bytes, tail: Bytes, budget: nat)
    requires 1 <= |l| <= 63 && At(buf, pos, [|l| as byte] + l + tail) && budget > 0
    ensures ReadLabels(buf, pos, out, budget) == ReadLabels(buf, pos + 1 + |l|, Joined(out, out != [], l), budget - 1)
  {
    AtLabel(buf, pos, l, tail);
    assert Joined(out, out != [], l) == (if out == [] then [] else out + [DOT]) + l;
  }

  lemma {:induction false} ReadWire(buf: Bytes, pos: nat, out: Bytes, ls: seq<Bytes>, budget: nat)
    requires LegalLabels(ls) && At(buf, pos, Wire(ls)) && |ls| < budget
    ensures ReadLabels(buf, pos, out, budget) == Some(out + Rest(ls, out != []))
    decreases |ls|
  {
    if ls == [] {
      assert out + [] == out;
      assert buf[pos] == buf[pos..pos + 1][0];
    } else {
      hide Joined, Rest, ReadLabels;
      var l, out1 := ls[0], Joined(out, out != [], ls[0]);
      assert out1 != [] by { JoinedNonempty(out, out != [], l); }
      JoinRest(out, out != [], ls);
      AtLabel(buf, pos, l, Wire(ls[1..]));
      ReadLabel(buf, pos, out, l, Wire(ls[1..]), budget);
      ReadWire(buf, pos + 1 + |l|, out1, ls[1..], budget - 1);
    }
  }

  /** Everything the two decoders say about one legal name, at any offset of any message. */
  lemma UserDecodesLegalName(buf: Bytes, pos: nat, ls: seq<Bytes>)
    requires LegalName(ls) && At(buf, pos, Wire(ls))
    ensures ReadQname(buf, pos) == Some(Lower(Text(Dotted(ls))))
    ensures SkipName(buf, pos, LABEL_BUDGET) == Some(pos + |Wire(ls)|)
    ensures SkipName(buf, pos, LABEL_BUDGET) == Some(DecodeName(buf, pos).end)
  {
    RestLength(ls, false);
    SkipLabels(buf, pos, ls, LABEL_BUDGET);
    KernelDecodesLegalName(buf, pos, ls);
    ReadWire(buf, pos, [], ls, LABEL_BUDGET);
    assert [] + Rest(ls, false) == Dotted(ls);
    hide At, Wire, Rest, Lower, Text, SkipName, ReadLabels, DecodeName, LegalLabels;
  }

  /** Presentation form is made of host characters and never ends in a dot. */
  lemma {:induction false} DottedIsHost(ls: seq<Bytes>, begun: bool)
    requires LegalLabels(ls)
    ensures var r := Rest(ls, begun);
            && (forall i :: 0 <= i < |r| ==> HostLegal(r[i] as char))
            && (r != [] ==> r[|r| - 1] != DOT)
    decreases |ls|
  {
    if ls != [] {
      DottedIsHost(ls[1..], true);
      var head, tail := (if begun then [DOT] else []) + ls[0], Rest(ls[1..], true);
      var r := Rest(ls, begun);
      assert r == head + tail;
      assert forall i :: 0 <= i < |head| ==> HostLegal(head[i] as char);
      assert r[|r| - 1] == if tail == [] then head[|head| - 1] else tail[|tail| - 1];
    }
  }

  lemma LowerLegal(c: char)
    requires HostLegal(c)
    ensures HostLegal(LowerChar(c))
  {
  }

  /** Canonicalizing a decoded legal name only lowers its case. */
  lemma QnameOfLegal(ls: seq<Bytes>, buf: Bytes, len: nat)
    requires LegalName(ls) && len <= |buf| && buf[..len] == Dotted(ls)
    ensures QnameStr(buf, len) == Some(Lower(Text(Dotted(ls))))
  {
    RestLength(ls, false);
    DottedIsHost(ls, false);
    var t := Text(Dotted(ls));
    assert t[|t| - 1] != '.';
    assert TrimDots(t) == t;
    forall i | 0 <= i < |t| ensures HostLegal(Lower(t)[i]) {
      LowerLegal(t[i]);
    }
  }

  /** A character no host name has: anything but letters, digits, hyphen, underscore and dot. */
  predicate Unfit(b: byte) { !LabelByte(b) && b != 46 }

  lemma {:induction false} TrimKeeps(s: string, i: nat)
    requires i < |s| && s[i] != '.'
    ensures i < |TrimDots(s)| && TrimDots(s)[i] == s[i]
  {
    if s[|s| - 1] == '.' {
      TrimKeeps(s[..|s| - 1], i);
    }
  }

  lemma {:induction false} TrimAll(s: string)
    requires forall i :: 0 <= i < |s| ==> s[i] == '.'
    ensures TrimDots(s) == ""
  {
    if s != "" {
      TrimAll(s[..|s| - 1]);
    }
  }

  lemma UnfitStays(b: byte)
    requires Unfit(b)
    ensures !HostLegal(LowerChar(b as char))
  {
  }

  /** What is no name: a field with an unfit character anywhere, or one of nothing but dots. */
  lemma NoName(buf: Bytes, len: nat)
    requires len <= |buf|
    requires (exists i :: 0 <= i < len && Unfit(buf[i])) || (forall i :: 0 <= i < len ==> buf[i] == 46)
    ensures QnameStr(buf, len) == None
  {
    hide Unfit, HostLegal, Lower, Text;
    assert forall j :: 0 <= j < |Text(buf[..len])| ==> Text(buf[..len])[j] == buf[j] as char by { TextAt(buf[..len]); }
    var t, s := Text(buf[..len]), Lower(TrimDots(Text(buf[..len])));
    if forall i :: 0 <= i < len ==> buf[i] == 46 {
      TrimAll(t);
      assert s == "";
    } else {
      var i :| 0 <= i < len && Unfit(buf[i]);
      assert buf[i] != 46 by { UnfitIsNoDot(buf[i]); }
      TrimKeeps(t, i);
      UnfitStays(buf[i]);
      LowerAt(TrimDots(t), i);
      assert i < |s| && !HostLegal(s[i]);
    }
  }

  lemma UnfitIsNoDot(b: byte)
    requires Unfit(b)
    ensures b != 46
  {
  }

  lemma TextAt(b: Bytes)
    ensures forall j :: 0 <= j < |b| ==> Text(b)[j] == b[j] as char
  {
  }

  lemma LowerAt(s: string, i: nat)
    requires i < |s|
    ensures Lower(s)[i] == LowerChar(s[i])
  {
  }

  /** Two spellings of one name: equal up to ASCII case (section 3 of RFC 4343). */
  ghost predicate SameName(a: seq<Bytes>, b: seq<Bytes>) {
    Lower(Text(Dotted(a))) == Lower(Text(Dotted(b)))
  }

  /**
    The join key agrees: for a query naming `asked` and a response echoing it, in whatever letter
    case, the name the kernel ships and userspace canonicalizes is the name userspace reads back
    out of the response.
   */
  lemma NamesAgree(query: Bytes, asked: seq<Bytes>, response: Bytes, echoed: seq<Bytes>)
    requires LegalName(asked) && LegalName(echoed) && SameName(asked, echoed)
    requires At(query, DNS_HDR_LEN, Wire(asked)) && At(response, DNS_HDR_LEN, Wire(echoed))
    requires Be16(query, 4) != 0
    ensures var d := QueryWalk(query);
            && d.Some? && !d.value.truncated
            && QnameStr(d.value.name, |d.value.name|).Some?
            && QnameStr(d.value.name, |d.value.name|) == ReadQname(response, DNS_HDR_LEN)
  {
    KernelDecodesLegalName(query, DNS_HDR_LEN, asked);
    UserDecodesLegalName(response, DNS_HDR_LEN, echoed);
    var d := DecodeName(query, DNS_HDR_LEN);
    assert d.name[..|d.name|] == d.name;
    QnameOfLegal(asked, d.name, |d.name|);
  }

  // ---------------------------------------------------------------------------------------
  // Clipped input
  // ---------------------------------------------------------------------------------------

  /** A name the kernel calls complete on a clipped message is the name of the whole message. */
  lemma {:induction false} DecodeOnPrefix(buf: Bytes, k: nat, pos: nat, out: Bytes, left: nat, needDot: bool,
                                          budget: nat)
    requires k <= |buf|
    requires !DecodeFrom(buf[..k], pos, out, left, needDot, budget).truncated
    ensures DecodeFrom(buf[..k], pos, out, left, needDot, budget) == DecodeFrom(buf, pos, out, left, needDot, budget)
    decreases budget
  {
    if budget != 0 && pos < k {
      var b := buf[pos];
      assert buf[..k][pos] == b;
      if left == 0 {
        if 0 < b <= 63 {
          DecodeOnPrefix(buf, k, pos + 1, if needDot then out + [DOT] else out, b, true, budget - 1);
        }
      } else {
        DecodeOnPrefix(buf, k, pos + 1, out + [b], left - 1, needDot, budget - 1);
      }
    }
  }

  lemma NameOnPrefix(buf: Bytes, k: nat, start: nat)
    requires k <= |buf| && !DecodeName(buf[..k], start).truncated
    ensures DecodeName(buf[..k], start) == DecodeName(buf, start)
  {
    DecodeOnPrefix(buf, k, start, [], 0, false, DECODE_BUDGET);
  }

  lemma {:induction false} SkipOnPrefix(buf: Bytes, k: nat, off: nat, budget: nat)
    requires k <= |buf| && SkipName(buf[..k], off, budget).Some?
    ensures SkipName(buf[..k], off, budget) == SkipName(buf, off, budget)
    decreases budget
  {
    if 0 < buf[..k][off] < 192 {
      SkipOnPrefix(buf, k, off + buf[off] + 1, budget - 1);
    }
  }

  lemma {:induction false} ReadOnPrefix(buf: Bytes, k: nat, off: nat, out: Bytes, budget: nat)
    requires k <= |buf| && ReadLabels(buf[..k], off, out, budget).Some?
    ensures ReadLabels(buf[..k], off, out, budget) == ReadLabels(buf, off, out, budget)
    decreases budget
  {
    if budget != 0 && 0 < buf[..k][off] < 192 {
      var n := buf[off];
      assert buf[..k][off + 1..off + 1 + n] == buf[off + 1..off + 1 + n];
      ReadOnPrefix(buf, k, off + 1 + n, (if out == [] then [] else out + [DOT]) + buf[off + 1..off + 1 + n], budget - 1);
    }
  }

  lemma {:induction false} QuestionsOnPrefix(buf: Bytes, k: nat, off: nat, n: nat)
    requires k <= |buf| && SkipQuestions(buf[..k], off, n).Some?
    ensures SkipQuestions(buf[..k], off, n) == SkipQuestions(buf, off, n)
    decreases n
  {
    if n != 0 {
      SkipOnPrefix(buf, k, off, LABEL_BUDGET);
      QuestionsOnPrefix(buf, k, SkipName(buf, off, LABEL_BUDGET).value + 4, n - 1);
    }
  }

  lemma SliceOfPrefix(buf: Bytes, k: nat, i: nat, j: nat)
    requires i <= j <= k <= |buf|
    ensures buf[..k][i..j] == buf[i..j]
  {
  }

  lemma FieldsOnPrefix(buf: Bytes, k: nat, o: nat)
    requires k <= |buf| && o + 10 <= k
    ensures Be16(buf[..k], o) == Be16(buf, o) && Be32(buf[..k], o + 4) == Be32(buf, o + 4) && Be16(buf[..k], o + 8) == Be16(buf, o + 8)
  {
  }

  lemma RecordOnPrefix(buf: Bytes, k: nat, off: nat)
    requires k <= |buf| && ReadRecord(buf[..k], off).Some?
    ensures ReadRecord(buf[..k], off) == ReadRecord(buf, off)
  {
    hide SkipName, RecordAnswer, Be16, Be32;
    var c := buf[..k];
    SkipOnPrefix(buf, k, off, LABEL_BUDGET);
    var o := SkipName(c, off, LABEL_BUDGET).value;
    FieldsOnPrefix(buf, k, o);
    SliceOfPrefix(buf, k, o + 10, o + 10 + Be16(c, o + 8));
  }

  lemma {:induction false} AnswersOnPrefix(buf: Bytes, k: nat, off: nat, n: nat)
    requires k <= |buf|
    ensures ReadAnswers(buf[..k], off, n) <= ReadAnswers(buf, off, n)
    decreases n
  {
    hide ReadRecord;
    if n != 0 && ReadRecord(buf[..k], off).Some? {
      RecordOnPrefix(buf, k, off);
      var f := ReadRecord(buf, off).value;
      AnswersOnPrefix(buf, k, f.next, n - 1);
      PrefixCons(f.answers, ReadAnswers(buf[..k], f.next, n - 1), ReadAnswers(buf, f.next, n - 1));
    }
  }

  lemma PrefixCons<T>(a: seq<T>, b: seq<T>, c: seq<T>)
    requires b <= c
    ensures a + b <= a + c
  {
    assert c == b + c[|b|..];
    assert a + c == (a + b) + c[|b|..];
  }

  /** Clipping any message can lose facts and never invents or changes one. */
  lemma ParseOnPrefix(p: Bytes, k: nat)
    requires k <= |p| && ParseResponse(p[..k]).Some?
    ensures ParseResponse(p).Some?
    ensures var part, whole := ParseResponse(p[..k]).value, ParseResponse(p).value;
            && part.txnId == whole.txnId
            && (part.qname.Some? ==> part.qname == whole.qname)
            && part.answers <= whole.answers
  {
    var c := p[..k];
    var qdcount := Be16(c, 4);
    assert Be16(p, 4) == qdcount && Be16(p, 0) == Be16(c, 0) && Be16(p, 6) == Be16(c, 6);
    if qdcount >= 1 && ReadLabels(c, DNS_HDR_LEN, [], LABEL_BUDGET).Some? {
      ReadOnPrefix(p, k, DNS_HDR_LEN, [], LABEL_BUDGET);
    }
    if SkipQuestions(c, DNS_HDR_LEN, Bounded(qdcount)).Some? {
      QuestionsOnPrefix(p, k, DNS_HDR_LEN, Bounded(qdcount));
      AnswersOnPrefix(p, k, SkipQuestions(p, DNS_HDR_LEN, Bounded(qdcount)).value, Bounded(Be16(p, 6)));
    }
  }

  // ---------------------------------------------------------------------------------------
  // Responses: encode, then parse
  // ---------------------------------------------------------------------------------------

  /** An owner name: labels, then either the root or a compression pointer. */
  datatype Owner = Owner(labels: seq<Bytes>, pointer: Option<(byte, byte)>)

  predicate LegalOwner(o: Owner) {
    LegalLabels(o.labels) && |o.labels| < 128 && (o.pointer.Some? ==> o.pointer.value.0 >= 192)
  }

  function OwnerWire(ls: seq<Bytes>, pointer: Option<(byte, byte)>): Bytes
    requires LegalLabels(ls)
  {
    if ls == [] then (if pointer.Some? then [pointer.value.0, pointer.value.1] else [0])
    else [|ls[0]|] + ls[0] + OwnerWire(ls[1..], pointer)
  }

  datatype Record = Record(owner: Owner, rtype: nat, rclass: nat, ttl: nat, rdata: Bytes)

  predicate LegalRecord(r: Record) {
    LegalOwner(r.owner) && r.rtype < 65536 && r.rclass < 65536 && r.ttl < 65536 * 65536 && |r.rdata| < 65536
  }

  function Enc16(n: nat): Bytes
    requires n < 65536
  {
    [n / 256, n % 256]
  }

  function Enc32(n: nat): Bytes
    requires n < 65536 * 65536
  {
    Enc16(n / 65536) + Enc16(n % 65536)
  }

  /** Type, class, ttl and rdata length. */
  function Fields(r: Record): (f: Bytes)
    requires LegalRecord(r)
    ensures |f| == 10
  {
    Enc16(r.rtype) + Enc16(r.rclass) + Enc32(r.ttl) + Enc16(|r.rdata|)
  }

  function RecordWire(r: Record): Bytes
    requires LegalRecord(r)
  {
    OwnerWire(r.owner.labels, r.owner.pointer) + (Fields(r) + r.rdata)
  }

  function RecordsWire(rs: seq<Record>): Bytes
    requires forall i :: 0 <= i < |rs| ==> LegalRecord(rs[i])
  {
    if rs == [] then [] else RecordWire(rs[0]) + RecordsWire(rs[1..])
  }

  /** The address a record is of: an A of four octets, or an AAAA of sixteen, `::ffff:a.b.c.d` being `a.b.c.d`. */
  function AddressOf(r: Record): seq<Answer> {
    var mapped: Bytes := [0, 0, 0, 0, 0, 0, 0, 0, 0, 0, 255, 255];
    if r.rtype == 1 && |r.rdata| == 4 then [Answer(V4(r.rdata), r.ttl)]
    else if r.rtype == 28 && |r.rdata| == 16 then
      [Answer(if mapped <= r.rdata then V4(r.rdata[12..]) else V6(r.rdata), r.ttl)]
    else []
  }

  /** The addresses of a record list, in order. */
  function Addresses(rs: seq<Record>): seq<Answer> {
    if rs == [] then [] else AddressOf(rs[0]) + Addresses(rs[1..])
  }

  lemma AddressRead(r: Record)
    ensures RecordAnswer(r.rtype, r.ttl, r.rdata) == AddressOf(r)
  {
    if |r.rdata| == 16 {
      var zeros: Bytes := [0, 0, 0, 0, 0, 0, 0, 0, 0, 0];
      assert r.rdata[..12] == r.rdata[..10] + [r.rdata[10], r.rdata[11]];
      assert zeros + [255, 255] == [0, 0, 0, 0, 0, 0, 0, 0, 0, 0, 255, 255];
    }
  }

  /** At most 64 records of a response are read. */
  function Foremost(rs: seq<Record>): seq<Record> { if |rs| <= 64 then rs else rs[..64] }

  datatype Message = Message(id: nat, flags: nat, question: seq<Bytes>, qtype: nat, qclass: nat, records: seq<Record>, rest: Bytes)

  predicate LegalMessage(m: Message) {
    && m.id < 65536 && m.flags < 65536 && m.qtype < 65536 && m.qclass < 65536
    && LegalName(m.question) && |m.records| < 65536
    && forall i :: 0 <= i < |m.records| ==> LegalRecord(m.records[i])
  }

  /** A response with one question, its answers, and whatever sections follow. */
  function MessageWire(m: Message): Bytes
    requires LegalMessage(m)
  {
    MessageHead(m) + (Wire(m.question) + (Enc16(m.qtype) + Enc16(m.qclass) + (RecordsWire(m.records) + m.rest)))
  }

  function MessageHead(m: Message): (h: Bytes)
    requires LegalMessage(m)
    ensures |h| == DNS_HDR_LEN
  {
    [m.id / 256, m.id % 256, m.flags / 256, m.flags % 256, 0, 1, |m.records| / 256, |m.records| % 256, 0, 0, 0, 0]
  }

  lemma {:induction false} SkipOwner(buf: Bytes, pos: nat, ls: seq<Bytes>, pointer: Option<(byte, byte)>, budget: nat)
    requires LegalLabels(ls) && |ls| < budget && (pointer.Some? ==> pointer.value.0 >= 192)
    requires At(buf, pos, OwnerWire(ls, pointer))
    ensures SkipName(buf, pos, budget) == Some(pos + |OwnerWire(ls, pointer)|)
    decreases |ls|
  {
    hide At;
    if ls == [] {
      AtBytes(buf, pos, OwnerWire(ls, pointer), 0);
    } else {
      AtLabel(buf, pos, ls[0], OwnerWire(ls[1..], pointer));
      SkipOwner(buf, pos + 1 + |ls[0]|, ls[1..], pointer, budget - 1);
    }
  }

  lemma Enc16Decodes(buf: Bytes, pos: nat, n: nat)
    requires n < 65536 && At(buf, pos, Enc16(n))
    ensures pos + 1 < |buf| && Be16(buf, pos) == n
  {
    AtBytes(buf, pos, Enc16(n), 0);
    AtBytes(buf, pos, Enc16(n), 1);
  }

  lemma Enc32Decodes(buf: Bytes, pos: nat, n: nat)
    requires n < 65536 * 65536 && At(buf, pos, Enc32(n))
    ensures pos + 3 < |buf| && Be32(buf, pos) == n
  {
    AtSplit(buf, pos, Enc16(n / 65536), Enc16(n % 65536));
    Enc16Decodes(buf, pos, n / 65536);
    Enc16Decodes(buf, pos + 2, n % 65536);
  }

  /** The fixed fields after an owner name, wherever they sit. */
  lemma FixedFields(buf: Bytes, pos: nat, r: Record)
    requires LegalRecord(r) && At(buf, pos, Fields(r))
    ensures pos + 10 <= |buf|
    ensures Be16(buf, pos) == r.rtype && Be32(buf, pos + 4) == r.ttl && Be16(buf, pos + 8) == |r.rdata|
  {
    var t, c, l, n := Enc16(r.rtype), Enc16(r.rclass), Enc32(r.ttl), Enc16(|r.rdata|);
    AtSplit(buf, pos, t + c + l, n);
    AtSplit(buf, pos, t + c, l);
    AtSplit(buf, pos, t, c);
    Enc16Decodes(buf, pos, r.rtype);
    Enc32Decodes(buf, pos + 4, r.ttl);
    Enc16Decodes(buf, pos + 8, |r.rdata|);
  }

  lemma ReadOneRecord(buf: Bytes, pos: nat, r: Record)
    requires LegalRecord(r) && At(buf, pos, RecordWire(r))
    ensures ReadRecord(buf, pos) == Some(Found(AddressOf(r), pos + |RecordWire(r)|))
  {
    AddressRead(r);
    hide AddressOf, SkipName, RecordAnswer, Be16, Be32, OwnerWire, Fields;
    var o := OwnerWire(r.owner.labels, r.owner.pointer);
    AtSplit(buf, pos, o, Fields(r) + r.rdata);
    AtSplit(buf, pos + |o|, Fields(r), r.rdata);
    SkipOwner(buf, pos, r.owner.labels, r.owner.pointer, LABEL_BUDGET);
    FixedFields(buf, pos + |o|, r);
  }

  lemma {:induction false} ReadRecords(buf: Bytes, pos: nat, rs: seq<Record>, n: nat)
    requires forall i :: 0 <= i < |rs| ==> LegalRecord(rs[i])
    requires n <= |rs| && At(buf, pos, RecordsWire(rs))
    ensures ReadAnswers(buf, pos, n) == Addresses(rs[..n])
    decreases |rs|
  {
    hide ReadRecord, AddressOf, RecordWire;
    if n != 0 {
      var r := rs[0];
      AtSplit(buf, pos, RecordWire(r), RecordsWire(rs[1..]));
      ReadOneRecord(buf, pos, r);
      ReadRecords(buf, pos + |RecordWire(r)|, rs[1..], n - 1);
      assert rs[1..][..n - 1] == rs[..n][1..];
    }
  }

  /** Where each section of an encoded message sits. */
  lemma Sections(m: Message)
    requires LegalMessage(m)
    ensures var p, q := MessageWire(m), |Wire(m.question)|;
            && At(p, DNS_HDR_LEN, Wire(m.question))
            && At(p, DNS_HDR_LEN + q + 4, RecordsWire(m.records))
  {
    hide At;
    var h, q, t, a := MessageHead(m), Wire(m.question), Enc16(m.qtype) + Enc16(m.qclass), RecordsWire(m.records);
    var p := MessageWire(m);
    assert |t| == 4 && p == h + (q + (t + (a + m.rest)));
    hide Wire, RecordsWire, MessageHead, LegalMessage, MessageWire, Enc16;
    AtWhole(p);
    SplitSections(p, h, q, t, a, m.rest);
  }

  lemma SplitSections(p: Bytes, h: Bytes, q: Bytes, t: Bytes, a: Bytes, rest: Bytes)
    requires |h| == DNS_HDR_LEN && |t| == 4 && At(p, 0, h + (q + (t + (a + rest))))
    ensures At(p, DNS_HDR_LEN, q) && At(p, DNS_HDR_LEN + |q| + 4, a)
  {
    hide At;
    AtSplit(p, 0, h, q + (t + (a + rest)));
    AtSplit(p, DNS_HDR_LEN, q, t + (a + rest));
    AtSplit(p, DNS_HDR_LEN + |q|, t, a + rest);
    AtSplit(p, DNS_HDR_LEN + |q| + 4, a, rest);
  }

  lemma OneQuestion(p: Bytes, off: nat)
    requires SkipName(p, DNS_HDR_LEN, LABEL_BUDGET) == Some(off)
    ensures SkipQuestions(p, DNS_HDR_LEN, 1) == Some(off + 4)
  {
    hide SkipName;
    assert SkipQuestions(p, off + 4, 0) == Some(off + 4);
  }

  /** Parsing an encoded response returns exactly its id, its name, and its first 64 records' addresses. */
  lemma ResponseRoundTrip(m: Message)
    requires LegalMessage(m)
    ensures ParseResponse(MessageWire(m))
         == Some(Response(m.id, Some(Lower(Text(Dotted(m.question)))), Addresses(Foremost(m.records))))
  {
    hide ReadQname, ReadAnswers, DecodeName, Addresses, Lower, Text, Dotted, Wire, RecordsWire, SkipName,
      SkipQuestions, Be16,
      MessageHead, MessageWire, LegalLabels, LegalRecord, At;
    var p, q := MessageWire(m), |Wire(m.question)|;
    HeaderFields(m);
    Sections(m);
    UserDecodesLegalName(p, DNS_HDR_LEN, m.question);
    OneQuestion(p, DNS_HDR_LEN + q);
    ReadRecords(p, DNS_HDR_LEN + q + 4, m.records, Bounded(|m.records|));
    assert m.records[..Bounded(|m.records|)] == Foremost(m.records);
  }

  /** A clip at `k` keeps the first `j` of the records that start at `pos`, and cuts the next if there is one. */
  predicate Keeps(pos: nat, rs: seq<Record>, k: nat, j: nat)
    requires forall i :: 0 <= i < |rs| ==> LegalRecord(rs[i])
    requires j <= |rs|
  {
    pos + |RecordsWire(rs[..j])| <= k && (j < |rs| ==> k < pos + |RecordsWire(rs[..j])| + |RecordWire(rs[j])|)
  }

  lemma KeepsRest(pos: nat, rs: seq<Record>, k: nat, j: nat)
    requires forall i :: 0 <= i < |rs| ==> LegalRecord(rs[i])
    requires 0 < j <= |rs| && Keeps(pos, rs, k, j)
    ensures pos + |RecordWire(rs[0])| <= k && Keeps(pos + |RecordWire(rs[0])|, rs[1..], k, j - 1)
  {
    hide RecordWire;
    assert rs[..j][1..] == rs[1..][..j - 1];
    assert j < |rs| ==> rs[1..][j - 1] == rs[j];
  }

  lemma WithinClip(p: Bytes, k: nat, pos: nat, w: Bytes)
    requires At(p, pos, w) && pos + |w| <= k <= |p|
    ensures At(p[..k], pos, w)
  {
  }

  lemma CutRecord(p: Bytes, k: nat, pos: nat, r: Record)
    requires LegalRecord(r) && At(p, pos, RecordWire(r)) && k <= |p| && k < pos + |RecordWire(r)|
    ensures ReadRecord(p[..k], pos).None?
  {
    hide At, RecordWire, AddressOf, ReadRecord;
    if ReadRecord(p[..k], pos).Some? {
      RecordOnPrefix(p, k, pos);
      ReadOneRecord(p, pos, r);
      EndsWithin(p[..k], pos);
    }
  }

  lemma EndsWithin(p: Bytes, off: nat)
    requires ReadRecord(p, off).Some?
    ensures ReadRecord(p, off).value.next <= |p|
  {
  }

  lemma {:induction false} ReadKept(p: Bytes, k: nat, pos: nat, rs: seq<Record>, j: nat, n: nat)
    requires forall i :: 0 <= i < |rs| ==> LegalRecord(rs[i])
    requires At(p, pos, RecordsWire(rs)) && k <= |p| && j <= |rs| && n <= |rs| && Keeps(pos, rs, k, j)
    ensures ReadAnswers(p[..k], pos, n) == Addresses(rs[..if j < n then j else n])
    decreases |rs|
  {
    hide ReadRecord, AddressOf, RecordWire, At, Keeps;
    if n != 0 {
      var r := rs[0];
      AtSplit(p, pos, RecordWire(r), RecordsWire(rs[1..]));
      if j == 0 {
        CutFirst(pos, rs, k);
        CutRecord(p, k, pos, r);
      } else {
        KeepsRest(pos, rs, k, j);
        WithinClip(p, k, pos, RecordWire(r));
        ReadOneRecord(p[..k], pos, r);
        ReadKept(p, k, pos + |RecordWire(r)|, rs[1..], j - 1, n - 1);
        var m := if j < n then j else n;
        assert rs[1..][..m - 1] == rs[..m][1..];
      }
    }
  }

  lemma CutFirst(pos: nat, rs: seq<Record>, k: nat)
    requires forall i :: 0 <= i < |rs| ==> LegalRecord(rs[i])
    requires rs != [] && Keeps(pos, rs, k, 0)
    ensures k < pos + |RecordWire(rs[0])|
  {
  }

  /**
    A response clipped past its question tells its id and name still, and the addresses of exactly the records that
    survived the clip whole, 64 at most.
   */
  lemma ClippedRoundTrip(m: Message, k: nat, j: nat)
    requires LegalMessage(m) && 12 + |Wire(m.question)| + 4 <= k <= |MessageWire(m)|
    requires j <= |m.records| && Keeps(12 + |Wire(m.question)| + 4, m.records, k, j)
    ensures ParseResponse(MessageWire(m)[..k])
         == Some(Response(m.id, Some(Lower(Text(Dotted(m.question)))), Addresses(Foremost(m.records[..j]))))
  {
    hide ReadQname, ReadAnswers, DecodeName, Addresses, Lower, Text, Dotted, Wire, RecordsWire, SkipName,
      SkipQuestions, Be16,
      MessageHead, MessageWire, LegalLabels, LegalRecord, At, Keeps;
    var p, q := MessageWire(m), |Wire(m.question)|;
    var c := p[..k];
    HeaderFields(m);
    HeaderOnPrefix(p, k);
    Sections(m);
    WithinClip(p, k, DNS_HDR_LEN, Wire(m.question));
    UserDecodesLegalName(c, DNS_HDR_LEN, m.question);
    OneQuestion(c, DNS_HDR_LEN + q);
    var n := Bounded(|m.records|);
    ReadKept(p, k, DNS_HDR_LEN + q + 4, m.records, j, n);
    assert m.records[..if j < n then j else n] == Foremost(m.records[..j]);
  }

  lemma HeaderOnPrefix(p: Bytes, k: nat)
    requires DNS_HDR_LEN <= k <= |p|
    ensures Be16(p[..k], 0) == Be16(p, 0) && Be16(p[..k], 4) == Be16(p, 4) && Be16(p[..k], 6) == Be16(p, 6)
  {
  }

  lemma AtWhole(p: Bytes)
    ensures At(p, 0, p)
  {
  }

  lemma HeaderFields(m: Message)
    requires LegalMessage(m)
    ensures var p := MessageWire(m);
            |p| >= DNS_HDR_LEN && Be16(p, 0) == m.id && Be16(p, 4) == 1 && Be16(p, 6) == |m.records|
  {
    hide Wire, RecordsWire, LegalName, LegalRecord, Enc16;
  }
}
