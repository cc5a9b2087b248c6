/**
  What a response head does to the op it answers, said of the text of the head: its status line, its header
  fields, and where it ends.
 */
module CorrelatorResponses {
  import opened Wrappers
  import opened HttpMessages
  import opened CorrelatorState
  import opened CorrelatorRuns
  import opened CorrelatorSlots
  import Http = HttpHead

  /** A response as a server writes it: version, three digits, reason, header lines, and what follows the blank line. */
  datatype ResponseText = ResponseText(minor: string, a: nat, b: nat, c: nat, reason: string, headers: seq<string>, rest: string)

  predicate Legal(m: ResponseText) {
    && m.a < 10 && m.b < 10 && m.c < 10
    && ' ' !in m.minor && (m.reason != "" ==> m.reason[0] == ' ')
    && Http.CleanHead(FirstLine(m), m.headers)
  }

  function FirstLine(m: ResponseText): string
  {
    if m.a < 10 && m.b < 10 && m.c < 10 then StatusLine(m.minor, m.a, m.b, m.c, m.reason) else ""
  }

  function HeadText(m: ResponseText): string { Http.Head(FirstLine(m), m.headers) }

  /** The captured data is that response: its status is `n`, its request id `id`, its declared length `d`. */
  ghost predicate ReadsAs(e: EvtTlsData, m: ResponseText, n: nat, id: Option<string>, d: Option<nat>) {
    && Legal(m) && e.data == HeadText(m) + m.rest
    && n == 100 * m.a + 10 * m.b + m.c
    && Tells(m.headers, "x-amz-request-id", id) && Declares(m.headers, d)
  }

  lemma HeadReadsBack(e: EvtTlsData, m: ResponseText, n: nat, id: Option<string>, d: Option<nat>)
    requires ReadsAs(e, m, n, id, d)
    ensures Http.ParseStatus(e.data) == if 100 <= n <= 599 then Some(n) else None
    ensures HeadOf(e, n) == FinalHead(n, id, d, Some(|HeadText(m)|), false)
  {
    hide Tells, Declares, Http.ContentLength, Http.HeaderValue, Http.HeaderEnd, Http.ParseStatus, Http.CleanHead, Http.Head,
      StatusLine, Lower;
    LowerNames();
    StatusReadsBack(m.minor, m.a, m.b, m.c, m.reason, m.headers, m.rest);
    HeaderReadsBack(FirstLine(m), m.headers, m.rest, "x-amz-request-id", id);
    LengthReadsBack(FirstLine(m), m.headers, m.rest, d);
    Http.HeaderEndOfMessage(FirstLine(m), m.headers, m.rest);
  }

  /** The read is the op's own: on a descriptor, or under its cookie where both have one. */
  predicate Own(op: OpenOp, e: EvtTlsData) {
    e.fd != 0 || e.cookie == 0 || op.cookie.None? || op.cookie == Some(e.cookie)
  }

  /** A response of `n` to such a request has no body to wait for, or none whose end can be told. */
  predicate Bodiless(verb: string, n: nat, d: Option<nat>) {
    d.None? || d == Some(0) || Lower(verb) == "head" || n == 204 || n == 304
  }

  lemma BodilessIs(op: OpenOp, h: FinalHead)
    requires h.headerEnd.Some?
    ensures ExpectsBody(Some(op), h) <==> !Bodiless(op.verb, h.status, h.contentLength)
  {
    assert Lower("HEAD") == "head";
  }

  /** The time from request to first response byte: the first interim's, else this read's; 0 reads as none. */
  predicate FirstByte(r: Operation, op: OpenOp, ts: nat) {
    var first := if op.interimTs.Some? then op.interimTs.value else ts;
    r.ttfbNs == if first > op.ts then Some(first - op.ts) else None
  }

  /** The record tells of its request, and of the response head. */
  predicate TellsHead(r: Operation, op: OpenOp, e: EvtTlsData, n: nat, id: Option<string>, d: Option<nat>) {
    && r.id == op.id && r.ts == op.ts && r.verb == op.verb && r.s3Op == op.s3Op && r.keyHash == op.keyHash
    && r.bytesSent == op.bytesSent && r.reqSeq == op.reqSeq && r.ambiguous == op.ambiguous
    && r.httpStatus == Some(n) && r.requestId == id && r.contentLength == d && r.bytesRecv == e.len
    && FirstByte(r, op, e.ts)
  }

  lemma BuildTells(s: State, k: Key, op: OpenOp, e: EvtTlsData, n: nat, id: Option<string>, d: Option<nat>, headerEnd: nat,
                   done: Option<nat>)
    ensures var r := BuildOp(s, k, op, FinalFacts(e, FinalHead(n, id, d, Some(headerEnd), false), done));
            && TellsHead(r, op, e, n, id, d)
            && (r.isPartial <==> OpConn(s, k, op).None? || op.headTruncated)
            && (done.None? ==> r.downloadNs.None? && r.totalNs.None?)
            && (done == Some(e.ts) ==> r.downloadNs == Some(0) && r.totalNs == Some(if e.ts > op.ts then e.ts - op.ts else 0))
  {
    hide DnsForIp, OpSniBucket, EndpointIp, OpConn, OpCookie;
  }

  lemma NotForeign(s: State, e: EvtTlsData, op: OpenOp)
    requires OpenAt(s, Key(e.tgid, e.fd)) == Some(op) && op.resp.None? && Own(op, e)
    ensures !Foreign(s, Key(e.tgid, e.fd), e.cookie) && !AwaitingBody(s, Key(e.tgid, e.fd))
  {
  }

  lemma SameConn(s: State, k: Key, ts: nat, op: OpenOp)
    ensures OpConn(Touch(s, k, ts), k, op) == OpConn(s, k, op)
  {
  }

  lemma FinalIs(s: State, e: EvtTlsData, op: OpenOp, h: FinalHead)
    requires OpenAt(s, Key(e.tgid, e.fd)) == Some(op)
    ensures var k := Key(e.tgid, e.fd);
            var (s', out) := Final(s, k, e, h);
            var s1 := Touch(s, k, e.ts);
            && OpenAt(s1, k) == Some(op) && k in s1.ops && k in s'.ops
            && (!ExpectsBody(Some(op), h) ==> OpenAt(s', k) == None && out == Some(BuildOp(s1, k, op, FinalFacts(e, h, None))))
            && (ExpectsBody(Some(op), h) ==>
                  var brought := SatSub(e.len, h.headerEnd.value);
                  if brought < h.contentLength.value then
                    out == None
                    && OpenAt(s', k) == Some(op.(resp := Some(
                         RespState(e.ts, h.status, h.requestId, e.len, h.truncated, h.contentLength.value, brought))))
                  else OpenAt(s', k) == None && out == Some(BuildOp(s1, k, op, FinalFacts(e, h, Some(e.ts)))))
  {
    hide BuildOp, FinalFacts, Http.SameIgnoringCase;
  }

  /**
    A final head with no body to wait for: the op is returned at once, with the status, the request id and the
    length of the head's own text, and no download or total time; its slot is left with nothing open.
   */
  lemma BodilessResponse(s: State, e: EvtTlsData, op: OpenOp, m: ResponseText, n: nat, id: Option<string>, d: Option<nat>)
    requires OpenAt(s, Key(e.tgid, e.fd)) == Some(op) && op.resp.None? && Own(op, e)
    requires ReadsAs(e, m, n, id, d) && 200 <= n <= 599 && Bodiless(op.verb, n, d)
    ensures var k, (s', out) := Key(e.tgid, e.fd), OnTlsRead(s, e);
            && k in s'.ops && s'.ops[k].open == None
            && out.Some? && TellsHead(out.value, op, e, n, id, d)
            && out.value.downloadNs == None && out.value.totalNs == None
            && (out.value.isPartial <==> OpConn(s, k, op).None? || op.headTruncated)
  {
    hide ReadsAs, HeadOf, Http.ParseStatus, Final, Foreign, AwaitingBody, Bodiless, ExpectsBody, BuildOp, FinalFacts, TellsHead,
      HeadText, Touch, OpConn;
    var k := Key(e.tgid, e.fd);
    HeadReadsBack(e, m, n, id, d);
    var h := HeadOf(e, n);
    NotForeign(s, e, op);
    BodilessIs(op, h);
    FinalIs(s, e, op, h);
    BuildTells(Touch(s, k, e.ts), k, op, e, n, id, d, |HeadText(m)|, None);
    SameConn(s, k, e.ts, op);
  }

  /**
    A final head with a body of known length: the bytes past the head are counted. Short of the length, the op
    waits, with the head's status, request id and length; otherwise it is returned complete.
   */
  lemma BodyResponse(s: State, e: EvtTlsData, op: OpenOp, m: ResponseText, n: nat, id: Option<string>, d: Option<nat>)
    requires OpenAt(s, Key(e.tgid, e.fd)) == Some(op) && op.resp.None? && Own(op, e)
    requires ReadsAs(e, m, n, id, d) && 200 <= n <= 599 && !Bodiless(op.verb, n, d)
    ensures var k, (s', out) := Key(e.tgid, e.fd), OnTlsRead(s, e);
            var brought := if e.len > |HeadText(m)| then e.len - |HeadText(m)| else 0;
            if brought < d.value then
              out == None && OpenAt(s', k) == Some(op.(resp := Some(RespState(e.ts, n, id, e.len, false, d.value, brought))))
            else
              && k in s'.ops && s'.ops[k].open == None
              && out.Some? && TellsHead(out.value, op, e, n, id, d)
              && out.value.downloadNs == Some(0) && out.value.totalNs == Some(if e.ts > op.ts then e.ts - op.ts else 0)
  {
    hide ReadsAs, HeadOf, Http.ParseStatus, Final, Foreign, AwaitingBody, Bodiless, ExpectsBody, BuildOp, FinalFacts, TellsHead,
      HeadText, Touch, OpConn;
    var k := Key(e.tgid, e.fd);
    HeadReadsBack(e, m, n, id, d);
    var h := HeadOf(e, n);
    NotForeign(s, e, op);
    BodilessIs(op, h);
    FinalIs(s, e, op, h);
    BuildTells(Touch(s, k, e.ts), k, op, e, n, id, d, |HeadText(m)|, Some(e.ts));
  }

  /** An interim head, 1xx: the op goes on waiting, and its first response byte was the first such head. */
  lemma InterimResponse(s: State, e: EvtTlsData, op: OpenOp, m: ResponseText, n: nat, id: Option<string>, d: Option<nat>)
    requires OpenAt(s, Key(e.tgid, e.fd)) == Some(op) && op.resp.None? && Own(op, e)
    requires ReadsAs(e, m, n, id, d) && 100 <= n <= 199
    ensures var k, (s', out) := Key(e.tgid, e.fd), OnTlsRead(s, e);
            out == None && OpenAt(s', k) == Some(op.(interimTs := if op.interimTs.Some? then op.interimTs else Some(e.ts)))
  {
    hide ReadsAs, HeadOf, Http.ParseStatus, Final, Foreign, AwaitingBody, Touch, SetOpen;
    var k := Key(e.tgid, e.fd);
    HeadReadsBack(e, m, n, id, d);
    NotForeign(s, e, op);
    TouchSlot(s, k, e.ts);
    SetOpenAt(Touch(s, k, e.ts), k, Some(op.(interimTs := op.interimTs.Or(Some(e.ts)))));
  }

  /** What does not start as a response, or has a number no status has, changes nothing for an op without one. */
  lemma NoResponse(s: State, e: EvtTlsData, op: OpenOp)
    requires OpenAt(s, Key(e.tgid, e.fd)) == Some(op) && op.resp.None? && Own(op, e)
    requires !("HTTP/1." <= e.data)
    ensures OnTlsRead(s, e) == (s, None)
  {
    hide Http.ParseStatus, Final, Foreign, AwaitingBody, HeadOf;
    NotForeign(s, e, op);
    NotAResponse(e.data);
  }
}
