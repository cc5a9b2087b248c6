/**
  What a request opens, said of its text: the method, the target and the Host it was sent with, and what was
  known of its connection.
 */
module CorrelatorRequests {
  import opened Wrappers
  import opened Eviction
  import opened HttpMessages
  import opened HttpTargets
  import opened CorrelatorState
  import opened CorrelatorRuns
  import opened CorrelatorSlots
  import Http = HttpHead
  import Resolve = HttpResolve

  /** A request as a client writes it; `rest` is what follows the blank line. */
  datatype RequestText = RequestText(verb: string, path: string, query: Option<seq<Param>>, minor: string, headers: seq<string>,
                                     rest: string)

  function Params(m: RequestText): seq<Param> { m.query.GetOr([]) }

  function QueryPart(m: RequestText): Option<string> {
    match m.query
    case None => None
    case Some(ps) => Some(QueryText(ps))
  }

  function FirstLine(m: RequestText): string { RequestLine(m.verb, m.path, QueryPart(m), m.minor) }

  function Text(m: RequestText): string { Http.Head(FirstLine(m), m.headers) + m.rest }

  predicate Legal(m: RequestText) {
    && Verb(m.verb) && PlainTarget(m.path, QueryPart(m)) && ' ' !in m.minor
    && (forall i :: 0 <= i < |Params(m)| ==> PlainParam(Params(m)[i]))
    && Http.CleanHead(FirstLine(m), m.headers)
  }

  lemma RequestParsed(m: RequestText, host: Option<string>)
    requires Legal(m) && Tells(m.headers, "host", host)
    ensures Http.ParseRequest(Text(m)) == Some(Http.RequestHead(m.verb, m.path, QueryText(Params(m)), host))
    ensures Http.HeaderEnd(Text(m)).Some?
  {
    hide Tells, Http.CleanHead, Http.ParseRequest, Http.HeaderEnd, Http.Head, RequestLine, PlainTarget, PlainParam;
    RequestReadsBack(m.verb, m.path, QueryPart(m), m.minor, m.headers, m.rest, host);
    Http.HeaderEndOfMessage(FirstLine(m), m.headers, m.rest);
  }

  /** The cookie a request came with: the kernel's, where the descriptor could not be told. */
  function OwnCookie(e: EvtTlsData): Option<Cookie> {
    if e.fd == 0 && e.cookie != 0 then Some(e.cookie) else None
  }

  /** The name the handshake of its connection asked for, as far as is known. */
  function KnownName(s: State, e: EvtTlsData): Option<string> {
    var k := Key(e.tgid, e.fd);
    if OwnCookie(e).Some? then (if e.cookie in s.tls then Some(s.tls[e.cookie].sni) else None)
    else if k in s.fdLinks && s.fdLinks[k].cookie in s.tls then Some(s.tls[s.fdLinks[k].cookie].sni)
    else None
  }

  /** What the request names: by its Host, or without one by the known name; with neither, a path alone. */
  ghost predicate Wants(host: Option<string>, endpoints: seq<string>, path: string, w: Wanted) {
    match host
    case None => NamedBy(NotS3, path, w)
    case Some(text) =>
      exists h: string, port: Option<string>, style: Style ::
        text == Authority(h, port) && PlainHost(h, port) && Styled(h, endpoints, style) && NamedBy(style, path, w)
  }

  /** The op carries the request's own facts. */
  predicate Carried(op: OpenOp, s: State, e: EvtTlsData, m: RequestText, w: Wanted) {
    && op.id == s.opCounter + 1 && op.ts == e.ts && op.verb == m.verb && op.bytesSent == e.len
    && op.bucket == w.bucket
    && op.keyHash == (if w.key == "" then None else Some(KeyHash(s.salt, w.key)))
    && (op.s3Op.Some? <==> w.s3) && (w.s3 ==> Asks(m.verb, w.key != "", Params(m), op.s3Op.value))
    && op.cookie == OwnCookie(e)
    && !op.headTruncated && op.interimTs.None? && op.resp.None?
  }

  lemma WantedIs(m: RequestText, host: Option<string>, endpoints: seq<string>, w: Wanted)
    requires Legal(m) && Wants(host, endpoints, m.path, w)
    ensures Resolves(Resolve.ResolveWith(m.verb, m.path, QueryText(Params(m)), host, endpoints), m.verb, Params(m), w)
  {
    hide Styled, NamedBy, PlainHost, Authority, Resolve.ResolveWith, Resolves, QueryText, PlainParam, Http.CleanHead, Verb, PlainTarget;
    if host.Some? {
      var h: string, port: Option<string>, style: Style :|
        host.value == Authority(h, port) && PlainHost(h, port) && Styled(h, endpoints, style) && NamedBy(style, m.path, w);
      TargetReadsBack(m.verb, m.path, Params(m), h, port, endpoints, style, w);
    } else {
      NotS3Path(m.path, w);
      NoHostReadsBack(m.verb, w.key, Params(m), endpoints);
    }
  }

  lemma NotS3Path(path: string, w: Wanted)
    requires NamedBy(NotS3, path, w)
    ensures path == "/" + w.key && w == Wanted(false, None, w.key)
  {
  }

  lemma OpOfText(s: State, e: EvtTlsData, m: RequestText, host: Option<string>, w: Wanted)
    requires Legal(m) && e.data == Text(m) && Tells(m.headers, "host", host)
    requires Wants(host.Or(KnownName(s, e)), s.endpoints, m.path, w)
    ensures Carried(NewOp(s, e, Http.RequestHead(m.verb, m.path, QueryText(Params(m)), host)), s, e, m, w)
  {
    hide Tells, Wants, Asks, Resolve.ResolveWith, QueryText, BioChanged, Legal, Http.HeaderEnd, Text;
    RequestParsed(m, host);
    WantedIs(m, host.Or(KnownName(s, e)), s.endpoints, w);
  }

  /**
    The op a composed request opens, in any state: its method and length; on an AWS or configured host the bucket and the
    salted digest of the key that host and path name, and the operation of its method and query; on any other no
    bucket and no operation, but the digest of its whole path.
   */
  lemma RequestOpens(s: State, e: EvtTlsData, m: RequestText, host: Option<string>, w: Wanted)
    requires Legal(m) && e.data == Text(m) && Tells(m.headers, "host", host)
    requires Wants(host.Or(KnownName(s, e)), s.endpoints, m.path, w)
    ensures var op := OpenAt(OnTlsWrite(s, e).0, Key(e.tgid, e.fd));
            op.Some? && Carried(op.value, s, e, m, w)
  {
    hide Tells, Wants, Carried, QueryText, Legal, Text, NewOp, OnTlsWrite, Http.ParseRequest, KnownName;
    RequestParsed(m, host);
    OpOfText(s, e, m, host, w);
    WriteOpens(s, e, Http.RequestHead(m.verb, m.path, QueryText(Params(m)), host));
  }

  // ---------------------------------------------------------------------------------------
  // What a request finds on its slot
  // ---------------------------------------------------------------------------------------

  /** The fallback slot was last used by another connection. */
  predicate TakenOver(slot: Slot, e: EvtTlsData) {
    OwnCookie(e).Some? && slot.lastBio.Some? && slot.lastBio != OwnCookie(e)
  }

  function FoundAt(s: State, k: Key): Slot { if k in s.ops then s.ops[k] else Slot(0, None, 0, None) }

  /**
    The record of an op cut short by the next request: with the head of its response if that had come, its body
    unfinished; else with no response at all, and doubtful, unless it was another connection that went silent.
   */
  predicate CutShort(r: Operation, op: OpenOp, taken: bool) {
    && r.id == op.id && r.ts == op.ts && r.verb == op.verb && r.keyHash == op.keyHash && r.bytesSent == op.bytesSent
    && r.downloadNs.None? && r.totalNs.None?
    && match op.resp
       case Some(head) =>
         r.httpStatus == Some(head.status) && r.requestId == head.requestId && r.bytesRecv == head.bytesRecv
         && r.contentLength == Some(head.bodyTarget) && r.ambiguous == op.ambiguous
       case None =>
         r.httpStatus.None? && r.requestId.None? && r.bytesRecv == 0 && r.contentLength.None? && r.ambiguous == (op.ambiguous || !taken)
  }

  /** The slot as the request leaves it. */
  predicate TakesSlot(found: Slot, left: Slot, e: EvtTlsData) {
    && left.open.Some? && left.lastTs == e.ts && left.nextSeq == left.open.value.reqSeq + 1
    && left.lastBio == (if OwnCookie(e).Some? then OwnCookie(e) else found.lastBio)
    && left.open.value.reqSeq == (if TakenOver(found, e) then 0 else found.nextSeq)
    && (left.open.value.ambiguous <==> found.open.Some? && found.open.value.resp.None? && !TakenOver(found, e))
  }

  lemma InterruptedTells(s: State, e: EvtTlsData)
    ensures var k, found := Key(e.tgid, e.fd), FoundAt(s, Key(e.tgid, e.fd));
            var out := Interrupted(s, k, BioCookie(e));
            (out.Some? <==> found.open.Some?) && (out.Some? ==> CutShort(out.value, found.open.value, TakenOver(found, e)))
  {
    hide DnsForIp, OpSniBucket, EndpointIp, OpConn, OpCookie;
  }

  lemma TakesItsSlot(s: State, e: EvtTlsData, req: Http.RequestHead)
    ensures var k := Key(e.tgid, e.fd); TakesSlot(FoundAt(s, k), Opened(s, e, req).ops[k], e)
  {
    hide ResolveRequest, HeadTruncated;
  }

  /**
    A request on a slot, in any state: an op still open there is returned, cut short; the new op is doubtful exactly if
    that one had no response and the connection is not known to have changed; it is numbered on from the slot, or
    from 0 when the connection has changed; and the slot is as fresh as the request.
   */
  lemma RequestInterrupts(s: State, e: EvtTlsData, m: RequestText, host: Option<string>)
    requires Legal(m) && e.data == Text(m) && Tells(m.headers, "host", host)
    ensures var k, (s', out) := Key(e.tgid, e.fd), OnTlsWrite(s, e);
            var found := FoundAt(s, k);
            && (out.Some? <==> found.open.Some?) && (out.Some? ==> CutShort(out.value, found.open.value, TakenOver(found, e)))
            && k in s'.ops && TakesSlot(found, s'.ops[k], e)
  {
    hide Tells, QueryText, Legal, Text, NewOp, Http.ParseRequest, CutShort, TakenOver, TakesSlot, FoundAt, Opened, OpenedSlot,
      Interrupted, BioCookie, SlotVictims, DropSlots;
    RequestParsed(m, host);
    var req := Http.RequestHead(m.verb, m.path, QueryText(Params(m)), host);
    InterruptedTells(s, e);
    TakesItsSlot(s, e, req);
    WriteOpens(s, e, req);
  }

  predicate BlankAt(d: string, i: nat) { i + 4 <= |d| && d[i..i + 4] == "\r\n\r\n" }

  lemma BlankIs(d: string, i: nat)
    ensures BlankAt(d, i) <==> Http.MatchAt(d, i, Http.BLANK)
  {
    if i + 4 <= |d| {
      assert d[i..i + 4][0] == d[i] && d[i..i + 4][1] == d[i + 1] && d[i..i + 4][2] == d[i + 2] && d[i..i + 4][3] == d[i + 3];
    }
  }

  /** A head counts as cut exactly when bytes were lost and what was captured has no blank line. */
  lemma HeadCut(e: EvtTlsData)
    ensures HeadTruncated(e) <==> e.overflow && !exists i: nat :: BlankAt(e.data, i)
  {
    hide BlankAt, Http.MatchAt;
    forall i: nat ensures BlankAt(e.data, i) <==> Http.MatchAt(e.data, i, Http.BLANK) {
      BlankIs(e.data, i);
    }
    forall i: nat | BlankAt(e.data, i) ensures i + 4 <= |e.data| {
      BlankWithin(e.data, i);
    }
  }

  lemma BlankWithin(d: string, i: nat)
    requires BlankAt(d, i)
    ensures i + 4 <= |d|
  {
  }

  /** What is no request opens nothing: it is counted, unless nothing was captured. */
  lemma NotARequest(s: State, e: EvtTlsData)
    requires Http.ParseRequest(e.data).None?
    ensures OnTlsWrite(s, e) == (s.(parseFailures := s.parseFailures + if e.data == "" then 0 else 1), None)
  {
    hide Http.ParseRequest;
  }
}
