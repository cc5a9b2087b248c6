/**
  A connection's first operation and the connection's own record. The first is emitted while the
  connection is open and the second when it closes, so they can differ by what was folded in between.
 */
module CorrelatorAgreement {
  import opened Wrappers
  import opened Eviction
  import opened CorrelatorState
  import opened CorrelatorRuns
  import opened CorrelatorAttribution
  import opened CorrelatorFacts
  import opened CorrelatorEmission
  import opened CorrelatorJoins
  import opened CorrelatorLookups
  import Dns = DnsNames
  import Http = HttpHead
  import Names = CorrelatorNames

  /** A resolver call for the answer's host that ended by the time the connection began. */
  predicate CallCounts(s: State, res: Resolution, connTs: nat) {
    res.hostname in s.gai && s.gai[res.hostname].ts <= connTs
  }

  /**
    What `s` and `t` know of `ip` makes one dns block: no answer in either, or answers alike in ttl and
    count, timed alike: both by calls of the same latency and origin, or both on the wire and the same.
   */
  predicate SameBlock(s: State, t: State, ip: Dns.IpAddr, connTs: nat) {
    && (ip in s.resolutions <==> ip in t.resolutions)
    && (ip in s.resolutions ==>
          var a, b := s.resolutions[ip], t.resolutions[ip];
          && a.ttl == b.ttl && a.nAnswers == b.nAnswers
          && (CallCounts(s, a, connTs) <==> CallCounts(t, b, connTs))
          && if CallCounts(s, a, connTs) then
               s.gai[a.hostname].latency == t.gai[b.hostname].latency && s.gai[a.hostname].cacheHit == t.gai[b.hostname].cacheHit
             else a.latency == b.latency)
  }

  lemma BlocksAgree(s: State, t: State, ip: Dns.IpAddr, connTs: nat)
    ensures DnsForIp(s, ip, connTs) == DnsForIp(t, ip, connTs) <==> SameBlock(s, t, ip, connTs)
  {
  }

  /** No connect and no close of `c` from the fold at `n` to the one at `m`. */
  predicate OneLife(evs: seq<Event>, c: Cookie, n: nat, m: nat) {
    forall j :: n <= j < m && j < |evs| ==> !Ends(evs[j], c)
  }

  lemma {:induction false} ConnKept(start: World, evs: seq<Event>, c: Cookie, n: nat, m: nat)
    requires Good(start.s) && n <= m <= |evs| && OneLife(evs, c, n, m)
    ensures var s, t := Ahead(start, evs, n), Ahead(start, evs, m);
            c in t.conns ==> c in s.conns && t.conns[c] == s.conns[c]
    decreases m - n
  {
    hide Good, After, Fold;
    if n < m {
      ConnKept(start, evs, c, n, m - 1);
      assert evs[..m] == evs[..m - 1] + [evs[m - 1]];
      GoodRun(start, evs[..m - 1]);
      NextState(start, evs[..m - 1], evs[m - 1]);
      FoldFollows(Ahead(start, evs, m - 1), evs[m - 1], c);
    }
  }

  /** The answers and the calls known are as they were. */
  predicate AnswersKept(s: State, t: State) { t.resolutions == s.resolutions && t.gai == s.gai }

  lemma FoldKeepsAnswers(s: State, ev: Event)
    requires Good(s) && !ev.DnsResponse? && !ev.Getaddrinfo?
    ensures AnswersKept(s, Fold(s, ev).0)
  {
    if ev.DnsQuery? {
      hide OnDnsQuery, Good;
      QueryFrame(s, ev.query, (0, 0));
    } else {
      hide Fold, Good;
      FoldKeepsLookups(s, ev);
    }
  }

  /** No answer and no resolver call is folded from `n` to `m`. */
  predicate NoNewNames(evs: seq<Event>, n: nat, m: nat) {
    forall j :: n <= j < m && j < |evs| ==> !evs[j].DnsResponse? && !evs[j].Getaddrinfo?
  }

  lemma {:induction false} NamesStay(start: World, evs: seq<Event>, n: nat, m: nat)
    requires Good(start.s) && n <= m <= |evs| && NoNewNames(evs, n, m)
    ensures AnswersKept(Ahead(start, evs, n), Ahead(start, evs, m))
    decreases m - n
  {
    hide Good, After, Fold;
    if n < m {
      NamesStay(start, evs, n, m - 1);
      assert evs[..m] == evs[..m - 1] + [evs[m - 1]];
      GoodRun(start, evs[..m - 1]);
      NextState(start, evs[..m - 1], evs[m - 1]);
      FoldKeepsAnswers(Ahead(start, evs, m - 1), evs[m - 1]);
    }
  }

  /** The two records, from the states they are built in. */
  lemma RecordsAgree(s: State, t: State, r: Operation, k: Key, op: OpenOp, cut: bool, e: EvtClose)
    requires Joined(s, r, k, op, cut) && op.reqSeq == 0 && r.sockCookie == e.cookie && e.cookie != 0
    requires e.cookie in t.conns ==> e.cookie in s.conns && t.conns[e.cookie] == s.conns[e.cookie]
    ensures Agree(s, t, r, ConnectionOf(t, e))
  {
    hide DnsForIp, EndpointIp, OpSniBucket, SameBlock;
    if e.cookie in t.conns {
      var conn := t.conns[e.cookie];
      BlocksAgree(s, t, EndpointIp(conn.family, conn.daddr), conn.ts);
    }
  }

  /**
    How a first op `r`, emitted in `s`, and its connection's record `rec`, made in `t`, compare. If the
    connection's facts were evicted, the record is partial and has no setup at all. Otherwise
    process and connect time are the same, but that a failed connect has no time on the record,
    and the dns blocks are the same exactly when the two states make one block of the endpoint.
   */
  predicate Agree(s: State, t: State, r: Operation, rec: Connection) {
    && rec.sockCookie == r.sockCookie
    && (rec.isPartial <==> r.sockCookie !in t.conns)
    && (rec.isPartial ==> rec.dns.None? && rec.tcpConnectNs.None?)
    && (!rec.isPartial ==>
          && rec.ip.Some? && rec.ts.Some?
          && r.pid == rec.pid
          && rec.tcpConnectNs == (if rec.connectFailed then None else r.tcpConnectNs)
          && (r.dns == rec.dns <==> SameBlock(s, t, rec.ip.value, rec.ts.value)))
  }

  /**
    Over any run: the first op emitted on a connection, by the fold at `n`, and the record made when the
    connection closes, at `m`, with no other connect or close of the address in between. If
    moreover no answer and no resolver call was folded in between, they agree on the dns block.
   */
  lemma FirstOpMatchesConnection(maxOpen: nat, endpoints: seq<string>, salt: string, evs: seq<Event>, r: Operation,
                                 n: nat, m: nat)
    requires n <= m < |evs| && EmittedAt(Ahead(Start(maxOpen, endpoints, salt), evs, n), evs[n], r)
    requires r.reqSeq == 0 && r.sockCookie != 0
    requires evs[m].Close? && evs[m].close.cookie == r.sockCookie && OneLife(evs, r.sockCookie, n, m)
    ensures var start := Start(maxOpen, endpoints, salt);
            var s, t := Ahead(start, evs, n), Ahead(start, evs, m);
            && Agree(s, t, r, ConnectionOf(t, evs[m].close))
            && (NoNewNames(evs, n, m) && r.sockCookie in t.conns ==> r.dns == ConnectionOf(t, evs[m].close).dns)
  {
    hide Start, After, Good, Attributed, OriginsTrue, Joined, EmittedAt, CutHead, OpOf, LinkIsLast, ConnectionOf,
      OneLife, NoNewNames;
    var start := Start(maxOpen, endpoints, salt);
    GoodAlways(maxOpen, endpoints, salt, evs[..n]);
    AlwaysAttributed(maxOpen, endpoints, salt, evs[..n]);
    AlwaysTrue(maxOpen, endpoints, salt, evs[..n]);
    StartsEmpty(maxOpen, endpoints, salt);
    var at := JoinsWhere(start, evs, r, n);
    ConnKept(start, evs, r.sockCookie, n, m);
    var s, t := Ahead(start, evs, n), Ahead(start, evs, m);
    RecordsAgree(s, t, r, WriteKey(evs[at]), OpOf(Ahead(start, evs, at), evs[at]), CutHead(s, evs[n]), evs[m].close);
    if NoNewNames(evs, n, m) {
      NamesStay(start, evs, n, m);
    }
  }

  lemma StartsEmpty(maxOpen: nat, endpoints: seq<string>, salt: string)
    ensures Good(Start(maxOpen, endpoints, salt).s) && Start(maxOpen, endpoints, salt).lastConn == map[]
  {
    GoodInit(maxOpen, endpoints, salt);
  }

  // ---------------------------------------------------------------------------------------
  // Where they part
  // ---------------------------------------------------------------------------------------

  /** The call is kept, as one for `host`. */
  predicate CallFor(g: EvtGetaddrinfo, host: string) {
    g.ret == 0 && !g.truncated && Dns.QnameStr(g.host, g.hostLen) == Some(host)
  }

  lemma CallStored(s: State, g: EvtGetaddrinfo, host: string)
    requires CallFor(g, host)
    ensures var t := OnGetaddrinfo(s, g); t == s.(gai := t.gai) && host in t.gai && t.gai[host].ts == g.ts
  {
    hide EvictOver, Dns.QnameStr, SawWire, GaiStamps, StrictTotal;
  }

  /** The query is kept, as one for `host`. */
  predicate QueryFor(q: EvtDnsQuery, host: string) {
    !q.truncated && Dns.QnameStr(q.qname, q.qnameLen) == Some(host)
  }

  lemma QueryStored(s: State, q: EvtDnsQuery, host: string)
    requires QueryFor(q, host)
    ensures var t := OnDnsQuery(s, q); t == s.(pendingDns := t.pendingDns) && Names.Awaits(t, (q.cookie, q.txnId), host)
  {
    hide EvictOver, Dns.QnameStr, QueryStamps, StrictTotal;
  }

  /** The response answers that query, with `ip` among its addresses. */
  predicate AnswerFor(d: EvtDnsResponse, q: EvtDnsQuery, host: string, ip: Dns.IpAddr) {
    var p := Dns.ParseResponse(d.payload);
    p.Some? && p.value.qname == Some(host) && p.value.txnId == q.txnId && d.cookie == q.cookie
    && exists i :: 0 <= i < |p.value.answers| && p.value.answers[i].ip == ip
  }

  lemma AnswerStored(s: State, d: EvtDnsResponse, q: EvtDnsQuery, host: string, ip: Dns.IpAddr)
    requires Good(s) && AnswerFor(d, q, host, ip) && Names.Awaits(s, (q.cookie, q.txnId), host)
    ensures var t := OnDnsResponse(s, d);
            t == s.(pendingDns := t.pendingDns, resolutions := t.resolutions)
            && ip in t.resolutions && t.resolutions[ip].hostname == host
  {
    Names.Joined(s, d, Dns.ParseResponse(d.payload).value);
    hide EvictOver, Dns.ParseResponse, Record, ResolutionStamps, AnswerIps, Good;
  }

  /** `ip` is known to be `host`'s, by a call at `ts`, and nothing else is known. */
  predicate Resolved(s: State, host: string, ip: Dns.IpAddr, ts: nat) {
    && ip in s.resolutions && s.resolutions[ip].hostname == host
    && host in s.gai && s.gai[host].ts == ts
    && s.conns == map[] && s.tls == map[] && s.fdRev == map[] && s.ops == map[]
  }

  lemma CallStep(w: World, run: seq<Event>, g: EvtGetaddrinfo, host: string)
    requires CallFor(g, host)
    ensures var v, u := After(w, run), After(w, run + [Getaddrinfo(g)]);
            && u.s == v.s.(gai := u.s.gai) && host in u.s.gai && u.s.gai[host].ts == g.ts
            && u.returned == v.returned
  {
    hide OnGetaddrinfo, After, CallFor;
    NextState(w, run, Getaddrinfo(g));
    NextReturned(w, run, Getaddrinfo(g));
    CallStored(After(w, run).s, g, host);
  }

  lemma QueryStep(w: World, run: seq<Event>, q: EvtDnsQuery, host: string)
    requires QueryFor(q, host)
    ensures var v, u := After(w, run), After(w, run + [DnsQuery(q)]);
            && u.s == v.s.(pendingDns := u.s.pendingDns) && Names.Awaits(u.s, (q.cookie, q.txnId), host)
            && u.returned == v.returned
  {
    hide OnDnsQuery, After, QueryFor, Names.Awaits;
    NextState(w, run, DnsQuery(q));
    NextReturned(w, run, DnsQuery(q));
    QueryStored(After(w, run).s, q, host);
  }

  lemma AnswerStep(w: World, run: seq<Event>, d: EvtDnsResponse, q: EvtDnsQuery, host: string, ip: Dns.IpAddr)
    requires Good(w.s) && AnswerFor(d, q, host, ip) && Names.Awaits(After(w, run).s, (q.cookie, q.txnId), host)
    ensures var v, u := After(w, run), After(w, run + [DnsResponse(d)]);
            && u.s == v.s.(pendingDns := u.s.pendingDns, resolutions := u.s.resolutions)
            && ip in u.s.resolutions && u.s.resolutions[ip].hostname == host
            && u.returned == v.returned
  {
    hide OnDnsResponse, After, AnswerFor, Names.Awaits, Good;
    GoodRun(w, run);
    NextState(w, run, DnsResponse(d));
    NextReturned(w, run, DnsResponse(d));
    AnswerStored(After(w, run).s, d, q, host, ip);
  }

  lemma Resolving(maxOpen: nat, endpoints: seq<string>, salt: string, g: EvtGetaddrinfo, q: EvtDnsQuery,
                  d: EvtDnsResponse,
                  host: string, ip: Dns.IpAddr)
    requires CallFor(g, host) && QueryFor(q, host) && AnswerFor(d, q, host, ip)
    ensures var w := After(Start(maxOpen, endpoints, salt), [Getaddrinfo(g), DnsQuery(q), DnsResponse(d)]);
            Resolved(w.s, host, ip, g.ts) && w.returned == []
  {
    hide Good, After, CallFor, QueryFor, AnswerFor, Names.Awaits;
    var start, one, two := Start(maxOpen, endpoints, salt), [Getaddrinfo(g)], [Getaddrinfo(g), DnsQuery(q)];
    assert [] + [Getaddrinfo(g)] == one && one + [DnsQuery(q)] == two;
    assert two + [DnsResponse(d)] == [Getaddrinfo(g), DnsQuery(q), DnsResponse(d)];
    Nothing(start);
    StartsEmpty(maxOpen, endpoints, salt);
    CallStep(start, [], g, host);
    QueryStep(start, one, q, host);
    AnswerStep(start, two, d, q, host, ip);
  }

  /** And then connected, under a conn_id of its own. */
  predicate Ready(s: State, host: string, ts: nat, e: EvtConnect, k: Key) {
    && s.conns == map[e.cookie := ConnOf(e)] && CookieForFd(s, k) == Some(e.cookie) && k !in s.ops
    && EndpointIp(e.family, e.daddr) in s.resolutions && s.resolutions[EndpointIp(e.family, e.daddr)].hostname == host
    && host in s.gai && s.gai[host].ts == ts
  }

  lemma GettingReady(w: World, run: seq<Event>, host: string, ts: nat, e: EvtConnect, id: EvtConnId)
    requires Good(w.s) && id.cookie == e.cookie && Resolved(After(w, run).s, host, EndpointIp(e.family, e.daddr), ts)
    ensures var w' := After(w, run + [Connect(e)] + [ConnId(id)]);
            Ready(w'.s, host, ts, e, Key(id.tgid, id.fd)) && w'.returned == After(w, run).returned
  {
    hide OnConnect, OnConnId, Good, After, CookieForFd, EndpointIp, ConnOf;
    ConnectFirst(After(w, run).s, e);
    NextState(w, run, Connect(e));
    NextReturned(w, run, Connect(e));
    GoodRun(w, run + [Connect(e)]);
    ConnIdFirst(After(w, run + [Connect(e)]).s, id);
    NextState(w, run + [Connect(e)], ConnId(id));
    NextReturned(w, run + [Connect(e)], ConnId(id));
  }

  /** The exchange leaves the facts alone; the later call replaces the one before the connect. */
  lemma LaterCall(w: World, run: seq<Event>, write: EvtTlsData, read: EvtTlsData, g: EvtGetaddrinfo, host: string)
    requires CallFor(g, host)
    ensures var s := After(w, run).s;
            var t := After(w, run + [TlsWrite(write)] + [TlsRead(read)] + [Getaddrinfo(g)]).s;
            t.conns == s.conns && t.resolutions == s.resolutions && host in t.gai && t.gai[host].ts == g.ts
  {
    hide OnTlsWrite, OnTlsRead, OnGetaddrinfo, CallFor, After;
    var s := After(w, run).s;
    NextState(w, run, TlsWrite(write));
    WriteKeeps(s, write);
    NextState(w, run + [TlsWrite(write)], TlsRead(read));
    ReadKeeps(OnTlsWrite(s, write).0, read);
    NextState(w, run + [TlsWrite(write)] + [TlsRead(read)], Getaddrinfo(g));
    CallStored(After(w, run + [TlsWrite(write)] + [TlsRead(read)]).s, g, host);
  }

  lemma TimedApart(s: State, t: State, host: string, ts: nat, e: EvtConnect, k: Key, op: OpenOp, r: Operation,
                   c: EvtClose)
    requires Ready(s, host, ts, e, k) && Joined(s, r, k, op, false) && op.cookie.None? && op.reqSeq == 0 && c.cookie == e.cookie
    requires t.conns == s.conns && t.resolutions == s.resolutions && host in t.gai
    requires ts <= SatSub(e.ts, e.latency) < t.gai[host].ts
    ensures r.sockCookie == e.cookie
    ensures var rec := ConnectionOf(t, c);
            r.dns.Some? && r.dns.value.viaGetaddrinfo && rec.dns.Some? && !rec.dns.value.viaGetaddrinfo
  {
    hide EndpointIp;
  }

  /**
    One resolver call in between is enough to part them. From the start: a call, a query and its answer
    for one host, a connect to an address answered, its conn_id, and an exchange; then a call for the same
    host again, and the close. The op is timed by the call before the connect, and the connection's
    record, that call overwritten by one too late to count, by the wire.
   */
  lemma LaterCallParts(maxOpen: nat, endpoints: seq<string>, salt: string, host: string, g: EvtGetaddrinfo,
                       q: EvtDnsQuery,
                       d: EvtDnsResponse, e: EvtConnect, id: EvtConnId, write: EvtTlsData, read: EvtTlsData,
                       later: EvtGetaddrinfo, c: EvtClose, pick: Option<Key>)
    returns (r: Operation)
    requires CallFor(g, host) && QueryFor(q, host) && AnswerFor(d, q, host, EndpointIp(e.family, e.daddr)) && CallFor(later, host)
    requires g.ts <= SatSub(e.ts, e.latency) < later.ts
    requires Exchange(write, read) && id.tgid == write.tgid && id.fd == write.fd && id.cookie == e.cookie == c.cookie
    ensures var start := Start(maxOpen, endpoints, salt);
            var run := [Getaddrinfo(g), DnsQuery(q), DnsResponse(d), Connect(e), ConnId(id), TlsWrite(write), TlsRead(read)];
            var evs := run + [Getaddrinfo(later), Close(c, pick)];
            && After(start, run).returned == [r]
            && EmittedAt(Ahead(start, evs, 6), evs[6], r) && r.reqSeq == 0 && r.sockCookie == e.cookie
            && var rec := ConnectionOf(Ahead(start, evs, 8), c);
               r.dns.Some? && r.dns.value.viaGetaddrinfo && rec.dns.Some? && !rec.dns.value.viaGetaddrinfo
  {
    hide Start, After, HeadTruncated, Http.ParseRequest, Http.ParseStatus, Http.ContentLength, Joined, NewOp, CallFor,
      QueryFor,
      AnswerFor, Resolved, Ready, Good, ConnectionOf, EndpointIp, OnTlsWrite, OnTlsRead;
    var start, k := Start(maxOpen, endpoints, salt), Key(id.tgid, id.fd);
    var names := [Getaddrinfo(g), DnsQuery(q), DnsResponse(d)];
    StartsEmpty(maxOpen, endpoints, salt);
    Resolving(maxOpen, endpoints, salt, g, q, d, host, EndpointIp(e.family, e.daddr));
    GettingReady(start, names, host, g.ts, e, id);
    var ready := names + [Connect(e)] + [ConnId(id)];
    var s := After(start, ready).s;
    ReadyFresh(s, host, g.ts, e, k);
    r := ExchangeReturns(start, ready, write, read);
    LaterCall(start, ready, write, read, later, host);
    var t := After(start, ready + [TlsWrite(write)] + [TlsRead(read)] + [Getaddrinfo(later)]).s;
    TimedApart(s, t, host, g.ts, e, k, NewOp(s, write, Http.ParseRequest(write.data).value), r, c);
    var run := ready + [TlsWrite(write)] + [TlsRead(read)];
    var evs := run + [Getaddrinfo(later), Close(c, pick)];
    assert run == [Getaddrinfo(g), DnsQuery(q), DnsResponse(d), Connect(e), ConnId(id), TlsWrite(write), TlsRead(read)];
    assert evs[..6] == ready + [TlsWrite(write)] && evs[..8] == run + [Getaddrinfo(later)];
    ReturnedAt(start, ready, write, read, r);
  }

  lemma ReadyFresh(s: State, host: string, ts: nat, e: EvtConnect, k: Key)
    requires Ready(s, host, ts, e, k)
    ensures k !in s.ops
  {
  }

  /** The one record an exchange returns is emitted by its read. */
  lemma ReturnedAt(w: World, run: seq<Event>, write: EvtTlsData, read: EvtTlsData, r: Operation)
    requires Http.ParseRequest(write.data).Some? && Key(write.tgid, write.fd) !in After(w, run).s.ops
    requires After(w, run + [TlsWrite(write)] + [TlsRead(read)]).returned == After(w, run).returned + [r]
    ensures EmittedAt(After(w, run + [TlsWrite(write)]).s, TlsRead(read), r)
  {
    hide After, OnTlsWrite, OnTlsRead, Http.ParseRequest;
    NothingInterrupted(After(w, run).s, write);
    NextReturned(w, run, TlsWrite(write));
    NextReturned(w, run + [TlsWrite(write)], TlsRead(read));
    var out := OnTlsRead(After(w, run + [TlsWrite(write)]).s, read).1;
    assert Listed(out) == [r] by {
      assert After(w, run).returned + Listed(out) == After(w, run).returned + [r];
      assert (After(w, run).returned + Listed(out))[|After(w, run).returned|..] == Listed(out);
      assert (After(w, run).returned + [r])[|After(w, run).returned|..] == [r];
    }
  }
}
