/**
  Where a dns block comes from. Queries, answers and resolver calls are kept until something newer takes their
  place or they are evicted; every one that is kept, and so every block of every record, is traced to its events.
 */
module CorrelatorLookups {
  import opened Wrappers
  import opened Eviction
  import opened CorrelatorState
  import opened CorrelatorRuns
  import opened CorrelatorAttribution
  import opened CorrelatorFacts
  import opened CorrelatorEmission
  import opened CorrelatorJoins
  import opened CorrelatorNames
  import Dns = DnsNames

  type QueryKey = (Cookie, nat)

  /** The name a query asks under `key`, if the event is one that is kept. */
  function Asked(ev: Event, key: QueryKey): Option<string> {
    if ev.DnsQuery? && (ev.query.cookie, ev.query.txnId) == key && !ev.query.truncated then Dns.QnameStr(ev.query.qname, ev.query.qnameLen)
    else None
  }

  /** The host a resolver call was for, if the event is one that is kept. */
  function Called(ev: Event): Option<string> {
    if ev.Getaddrinfo? && ev.call.ret == 0 && !ev.call.truncated then Dns.QnameStr(ev.call.host, ev.call.hostLen) else None
  }

  /** The response, if the event is one that answers the query awaited. */
  function Accepted(s: State, ev: Event): Option<Dns.Response> {
    if ev.DnsResponse? then
      var r := Dns.ParseResponse(ev.response.payload);
      if r.Some? && r.value.qname.Some? && Awaits(s, (ev.response.cookie, r.value.txnId), r.value.qname.value) then r else None
    else None
  }

  /** The event answers the query awaited with `ip` among its addresses. */
  predicate Answers(s: State, ev: Event, ip: Dns.IpAddr) {
    Accepted(s, ev).Some? && ip in AnswerIps(Accepted(s, ev).value.answers)
  }

  /** The time to live of `ip`: a repeated address keeps its last. */
  function LastTtl(answers: seq<Dns.Answer>, ip: Dns.IpAddr): nat {
    if answers == [] then 0
    else if answers[|answers| - 1].ip == ip then answers[|answers| - 1].ttl
    else LastTtl(answers[..|answers| - 1], ip)
  }

  /** What an answer to the query `q` leaves for `ip`. */
  function Learned(d: EvtDnsResponse, r: Dns.Response, q: PendingQuery, ip: Dns.IpAddr): Resolution {
    Resolution(q.qname, SatSub(d.ts, q.queryTs), LastTtl(r.answers, ip), Min(|r.answers|, 255), q.queryTs, d.ts)
  }

  // ---------------------------------------------------------------------------------------
  // One fold
  // ---------------------------------------------------------------------------------------

  /** What is awaited and what is known are as they were. */
  predicate LookupsKept(s: State, t: State) {
    t.pendingDns == s.pendingDns && t.resolutions == s.resolutions && t.gai == s.gai
  }

  lemma SetTlsKeepsLookups(s: State, cookie: Cookie, info: TlsInfo)
    ensures LookupsKept(s, SetTls(s, cookie, info))
  {
    hide EvictOver, TlsStamps;
  }

  lemma ConnectKeepsLookups(s: State, e: EvtConnect)
    ensures LookupsKept(s, OnConnect(s, e))
  {
    hide Disconnect, EvictOver, ConnStamps, StaleLink, ConnOf, StrictTotal;
    if StaleLink(s, e).Some? {
      DisconnectFrame(s, StaleLink(s, e).value, e.cookie);
    }
  }

  lemma CloseKeepsLookups(s: State, e: EvtClose, pick: Option<Key>)
    ensures LookupsKept(s, OnClose(s, e, pick))
  {
    hide CloseSlot;
    CloseFrame(s, e, pick);
  }

  lemma HandshakeKeepsLookups(s: State, e: EvtHandshake)
    ensures LookupsKept(s, OnTlsHandshake(s, e))
  {
    hide SetTls, Dns.QnameStr;
    if Dns.QnameStr(e.sni, e.sniLen).Some? {
      SetTlsKeepsLookups(s, e.cookie, TlsAt(s, e.cookie, e.ts).(sni := Dns.QnameStr(e.sni, e.sniLen).value, ts := e.ts));
    }
  }

  lemma FoldKeepsLookups(s: State, ev: Event)
    requires Good(s) && !ev.DnsQuery? && !ev.DnsResponse? && !ev.Getaddrinfo?
    ensures LookupsKept(s, Fold(s, ev).0)
  {
    if KeepsFacts(ev) {
      hide Fold, Good;
      FoldKeeps(s, ev);
    } else {
      hide OnConnect, OnClose, OnTlsHandshake, SetTls, TlsAt, Good, LookupsKept;
      match ev
      case Connect(e) => ConnectKeepsLookups(s, e);
      case Close(e, pick) => CloseKeepsLookups(s, e, pick);
      case Handshake(e) => HandshakeKeepsLookups(s, e);
      case Server(e) =>
        var t := TlsAt(s, e.cookie, e.ts);
        SetTlsKeepsLookups(s, e.cookie, t.(version := NonZero(e.version).Or(t.version), cipher := NonZero(e.cipher).Or(t.cipher)));
    }
  }

  /** What is awaited under `key` after an event. */
  predicate PendingFollows(s: State, s': State, ev: Event, key: QueryKey) {
    key in s'.pendingDns ==>
      if Asked(ev, key).Some? then s'.pendingDns[key] == PendingQuery(Asked(ev, key).value, ev.query.ts)
      else key in s.pendingDns && s'.pendingDns[key] == s.pendingDns[key]
  }

  /** What is known of `ip` after an event. */
  predicate AnswerFollows(s: State, s': State, ev: Event, ip: Dns.IpAddr) {
    ip in s'.resolutions ==>
      if Answers(s, ev, ip) then
        var r := Accepted(s, ev).value;
        s'.resolutions[ip] == Learned(ev.response, r, s.pendingDns[(ev.response.cookie, r.txnId)], ip)
      else ip in s.resolutions && s'.resolutions[ip] == s.resolutions[ip]
  }

  function GaiOf(s: State, call: EvtGetaddrinfo, host: string): Gai {
    Gai(call.latency, !SawWire(s, host, SatSub(call.ts, call.latency), call.ts), call.ts)
  }

  /** What is known of calls for `host` after an event. */
  predicate CallFollows(s: State, s': State, ev: Event, host: string) {
    host in s'.gai ==>
      if Called(ev) == Some(host) then s'.gai[host] == GaiOf(s, ev.call, host)
      else host in s.gai && s'.gai[host] == s.gai[host]
  }

  lemma KeptLookups(s: State, s': State, ev: Event, key: QueryKey, ip: Dns.IpAddr, host: string)
    requires LookupsKept(s, s') && !ev.DnsQuery? && !ev.DnsResponse? && !ev.Getaddrinfo?
    ensures PendingFollows(s, s', ev, key) && AnswerFollows(s, s', ev, ip) && CallFollows(s, s', ev, host)
  {
  }

  lemma QueryFrame(s: State, e: EvtDnsQuery, key: QueryKey)
    ensures var s' := OnDnsQuery(s, e); s' == s.(pendingDns := s'.pendingDns) && PendingFollows(s, s', DnsQuery(e), key)
  {
    hide EvictOver, Dns.QnameStr, QueryStamps, StrictTotal;
  }

  lemma QueryLookups(s: State, e: EvtDnsQuery, key: QueryKey, ip: Dns.IpAddr, host: string)
    ensures var s' := OnDnsQuery(s, e);
            PendingFollows(s, s', DnsQuery(e), key) && AnswerFollows(s, s', DnsQuery(e), ip) && CallFollows(s, s', DnsQuery(e), host)
  {
    hide OnDnsQuery, PendingFollows;
    QueryFrame(s, e, key);
  }

  lemma CallFrame(s: State, e: EvtGetaddrinfo, host: string)
    ensures var s' := OnGetaddrinfo(s, e); s' == s.(gai := s'.gai) && CallFollows(s, s', Getaddrinfo(e), host)
  {
    hide EvictOver, Dns.QnameStr, GaiStamps, SawWire, StrictTotal;
  }

  lemma CallLookups(s: State, e: EvtGetaddrinfo, key: QueryKey, ip: Dns.IpAddr, host: string)
    ensures var s' := OnGetaddrinfo(s, e);
            PendingFollows(s, s', Getaddrinfo(e), key) && AnswerFollows(s, s', Getaddrinfo(e), ip)
            && CallFollows(s, s', Getaddrinfo(e), host)
  {
    hide OnGetaddrinfo, CallFollows;
    CallFrame(s, e, host);
  }

  lemma {:induction false} RecordIs(m: map<Dns.IpAddr, Resolution>, answers: seq<Dns.Answer>, r: Resolution,
                                    ip: Dns.IpAddr)
    ensures Get(Record(m, answers, r), ip) == if ip in AnswerIps(answers) then Some(r.(ttl := LastTtl(answers, ip))) else Get(m, ip)
    decreases |answers|
  {
    if answers != [] {
      var front, a := answers[..|answers| - 1], answers[|answers| - 1];
      RecordIs(m, front, r, ip);
      assert AnswerIps(answers) == AnswerIps(front) + {a.ip} by {
        assert answers == front + [a];
      }
    }
  }

  lemma ResponseLookups(s: State, e: EvtDnsResponse, key: QueryKey, ip: Dns.IpAddr, host: string)
    ensures var s' := OnDnsResponse(s, e);
            PendingFollows(s, s', DnsResponse(e), key) && AnswerFollows(s, s', DnsResponse(e), ip)
            && CallFollows(s, s', DnsResponse(e), host)
  {
    hide EvictOver, ResolutionStamps, Dns.ParseResponse, Record, StrictTotal, AnswerIps;
    if Accepted(s, DnsResponse(e)).Some? {
      var r := Accepted(s, DnsResponse(e)).value;
      var q := s.pendingDns[(e.cookie, r.txnId)];
      RecordIs(s.resolutions, r.answers, Resolution(q.qname, SatSub(e.ts, q.queryTs), 0, Min(|r.answers|, 255), q.queryTs, e.ts), ip);
    }
  }

  lemma FoldLookups(s: State, ev: Event, key: QueryKey, ip: Dns.IpAddr, host: string)
    requires Good(s)
    ensures var s' := Fold(s, ev).0;
            PendingFollows(s, s', ev, key) && AnswerFollows(s, s', ev, ip) && CallFollows(s, s', ev, host)
  {
    if ev.DnsQuery? || ev.DnsResponse? || ev.Getaddrinfo? {
      hide OnDnsQuery, OnDnsResponse, OnGetaddrinfo, PendingFollows, AnswerFollows, CallFollows, Good;
      match ev
      case DnsQuery(e) => QueryLookups(s, e, key, ip, host);
      case DnsResponse(e) => ResponseLookups(s, e, key, ip, host);
      case Getaddrinfo(e) => CallLookups(s, e, key, ip, host);
    } else {
      hide Fold, Good, PendingFollows, AnswerFollows, CallFollows, LookupsKept;
      FoldKeepsLookups(s, ev);
      KeptLookups(s, Fold(s, ev).0, ev, key, ip, host);
    }
  }

  // ---------------------------------------------------------------------------------------
  // Whole runs
  // ---------------------------------------------------------------------------------------

  /** The last query kept under `key`. */
  function LatestQuery(evs: seq<Event>, key: QueryKey): (q: Option<nat>)
    ensures q.Some? ==> q.value < |evs| && Asked(evs[q.value], key).Some?
                        && forall j :: q.value < j < |evs| ==> Asked(evs[j], key).None?
  {
    if evs == [] then None
    else if Asked(evs[|evs| - 1], key).Some? then Some(|evs| - 1)
    else LatestQuery(evs[..|evs| - 1], key)
  }

  /** The last resolver call kept for `host`. */
  function LatestCall(evs: seq<Event>, host: string): (g: Option<nat>)
    ensures g.Some? ==> g.value < |evs| && Called(evs[g.value]) == Some(host)
                        && forall j :: g.value < j < |evs| ==> Called(evs[j]) != Some(host)
  {
    if evs == [] then None
    else if Called(evs[|evs| - 1]) == Some(host) then Some(|evs| - 1)
    else LatestCall(evs[..|evs| - 1], host)
  }

  /** The last answer that named `ip`. */
  ghost function LatestAnswer(start: World, evs: seq<Event>, ip: Dns.IpAddr): (d: Option<nat>)
    ensures d.Some? ==> d.value < |evs|
  {
    if evs == [] then None
    else
      var front, ev := evs[..|evs| - 1], evs[|evs| - 1];
      if Answers(After(start, front).s, ev, ip) then Some(|evs| - 1) else LatestAnswer(start, front, ip)
  }

  /** What a query event leaves waiting. */
  function Pending(ev: Event, key: QueryKey): PendingQuery
    requires Asked(ev, key).Some?
  {
    PendingQuery(Asked(ev, key).value, ev.query.ts)
  }

  /** The query that the answer folded at `d` is to. */
  ghost function QueryBehind(start: World, evs: seq<Event>, d: nat): Option<nat>
    requires d < |evs| && Accepted(Ahead(start, evs, d), evs[d]).Some?
  {
    LatestQuery(evs[..d], (evs[d].response.cookie, Accepted(Ahead(start, evs, d), evs[d]).value.txnId))
  }

  predicate QueryTraced(s: State, evs: seq<Event>, key: QueryKey) {
    key in s.pendingDns ==>
      LatestQuery(evs, key).Some? && s.pendingDns[key] == Pending(evs[LatestQuery(evs, key).value], key)
  }

  /** What is known of `ip` is from the last answer naming it, and the query that answer is to. */
  ghost predicate AnswerTraced(start: World, evs: seq<Event>, ip: Dns.IpAddr) {
    var s, d := After(start, evs).s, LatestAnswer(start, evs, ip);
    ip in s.resolutions ==> d.Some? && AnsweredBy(start, evs, d.value, ip, s.resolutions[ip])
  }

  ghost predicate AnsweredBy(start: World, evs: seq<Event>, d: nat, ip: Dns.IpAddr, res: Resolution) {
    && d < |evs| && Answers(Ahead(start, evs, d), evs[d], ip)
    && var r := Accepted(Ahead(start, evs, d), evs[d]).value;
       var q := QueryBehind(start, evs, d);
       && q.Some? && q.value < d
       && Asked(evs[q.value], (evs[d].response.cookie, r.txnId)) == r.qname
       && res == Learned(evs[d].response, r, Pending(evs[q.value], (evs[d].response.cookie, r.txnId)), ip)
  }

  ghost predicate CallTraced(start: World, evs: seq<Event>, host: string) {
    var s, g := After(start, evs).s, LatestCall(evs, host);
    host in s.gai ==> g.Some? && s.gai[host] == GaiOf(Ahead(start, evs, g.value), evs[g.value].call, host)
  }

  lemma QueryNext(s: State, s': State, front: seq<Event>, ev: Event, key: QueryKey)
    requires QueryTraced(s, front, key) && PendingFollows(s, s', ev, key)
    ensures QueryTraced(s', front + [ev], key)
  {
    hide Asked;
    assert (front + [ev])[..|front|] == front;
  }

  /** A query that waits is the last one kept under its socket and id. */
  lemma {:induction false} QueriesTraced(start: World, evs: seq<Event>, key: QueryKey)
    requires Good(start.s) && start.s.pendingDns == map[]
    ensures QueryTraced(After(start, evs).s, evs, key)
  {
    hide Fold, Good, PendingFollows, AnswerFollows, CallFollows;
    if evs != [] {
      hide After, QueryTraced;
      var front, ev := evs[..|evs| - 1], evs[|evs| - 1];
      assert evs == front + [ev];
      QueriesTraced(start, front, key);
      GoodRun(start, front);
      FoldLookups(After(start, front).s, ev, key, Dns.V4([0, 0, 0, 0]), "");
      NextState(start, front, ev);
      QueryNext(After(start, front).s, After(start, evs).s, front, ev, key);
    }
  }

  lemma CallNext(start: World, front: seq<Event>, ev: Event, host: string)
    requires CallTraced(start, front, host) && CallFollows(After(start, front).s, After(start, front + [ev]).s, ev, host)
    ensures CallTraced(start, front + [ev], host)
  {
    hide Called, After, GaiOf;
    var evs := front + [ev];
    assert evs[..|front|] == front;
    var g := LatestCall(front, host);
    assert g.Some? ==> front[..g.value] == evs[..g.value];
  }

  /** What is known of calls for a host is of the last one kept. */
  lemma {:induction false} CallsTraced(start: World, evs: seq<Event>, host: string)
    requires Good(start.s) && start.s.gai == map[]
    ensures CallTraced(start, evs, host)
  {
    hide Fold, Good, PendingFollows, AnswerFollows, CallFollows;
    if evs != [] {
      hide After, CallTraced;
      var front, ev := evs[..|evs| - 1], evs[|evs| - 1];
      assert evs == front + [ev];
      CallsTraced(start, front, host);
      GoodRun(start, front);
      FoldLookups(After(start, front).s, ev, (0, 0), Dns.V4([0, 0, 0, 0]), host);
      NextState(start, front, ev);
      CallNext(start, front, ev, host);
    }
  }

  lemma AnsweredStays(start: World, front: seq<Event>, ev: Event, d: nat, ip: Dns.IpAddr, res: Resolution)
    requires AnsweredBy(start, front, d, ip, res)
    ensures AnsweredBy(start, front + [ev], d, ip, res)
  {
    hide After, Answers, Accepted, Asked, LatestQuery, Learned;
    assert (front + [ev])[..d] == front[..d];
  }

  lemma AnsweredNow(start: World, front: seq<Event>, ev: Event, ip: Dns.IpAddr, res: Resolution)
    requires Answers(After(start, front).s, ev, ip)
    requires var s, r := After(start, front).s, Accepted(After(start, front).s, ev).value;
             var key := (ev.response.cookie, r.txnId);
             && QueryTraced(s, front, key)
             && res == Learned(ev.response, r, s.pendingDns[key], ip)
    ensures AnsweredBy(start, front + [ev], |front|, ip, res)
  {
    hide After, Asked, LatestQuery, Learned, AnswerIps;
    assert (front + [ev])[..|front|] == front;
    var q := LatestQuery(front, (ev.response.cookie, Accepted(After(start, front).s, ev).value.txnId));
    assert q.Some? ==> (front + [ev])[q.value] == front[q.value];
  }

  lemma AnswerNext(start: World, front: seq<Event>, ev: Event, ip: Dns.IpAddr)
    requires AnswerTraced(start, front, ip) && AnswerFollows(After(start, front).s, After(start, front + [ev]).s, ev, ip)
    requires Answers(After(start, front).s, ev, ip) ==>
               QueryTraced(After(start, front).s, front, (ev.response.cookie, Accepted(After(start, front).s, ev).value.txnId))
    ensures AnswerTraced(start, front + [ev], ip)
  {
    hide After, AnsweredBy, QueryTraced, Learned;
    var evs := front + [ev];
    var s, t := After(start, front).s, After(start, evs).s;
    assert evs[..|evs| - 1] == front;
    if ip in t.resolutions {
      if Answers(s, ev, ip) {
        AnsweredNow(start, front, ev, ip, t.resolutions[ip]);
      } else {
        AnsweredStays(start, front, ev, LatestAnswer(start, front, ip).value, ip, t.resolutions[ip]);
      }
    }
  }

  /**
    What is known of an address is of the last answer that named it, to the last query of that answer's socket
    and id.
   */
  lemma {:induction false} AnswersTraced(start: World, evs: seq<Event>, ip: Dns.IpAddr)
    requires Good(start.s) && start.s.pendingDns == map[] && start.s.resolutions == map[]
    ensures AnswerTraced(start, evs, ip)
  {
    hide Fold, Good, PendingFollows, AnswerFollows, CallFollows, QueryTraced;
    if evs != [] {
      hide After, AnswerTraced;
      var front, ev := evs[..|evs| - 1], evs[|evs| - 1];
      assert evs == front + [ev];
      AnswersTraced(start, front, ip);
      GoodRun(start, front);
      FoldLookups(After(start, front).s, ev, (0, 0), ip, "");
      NextState(start, front, ev);
      if Answers(After(start, front).s, ev, ip) {
        QueriesTraced(start, front, (ev.response.cookie, Accepted(After(start, front).s, ev).value.txnId));
      }
      AnswerNext(start, front, ev, ip);
    }
  }

  /** The query waiting under `key` asked for `host` between `began` and `ended`. */
  predicate AskedDuring(evs: seq<Event>, key: QueryKey, host: string, began: nat, ended: nat) {
    var q := LatestQuery(evs, key);
    q.Some? && Asked(evs[q.value], key) == Some(host) && began <= evs[q.value].query.ts <= ended
  }

  /** The last answer naming `ip` was to a query for `host`, and the time from the one to the other met the time given. */
  ghost predicate AnsweredDuring(start: World, evs: seq<Event>, ip: Dns.IpAddr, host: string, began: nat, ended: nat) {
    var d := LatestAnswer(start, evs, ip);
    && d.Some? && Answers(Ahead(start, evs, d.value), evs[d.value], ip)
    && var q, key := QueryBehind(start, evs, d.value), (evs[d.value].response.cookie, Accepted(Ahead(start, evs, d.value), evs[d.value]).value.txnId);
       && q.Some? && q.value < d.value && Asked(evs[q.value], key) == Some(host)
       && evs[q.value].query.ts <= ended && began <= evs[d.value].response.ts
  }

  /** Some lookup for `host` still remembered after `evs` was on the wire between `began` and `ended`. */
  ghost predicate LookedUp(start: World, evs: seq<Event>, host: string, began: nat, ended: nat) {
    || (exists ip: Dns.IpAddr :: ip in After(start, evs).s.resolutions && AnsweredDuring(start, evs, ip, host, began, ended))
    || (exists key: QueryKey :: key in After(start, evs).s.pendingDns && AskedDuring(evs, key, host, began, ended))
  }

  lemma KnownIs(start: World, evs: seq<Event>, ip: Dns.IpAddr, host: string, began: nat, ended: nat)
    requires Good(start.s) && start.s.pendingDns == map[] && start.s.resolutions == map[]
    requires ip in After(start, evs).s.resolutions
    ensures var res := After(start, evs).s.resolutions[ip];
            AnsweredDuring(start, evs, ip, host, began, ended) <==>
            res.hostname == host && res.queryTs <= ended && began <= res.resolvedTs
  {
    hide After, Good, Answers, Accepted, Asked, LatestQuery, LatestAnswer;
    AnswersTraced(start, evs, ip);
  }

  lemma WaitingIs(start: World, evs: seq<Event>, key: QueryKey, host: string, began: nat, ended: nat)
    requires Good(start.s) && start.s.pendingDns == map[] && key in After(start, evs).s.pendingDns
    ensures var q := After(start, evs).s.pendingDns[key];
            AskedDuring(evs, key, host, began, ended) <==> q.qname == host && began <= q.queryTs <= ended
  {
    hide After, Good, Asked, LatestQuery;
    QueriesTraced(start, evs, key);
  }

  lemma SawWireIs(start: World, evs: seq<Event>, host: string, began: nat, ended: nat)
    requires Good(start.s) && start.s.pendingDns == map[] && start.s.resolutions == map[]
    ensures SawWire(After(start, evs).s, host, began, ended) <==> LookedUp(start, evs, host, began, ended)
  {
    hide After, Good, AnsweredDuring, AskedDuring;
    forall ip | ip in After(start, evs).s.resolutions
      ensures var res := After(start, evs).s.resolutions[ip];
              AnsweredDuring(start, evs, ip, host, began, ended) <==>
              res.hostname == host && res.queryTs <= ended && began <= res.resolvedTs
    {
      KnownIs(start, evs, ip, host, began, ended);
    }
    forall key | key in After(start, evs).s.pendingDns
      ensures var q := After(start, evs).s.pendingDns[key];
              AskedDuring(evs, key, host, began, ended) <==> q.qname == host && began <= q.queryTs <= ended
    {
      WaitingIs(start, evs, key, host, began, ended);
    }
  }

  // ---------------------------------------------------------------------------------------
  // Blocks
  // ---------------------------------------------------------------------------------------

  /**
    Where the block `b` of a connection to `ip` begun at `connTs` is from: the answer at `d`, to a query of its
    own socket, id and name, and for its timing either the last resolver call for that name, ended by the
    time the connection began, or the wire time from that query to that answer.
   */
  ghost predicate BlockFrom(start: World, evs: seq<Event>, ip: Dns.IpAddr, connTs: nat, b: DnsBlock, d: nat) {
    && d < |evs| && Answers(Ahead(start, evs, d), evs[d], ip)
    && var r, q := Accepted(Ahead(start, evs, d), evs[d]).value, QueryBehind(start, evs, d);
       && q.Some? && q.value < d && Asked(evs[q.value], (evs[d].response.cookie, r.txnId)) == r.qname
       && b.ip == ip && b.ttl == LastTtl(r.answers, ip) && b.nAnswers == Min(|r.answers|, 255)
       && (b.viaGetaddrinfo ==> TimedByCall(start, evs, r.qname.value, connTs, b))
       && (!b.viaGetaddrinfo ==> !b.cacheHit && b.latency == SatSub(evs[d].response.ts, evs[q.value].query.ts))
  }

  /** The call's own lookups on the wire, or somebody's at the time, tell a real resolution from a cached one. */
  ghost predicate TimedByCall(start: World, evs: seq<Event>, host: string, connTs: nat, b: DnsBlock) {
    var g := LatestCall(evs, host);
    && g.Some? && evs[g.value].call.ts <= connTs
    && b.latency == evs[g.value].call.latency
    && var call := evs[g.value].call;
       b.cacheHit <==> !LookedUp(start, evs[..g.value], host, if call.ts > call.latency then call.ts - call.latency else 0, call.ts)
  }

  lemma BlockTraced(start: World, evs: seq<Event>, ip: Dns.IpAddr, connTs: nat)
    requires Good(start.s) && start.s.pendingDns == map[] && start.s.resolutions == map[] && start.s.gai == map[]
    ensures var b, d := DnsForIp(After(start, evs).s, ip, connTs), LatestAnswer(start, evs, ip);
            b.Some? ==> d.Some? && BlockFrom(start, evs, ip, connTs, b.value, d.value)
  {
    hide Good, After, Answers, Accepted, Asked, SawWire, LookedUp;
    if ip in After(start, evs).s.resolutions {
      var host := After(start, evs).s.resolutions[ip].hostname;
      AnswersTraced(start, evs, ip);
      CallsTraced(start, evs, host);
      var g := LatestCall(evs, host);
      if g.Some? {
        var call := evs[g.value].call;
        SawWireIs(start, evs[..g.value], host, SatSub(call.ts, call.latency), call.ts);
      }
    }
  }

  lemma NothingKnown(maxOpen: nat, endpoints: seq<string>, salt: string)
    ensures var start := Start(maxOpen, endpoints, salt);
            Good(start.s) && start.s.pendingDns == map[] && start.s.resolutions == map[] && start.s.gai == map[]
  {
    GoodInit(maxOpen, endpoints, salt);
  }

  /** The dns block of every record, traced: to its connect, and from its endpoint to an answer, a query and a call. */
  lemma EveryBlockTraced(maxOpen: nat, endpoints: seq<string>, salt: string, evs: seq<Event>, r: Operation)
    returns (at: nat, n: nat, m: nat, d: nat)
    requires Emitted(After(Start(maxOpen, endpoints, salt), evs), r)
    ensures JoinsAt(Start(maxOpen, endpoints, salt), evs, r, at, n)
    ensures r.dns.Some? ==> LatestConnect(evs[..n], r.sockCookie) == Some(m)
                            && BlockOf(Start(maxOpen, endpoints, salt), evs[..n], m, r.dns.value, d)
  {
    hide Start, After, Good, EmittedAt, CutHead, LinkIsLast, Reports, BlockOf, LatestConnect, LatestAnswer, DnsForIp,
      EndpointIp, OpOf;
    var start := Start(maxOpen, endpoints, salt);
    at, n := EveryRecordJoins(maxOpen, endpoints, salt, evs, r);
    m, d := 0, 0;
    if r.dns.Some? {
      FactsFromStart(maxOpen, endpoints, salt, evs[..n], r.sockCookie);
      m := LatestConnect(evs[..n], r.sockCookie).value;
      d := BlockOfConnect(maxOpen, endpoints, salt, evs[..n], m, r.dns.value);
    }
  }

  /** `b` is the block of the connection that the connect at `m` began. */
  ghost predicate BlockOf(start: World, evs: seq<Event>, m: nat, b: DnsBlock, d: nat) {
    && m < |evs| && evs[m].Connect?
    && var e := evs[m].connect;
       BlockFrom(start, evs, EndpointIp(e.family, e.daddr), SatSub(e.ts, e.latency), b, d)
  }

  lemma BlockOfConnect(maxOpen: nat, endpoints: seq<string>, salt: string, evs: seq<Event>, m: nat, b: DnsBlock)
    returns (d: nat)
    requires m < |evs| && evs[m].Connect?
    requires var e := evs[m].connect;
             DnsForIp(After(Start(maxOpen, endpoints, salt), evs).s, EndpointIp(e.family, e.daddr), SatSub(e.ts, e.latency)) == Some(b)
    ensures BlockOf(Start(maxOpen, endpoints, salt), evs, m, b, d)
  {
    hide Start, After, Good, BlockFrom, LatestAnswer, DnsForIp, EndpointIp;
    var start, e := Start(maxOpen, endpoints, salt), evs[m].connect;
    NothingKnown(maxOpen, endpoints, salt);
    BlockTraced(start, evs, EndpointIp(e.family, e.daddr), SatSub(e.ts, e.latency));
    d := LatestAnswer(start, evs, EndpointIp(e.family, e.daddr)).value;
  }

  /** And of every connection's own record. */
  lemma ConnectionBlockTraced(maxOpen: nat, endpoints: seq<string>, salt: string, evs: seq<Event>, e: EvtClose)
    returns (m: nat, d: nat)
    ensures var rec := ConnectionOf(After(Start(maxOpen, endpoints, salt), evs).s, e);
            rec.dns.Some? ==> LatestConnect(evs, e.cookie) == Some(m)
                              && BlockOf(Start(maxOpen, endpoints, salt), evs, m, rec.dns.value, d)
  {
    hide Start, After, BlockOf, LatestConnect, DnsForIp, EndpointIp;
    var rec := ConnectionOf(After(Start(maxOpen, endpoints, salt), evs).s, e);
    m, d := 0, 0;
    if rec.dns.Some? {
      FactsFromStart(maxOpen, endpoints, salt, evs, e.cookie);
      m := LatestConnect(evs, e.cookie).value;
      d := BlockOfConnect(maxOpen, endpoints, salt, evs, m, rec.dns.value);
    }
  }

  // ---------------------------------------------------------------------------------------
  // From a query to its answer
  // ---------------------------------------------------------------------------------------

  /** An event that leaves the query under `key` waiting: no newer one for it, no answer to it, no eviction. */
  predicate LeavesWaiting(s: State, ev: Event, key: QueryKey) {
    && Asked(ev, key).None?
    && (Accepted(s, ev).Some? ==> (ev.response.cookie, Accepted(s, ev).value.txnId) != key)
    && (ev.DnsQuery? ==> |s.pendingDns| < DNS_MAP_CAP)
  }

  lemma RoomForOne(m: map<QueryKey, PendingQuery>, keep: set<QueryKey>)
    requires StrictTotal(TxnLess) && |m| <= DNS_MAP_CAP && |keep| <= DNS_MAP_CAP
    ensures EvictOver(TxnLess, m, QueryStamps(m), DNS_MAP_CAP, keep) == m
  {
    assert QueryStamps(m).Keys == m.Keys;
    assert |QueryStamps(m)| == |QueryStamps(m).Keys| == |m.Keys| == |m|;
    assert Drop(m, []) == m;
  }

  lemma QueryWaits(s: State, e: EvtDnsQuery, key: QueryKey, name: string)
    requires Awaits(s, key, name) && LeavesWaiting(s, DnsQuery(e), key)
    ensures Awaits(OnDnsQuery(s, e), key, name)
  {
    hide EvictOver, Dns.QnameStr, QueryStamps, StrictTotal;
    KeyOrders();
    if !e.truncated && Dns.QnameStr(e.qname, e.qnameLen).Some? {
      var own := (e.cookie, e.txnId);
      var m := s.pendingDns[own := PendingQuery(Dns.QnameStr(e.qname, e.qnameLen).value, e.ts)];
      OneMoreKey(s.pendingDns, own, PendingQuery(Dns.QnameStr(e.qname, e.qnameLen).value, e.ts));
      RoomForOne(m, {own});
    }
  }

  lemma ResponseWaits(s: State, e: EvtDnsResponse, key: QueryKey, name: string)
    requires Awaits(s, key, name) && LeavesWaiting(s, DnsResponse(e), key)
    ensures Awaits(OnDnsResponse(s, e), key, name)
  {
    hide EvictOver, ResolutionStamps, Dns.ParseResponse, Record, StrictTotal, AnswerIps;
  }

  lemma CallWaits(s: State, e: EvtGetaddrinfo, key: QueryKey, name: string)
    requires Awaits(s, key, name)
    ensures Awaits(OnGetaddrinfo(s, e), key, name)
  {
    hide OnGetaddrinfo, CallFollows;
    CallFrame(s, e, "");
  }

  lemma StillWaits(s: State, ev: Event, key: QueryKey, name: string)
    requires Good(s) && Awaits(s, key, name) && LeavesWaiting(s, ev, key)
    ensures Awaits(Fold(s, ev).0, key, name)
  {
    if ev.DnsQuery? || ev.DnsResponse? || ev.Getaddrinfo? {
      hide OnDnsQuery, OnDnsResponse, OnGetaddrinfo, Awaits, LeavesWaiting, Good;
      match ev
      case DnsQuery(e) => QueryWaits(s, e, key, name);
      case DnsResponse(e) => ResponseWaits(s, e, key, name);
      case Getaddrinfo(e) => CallWaits(s, e, key, name);
    } else {
      hide Fold, Good, LeavesWaiting;
      FoldKeepsLookups(s, ev);
    }
  }

  ghost predicate AllLeaveWaiting(start: World, evs: seq<Event>, lo: nat, key: QueryKey) {
    forall j :: lo <= j < |evs| ==> LeavesWaiting(Ahead(start, evs, j), evs[j], key)
  }

  lemma {:induction false} WaitsOn(start: World, evs: seq<Event>, lo: nat, key: QueryKey, name: string)
    requires Good(start.s) && lo <= |evs| && Awaits(Ahead(start, evs, lo), key, name) && AllLeaveWaiting(start, evs, lo, key)
    ensures Awaits(After(start, evs).s, key, name)
    decreases |evs|
  {
    hide Good, After, Fold, Awaits, LeavesWaiting;
    if lo == |evs| {
      assert evs[..lo] == evs;
    } else {
      var front, ev := evs[..|evs| - 1], evs[|evs| - 1];
      assert evs == front + [ev] && front[..lo] == evs[..lo];
      assert forall j :: 0 <= j < |front| ==> front[..j] == evs[..j] && front[j] == evs[j];
      WaitsOn(start, front, lo, key, name);
      GoodRun(start, front);
      assert LeavesWaiting(Ahead(start, evs, |front|), evs[|front|], key);
      StillWaits(After(start, front).s, ev, key, name);
      NextState(start, front, ev);
    }
  }

  /**
    From query to answer, over any run: a query for a legal name is folded at `p`; whatever comes after, as long as
    nothing newer is asked under its socket and id, nothing answers it, and the queries waiting do not reach their cap,
    the true answer, in any letter case and clipped anywhere past its question, is accepted: every address
    that survived the clip names the host from then on.
   */
  lemma QueryAnswered(start: World, evs: seq<Event>, p: nat, query: Dns.Bytes, asked: seq<Dns.Bytes>, e: EvtDnsResponse,
                      m: Dns.Message, k: nat)
    requires Good(start.s) && p < |evs| && evs[p].DnsQuery? && Ships(evs[p].query, query)
    requires Dns.LegalName(asked) && Dns.At(query, Dns.DNS_HDR_LEN, Dns.Wire(asked))
    requires Dns.LegalMessage(m) && Dns.SameName(asked, m.question)
    requires Dns.DNS_HDR_LEN + |Dns.Wire(m.question)| <= k <= |Dns.MessageWire(m)| && e.payload == Dns.MessageWire(m)[..k]
    requires e.cookie == evs[p].query.cookie && m.id == evs[p].query.txnId
    requires AllLeaveWaiting(start, evs, p + 1, (e.cookie, m.id))
    ensures var s', name := After(start, evs + [DnsResponse(e)]).s, Lower(Dns.Text(Dns.Dotted(asked)));
            && (e.cookie, m.id) !in s'.pendingDns
            && Dns.ParseResponse(e.payload).Some?
            && var answers := Dns.ParseResponse(e.payload).value.answers;
               && answers <= Dns.Addresses(Dns.Foremost(m.records))
               && forall i :: 0 <= i < |answers| ==>
                    answers[i].ip in s'.resolutions && s'.resolutions[answers[i].ip].hostname == name
                    && s'.resolutions[answers[i].ip].resolvedTs == e.ts
  {
    hide Good, After, OnDnsQuery, OnDnsResponse, Awaits, LeavesWaiting, Ships, Dns.LegalName, Dns.At, Dns.Wire,
      Dns.LegalMessage, Dns.SameName,
      Dns.MessageWire, Dns.ParseResponse, Dns.Addresses, Dns.Dotted, Dns.Text, Lower, Dns.Foremost;
    var s, name := Ahead(start, evs, p), Lower(Dns.Text(Dns.Dotted(asked)));
    GoodRun(start, evs[..p]);
    QueryRemembered(s, evs[p].query, query, asked);
    assert evs[..p + 1] == evs[..p] + [evs[p]];
    NextState(start, evs[..p], evs[p]);
    WaitsOn(start, evs, p + 1, (e.cookie, m.id), name);
    GoodRun(start, evs);
    TrueAnswerAccepted(After(start, evs).s, e, asked, m, k);
    NextState(start, evs, DnsResponse(e));
  }
}
