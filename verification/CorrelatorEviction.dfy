/**
  Who goes when a map is full. Each of the seven capped maps has its own age; at each, the entries a pass takes are
  no younger than any it leaves, but for the ones just touched, and a pass takes a tenth of the cap at least.
 */
module CorrelatorEviction {
  import opened Wrappers
  import opened Eviction
  import opened CorrelatorState
  import opened CorrelatorRuns
  import opened CorrelatorSlots
  import Dns = DnsNames
  import Http = HttpHead

  /** How many a pass over `len` entries takes: the excess, or a tenth of the cap, or one, whichever is most. */
  function Batch(len: nat, cap: nat): nat
    requires len > cap
  {
    var excess, tenth := len - cap, cap / 10;
    if excess >= tenth then excess else tenth
  }

  /** The entries left are as they were, the exempt ones among them. */
  predicate Sparing<K, V(==)>(before: map<K, V>, after: map<K, V>, keep: set<K>) {
    && (forall k :: k in after ==> k in before && after[k] == before[k])
    && (forall k :: k in before && k in keep ==> k in after)
  }

  /** Nothing goes below the cap; above it a batch does, or all there is to take. */
  predicate Batched<K, V(==)>(before: map<K, V>, after: map<K, V>, keep: set<K>, cap: nat) {
    && (|before| <= cap ==> after == before)
    && (|before| > cap ==> |after| <= cap && |before| - |after| == Min(Batch(|before|, cap), |before.Keys - keep|))
  }

  /** Those gone are no younger than those left, but for the exempt. */
  predicate OldestFirst<K, V>(before: map<K, V>, after: map<K, V>, keep: set<K>, age: V -> nat) {
    forall k, j :: k in before && k !in after && j in after && j !in keep ==> age(before[k]) <= age(after[j])
  }

  /** `after` is what a pass leaves of `before`, the entries of `keep` being exempt and `age` telling who is older. */
  predicate OldestWent<K, V(==)>(before: map<K, V>, after: map<K, V>, keep: set<K>, cap: nat, age: V -> nat) {
    Sparing(before, after, keep) && Batched(before, after, keep, cap) && OldestFirst(before, after, keep, age)
  }

  /** A victim is no younger than an entry left that was not exempt. */
  lemma VictimIsOld<K(!new)>(less: (K, K) -> bool, stamps: map<K, nat>, cap: nat, keep: set<K>, k: K, j: K)
    requires StrictTotal(less) && j in stamps && j !in keep
    requires k in PassVictims(less, stamps, cap, keep) && j !in PassVictims(less, stamps, cap, keep)
    ensures k in stamps && stamps[k] <= stamps[j]
  {
    hide StrictTotal, IsBatch;
    VictimsAreBatch(less, stamps - keep, EvictTarget(|stamps|, cap));
    OlderOrEqual(less, stamps - keep, EvictTarget(|stamps|, cap), PassVictims(less, stamps, cap, keep), k, j);
  }

  lemma PassIsSparing<K(!new), V>(less: (K, K) -> bool, m: map<K, V>, stamps: map<K, nat>, cap: nat, keep: set<K>)
    requires StrictTotal(less) && stamps.Keys == m.Keys && |stamps| == |m| && |keep| <= cap
    ensures var after := m - AsSet(PassVictims(less, stamps, cap, keep));
            Sparing(m, after, keep) && Batched(m, after, keep, cap)
  {
    hide StrictTotal, Batch;
    if |m| > cap {
      hide PassVictims;
      PassCounts(less, m, stamps, cap, keep);
    }
  }

  lemma PassIsOrdered<K(!new), V>(less: (K, K) -> bool, m: map<K, V>, stamps: map<K, nat>, cap: nat, keep: set<K>, age: V -> nat)
    requires StrictTotal(less) && stamps.Keys == m.Keys
    requires forall k :: k in m ==> stamps[k] == age(m[k])
    ensures OldestFirst(m, m - AsSet(PassVictims(less, stamps, cap, keep)), keep, age)
  {
    hide StrictTotal, PassVictims;
    var victims := PassVictims(less, stamps, cap, keep);
    var after := m - AsSet(victims);
    forall k, j | k in m && k !in after && j in after && j !in keep ensures age(m[k]) <= age(after[j]) {
      VictimIsOld(less, stamps, cap, keep, k, j);
    }
  }

  /** Whatever the keys and the ages, a pass over a full map takes its oldest. */
  lemma PassTakesOldest<K(!new), V>(less: (K, K) -> bool, m: map<K, V>, stamps: map<K, nat>, cap: nat, keep: set<K>, age: V -> nat)
    requires StrictTotal(less) && stamps.Keys == m.Keys && |keep| <= cap
    requires forall k :: k in m ==> stamps[k] == age(m[k])
    ensures OldestWent(m, m - AsSet(PassVictims(less, stamps, cap, keep)), keep, cap, age)
  {
    hide StrictTotal, PassVictims, Sparing, Batched, OldestFirst;
    assert |stamps| == |m| by { assert |stamps.Keys| == |m.Keys|; }
    PassIsSparing(less, m, stamps, cap, keep);
    PassIsOrdered(less, m, stamps, cap, keep, age);
  }

  lemma OlderOrEqual<K(!new)>(less: (K, K) -> bool, stamps: map<K, nat>, n: nat, r: seq<K>, k: K, j: K)
    requires IsBatch(less, stamps, n, r) && k in r && j in stamps && j !in r
    ensures k in stamps && stamps[k] <= stamps[j]
  {
    var i :| 0 <= i < |r| && r[i] == k;
    assert Older(less, Entry(stamps[r[i]], r[i]), Entry(stamps[j], j));
  }

  lemma PassCounts<K(!new), V>(less: (K, K) -> bool, m: map<K, V>, stamps: map<K, nat>, cap: nat, keep: set<K>)
    requires StrictTotal(less) && stamps.Keys == m.Keys && |m| == |stamps| > cap && |keep| <= cap
    ensures var after := m - AsSet(PassVictims(less, stamps, cap, keep));
            |after| <= cap && |m| - |after| == Min(Batch(|m|, cap), |m.Keys - keep|)
  {
    hide StrictTotal;
    var victims := PassVictims(less, stamps, cap, keep);
    DropCount(m, victims);
    DropCount(stamps, victims);
    PassBounds(less, stamps, cap, keep);
    assert (stamps - keep).Keys == m.Keys - keep;
    assert |stamps - keep| == |m.Keys - keep|;
  }

  // ---------------------------------------------------------------------------------------
  // Map by map
  // ---------------------------------------------------------------------------------------

  /** Connections go by when they began. */
  lemma ConnectionsGo(s: State, e: EvtConnect)
    ensures var s' := OnConnect(s, e);
            e.cookie in s'.conns
            && OldestWent(s.conns[e.cookie := s'.conns[e.cookie]], s'.conns, {e.cookie}, s.maxOpen, (c: ConnState) => c.ts)
  {
    hide OldestWent, Disconnect, StrictTotal, PassVictims, ConnOf;
    KeyOrders();
    var m := s.conns[e.cookie := ConnOf(e)];
    if StaleLink(s, e).Some? {
      DisconnectFrame(s, StaleLink(s, e).value, e.cookie);
    }
    PassTakesOldest(CookieLess, m, ConnStamps(m), s.maxOpen, {e.cookie}, (c: ConnState) => c.ts);
  }

  lemma TlsGoes(s: State, cookie: Cookie, info: TlsInfo)
    ensures OldestWent(s.tls[cookie := info], SetTls(s, cookie, info).tls, {cookie}, s.maxOpen, (t: TlsInfo) => t.ts)
  {
    hide OldestWent, StrictTotal, PassVictims;
    KeyOrders();
    var m := s.tls[cookie := info];
    PassTakesOldest(CookieLess, m, TlsStamps(m), s.maxOpen, {cookie}, (t: TlsInfo) => t.ts);
  }

  /** TLS facts go by the last ClientHello, or by the first message of a handshake without one. */
  lemma HandshakesGo(s: State, e: EvtHandshake)
    ensures var s' := OnTlsHandshake(s, e);
            s'.tls == s.tls ||
            (e.cookie in s'.tls && OldestWent(s.tls[e.cookie := s'.tls[e.cookie]], s'.tls, {e.cookie}, s.maxOpen, (t: TlsInfo) => t.ts))
  {
    hide OldestWent, SetTls, TlsAt, Dns.QnameStr;
    match Dns.QnameStr(e.sni, e.sniLen)
    case None =>
    case Some(sni) =>
      var info := TlsAt(s, e.cookie, e.ts).(sni := sni, ts := e.ts);
      TlsGoes(s, e.cookie, info);
      TlsSet(s, e.cookie, info);
  }

  lemma ServerHellosGo(s: State, e: EvtServer)
    ensures var s' := OnTlsServer(s, e);
            e.cookie in s'.tls && OldestWent(s.tls[e.cookie := s'.tls[e.cookie]], s'.tls, {e.cookie}, s.maxOpen, (t: TlsInfo) => t.ts)
  {
    hide OldestWent, SetTls, TlsAt;
    var t := TlsAt(s, e.cookie, e.ts);
    var info := t.(version := NonZero(e.version).Or(t.version), cipher := NonZero(e.cipher).Or(t.cipher));
    TlsGoes(s, e.cookie, info);
    TlsSet(s, e.cookie, info);
  }

  lemma TlsSet(s: State, cookie: Cookie, info: TlsInfo)
    ensures var s' := SetTls(s, cookie, info); cookie in s'.tls && s'.tls[cookie] == info
  {
    hide StrictTotal, PassVictims, TlsStamps;
  }

  /** Links go by when they were announced. */
  lemma LinksGo(s: State, e: EvtConnId)
    requires Inverse(s.fdLinks, s.fdRev)
    ensures var linked := Relinked(s, e).fdLinks;
            && Key(e.tgid, e.fd) in linked && linked[Key(e.tgid, e.fd)] == FdLink(e.cookie, e.ts)
            && OldestWent(linked, OnConnId(s, e).fdLinks, {Key(e.tgid, e.fd)}, s.maxOpen, (l: FdLink) => l.ts)
  {
    hide OldestWent, StrictTotal, PassVictims, DropLinks, Relink, FlushAndDrop, Inverse, Within;
    KeyOrders();
    var s2, key := Relinked(s, e), Key(e.tgid, e.fd);
    RelinkedFrame(s, e);
    DropLinksFrame(s2, LinkVictims(s2, key));
    PassTakesOldest(KeyLess, s2.fdLinks, LinkStamps(s2.fdLinks), s2.maxOpen, {key}, (l: FdLink) => l.ts);
  }

  /** Slots go by their last plaintext. */
  lemma SlotsGo(s: State, e: EvtTlsData)
    requires Opens(TlsWrite(e))
    ensures var s', key := OnTlsWrite(s, e).0, Key(e.tgid, e.fd);
            key in s'.ops && OldestWent(s.ops[key := s'.ops[key]], s'.ops, {key}, s.maxOpen, (slot: Slot) => slot.lastTs)
  {
    hide OldestWent, StrictTotal, PassVictims, DropSlots, NewOp, OpenedSlot, Interrupted, Http.ParseRequest, BioCookie;
    KeyOrders();
    var req, key := Http.ParseRequest(e.data).value, Key(e.tgid, e.fd);
    var s1 := Opened(s, e, req);
    WriteOpens(s, e, req);
    DropSlotsFrame(s1, SlotVictims(s1, key));
    PassTakesOldest(KeyLess, s1.ops, SlotStamps(s1.ops), s1.maxOpen, {key}, (slot: Slot) => slot.lastTs);
  }

  /** Queries go by when they were asked, past 16384 of them. */
  lemma QueriesGo(s: State, e: EvtDnsQuery)
    ensures var s', key := OnDnsQuery(s, e), (e.cookie, e.txnId);
            s'.pendingDns == s.pendingDns ||
            (key in s'.pendingDns
             && OldestWent(s.pendingDns[key := s'.pendingDns[key]], s'.pendingDns, {key}, 16384, (q: PendingQuery) => q.queryTs))
  {
    hide OldestWent, StrictTotal, PassVictims, Dns.QnameStr;
    KeyOrders();
    match Dns.QnameStr(e.qname, e.qnameLen)
    case None =>
    case Some(qname) =>
      var key := (e.cookie, e.txnId);
      var m := s.pendingDns[key := PendingQuery(qname, e.ts)];
      PassTakesOldest(TxnLess, m, QueryStamps(m), DNS_MAP_CAP, {key}, (q: PendingQuery) => q.queryTs);
  }

  /** `m` is what is known once an answer at `ts` is in: new of the addresses of `named`, as before of the others. */
  predicate AnsweredIn(known: map<Dns.IpAddr, Resolution>, m: map<Dns.IpAddr, Resolution>, named: set<Dns.IpAddr>, ts: nat) {
    && m.Keys == known.Keys + named
    && forall ip :: ip in m ==> if ip in named then m[ip].resolvedTs == ts else m[ip] == known[ip]
  }

  lemma {:induction false} RecordedIn(known: map<Dns.IpAddr, Resolution>, answers: seq<Dns.Answer>, r: Resolution)
    ensures AnsweredIn(known, Record(known, answers, r), AnswerIps(answers), r.resolvedTs)
  {
    if answers != [] {
      var front, a := answers[..|answers| - 1], answers[|answers| - 1];
      RecordedIn(known, front, r);
      assert AnswerIps(answers) == AnswerIps(front) + {a.ip} by {
        assert answers == front + [a];
      }
    }
  }

  lemma AddressPass(m: map<Dns.IpAddr, Resolution>, named: set<Dns.IpAddr>)
    requires StrictTotal(IpLess) && |named| <= 64
    ensures OldestWent(m, EvictOver(IpLess, m, ResolutionStamps(m), DNS_MAP_CAP, named), named, 16384, (r: Resolution) => r.resolvedTs)
  {
    hide OldestWent, StrictTotal, PassVictims;
    PassTakesOldest(IpLess, m, ResolutionStamps(m), DNS_MAP_CAP, named, (r: Resolution) => r.resolvedTs);
  }

  /** Addresses go by when they were answered, past 16384 of them; those an answer names are exempt from its own pass. */
  lemma AddressesGo(s: State, e: EvtDnsResponse) returns (m: map<Dns.IpAddr, Resolution>, named: set<Dns.IpAddr>)
    ensures var known := OnDnsResponse(s, e).resolutions;
            known == s.resolutions ||
            (AnsweredIn(s.resolutions, m, named, e.ts) && OldestWent(m, known, named, 16384, (r: Resolution) => r.resolvedTs))
  {
    hide OldestWent, StrictTotal, EvictOver, ResolutionStamps, Dns.ParseResponse, Record, AnswerIps, AnsweredIn;
    m, named := map[], {};
    match Dns.ParseResponse(e.payload)
    case None =>
    case Some(r) =>
      var key := (e.cookie, r.txnId);
      if r.qname.Some? && key in s.pendingDns && s.pendingDns[key].qname == r.qname.value {
        var q := s.pendingDns[key];
        var res := Resolution(q.qname, SatSub(e.ts, q.queryTs), 0, Min(|r.answers|, 255), q.queryTs, e.ts);
        m, named := Record(s.resolutions, r.answers, res), AnswerIps(r.answers);
        RecordedIn(s.resolutions, r.answers, res);
        AnswersBound(e.payload);
        KeyOrders();
        AddressPass(m, named);
      }
  }

  /** Resolver calls go by when they ended, past 16384 of them. */
  lemma CallsGo(s: State, e: EvtGetaddrinfo)
    ensures var s' := OnGetaddrinfo(s, e);
            s'.gai == s.gai ||
            exists host :: host in s'.gai && OldestWent(s.gai[host := s'.gai[host]], s'.gai, {host}, 16384, (g: Gai) => g.ts)
  {
    hide OldestWent, StrictTotal, PassVictims, Dns.QnameStr, SawWire;
    KeyOrders();
    match Dns.QnameStr(e.host, e.hostLen)
    case None =>
    case Some(host) =>
      var m := s.gai[host := Gai(e.latency, !SawWire(s, host, SatSub(e.ts, e.latency), e.ts), e.ts)];
      PassTakesOldest(StringLess, m, GaiStamps(m), DNS_MAP_CAP, {host}, (g: Gai) => g.ts);
  }

  // ---------------------------------------------------------------------------------------
  // What keeps a slot fresh
  // ---------------------------------------------------------------------------------------

  /** A read of `cookie` on `k` is the slot's own: no op of another connection is open there. */
  predicate OwnRead(s: State, k: Key, cookie: Cookie) {
    k.fd != 0 || cookie == 0 || k !in s.ops || s.ops[k].open.None? || s.ops[k].open.value.cookie.None?
    || s.ops[k].open.value.cookie == Some(cookie)
  }

  /** The slot with its last activity at `ts`, whatever is open on it now. */
  predicate Refreshed(s: State, s': State, k: Key, ts: nat) {
    s'.ops.Keys == s.ops.Keys && (k in s.ops ==> s'.ops[k] == s.ops[k].(open := s'.ops[k].open, lastTs := ts))
    && forall j :: j in s.ops && j != k ==> s'.ops[j] == s.ops[j]
  }

  lemma TouchRefreshes(s: State, k: Key, ts: nat)
    ensures Refreshed(s, Touch(s, k, ts), k, ts)
  {
  }

  lemma SetOpenRefreshes(s: State, t: State, k: Key, ts: nat, op: Option<OpenOp>)
    requires Refreshed(s, t, k, ts) && k in t.ops
    ensures Refreshed(s, SetOpen(t, k, op), k, ts)
  {
  }

  lemma TallyRefreshes(s: State, k: Key, ts: nat, len: nat)
    ensures Refreshed(s, Tally(s, k, ts, len).0, k, ts)
  {
    hide BuildOp, FactsOf, Touch, SetOpen, Refreshed;
    var t := Touch(s, k, ts);
    TouchRefreshes(s, k, ts);
    if OpenAt(t, k).Some? && OpenAt(t, k).value.resp.Some? {
      var op, rs := OpenAt(t, k).value, OpenAt(t, k).value.resp.value;
      SetOpenRefreshes(s, t, k, ts, None);
      SetOpenRefreshes(s, t, k, ts, Some(op.(resp := Some(rs.(bodySeen := SatAdd(rs.bodySeen, len))))));
    }
  }

  lemma InterimRefreshes(s: State, k: Key, ts: nat)
    ensures Refreshed(s, Interim(s, k, ts), k, ts)
  {
    hide Touch, SetOpen, Refreshed;
    var t := Touch(s, k, ts);
    TouchRefreshes(s, k, ts);
    if OpenAt(t, k).Some? {
      var op := OpenAt(t, k).value;
      SetOpenRefreshes(s, t, k, ts, Some(op.(interimTs := op.interimTs.Or(Some(ts)))));
    }
  }

  lemma FinalRefreshes(s: State, k: Key, e: EvtTlsData, h: FinalHead)
    ensures Refreshed(s, Final(s, k, e, h).0, k, e.ts)
  {
    hide BuildOp, FinalFacts, Http.SameIgnoringCase, Touch, SetOpen, Refreshed;
    var t := Touch(s, k, e.ts);
    TouchRefreshes(s, k, e.ts);
    if OpenAt(t, k).Some? {
      var op := OpenAt(t, k).value;
      SetOpenRefreshes(s, t, k, e.ts, None);
      if h.headerEnd.Some? && h.contentLength.Some? {
        var rs := RespState(e.ts, h.status, h.requestId, e.len, h.truncated, h.contentLength.value, SatSub(e.len, h.headerEnd.value));
        SetOpenRefreshes(s, t, k, e.ts, Some(op.(resp := Some(rs))));
      }
    }
  }

  lemma OwnIsNotForeign(s: State, k: Key, cookie: Cookie)
    ensures OwnRead(s, k, cookie) <==> !Foreign(s, k, cookie)
  {
  }

  /** A length-only read is activity, whatever it completes. */
  lemma BodyReadRefreshes(s: State, e: EvtTlsBody)
    requires OwnRead(s, Key(e.tgid, e.fd), e.cookie)
    ensures Refreshed(s, OnTlsReadBody(s, e).0, Key(e.tgid, e.fd), e.ts)
  {
    hide Tally, Refreshed, Foreign;
    OwnIsNotForeign(s, Key(e.tgid, e.fd), e.cookie);
    TallyRefreshes(s, Key(e.tgid, e.fd), e.ts, e.len);
  }

  /** So is a read with data, if it is of a body awaited or opens with a status line. */
  lemma ReadRefreshes(s: State, e: EvtTlsData)
    requires OwnRead(s, Key(e.tgid, e.fd), e.cookie)
    requires AwaitingBody(s, Key(e.tgid, e.fd)) || Http.ParseStatus(e.data).Some?
    ensures Refreshed(s, OnTlsRead(s, e).0, Key(e.tgid, e.fd), e.ts)
  {
    hide Tally, Final, Interim, HeadOf, Http.ParseStatus, AwaitingBody, Foreign, Refreshed;
    var k := Key(e.tgid, e.fd);
    OwnIsNotForeign(s, k, e.cookie);
    TallyRefreshes(s, k, e.ts, e.len);
    if Http.ParseStatus(e.data).Some? {
      InterimRefreshes(s, k, e.ts);
      FinalRefreshes(s, k, e, HeadOf(e, Http.ParseStatus(e.data).value));
    }
  }
}
