/**
  The correlator's state and what each handler does to it, event by event: the specification the
  class in Correlator.dfy is proved against, and the one the run theorems are about.
 */
module CorrelatorState {
  import opened Wrappers
  import opened Eviction
  import Dns = DnsNames
  import Http = HttpHead
  import Resolve = HttpResolve

  const DNS_MAP_CAP: nat := 16384

  // ---------------------------------------------------------------------------------------
  // Records
  // ---------------------------------------------------------------------------------------

  type Cookie = nat
  type Pos = n: nat | n >= 1 witness 1
  type Addr = b: Dns.Bytes | |b| == 16 witness [0, 0, 0, 0, 0, 0, 0, 0, 0, 0, 0, 0, 0, 0, 0, 0]

  /** `(tgid, fd)`: where a plaintext event happened. */
  datatype Key = Key(tgid: nat, fd: nat)

  datatype ConnState = ConnState(pid: nat, latency: nat, ts: nat, family: nat, daddr: Addr, dport: nat, failed: bool)
  datatype PendingQuery = PendingQuery(qname: string, queryTs: nat)
  datatype Resolution = Resolution(hostname: string, latency: nat, ttl: nat, nAnswers: nat, queryTs: nat, resolvedTs: nat)
  datatype Gai = Gai(latency: nat, cacheHit: bool, ts: nat)
  datatype TlsInfo = TlsInfo(sni: string, ts: nat, version: Option<nat>, cipher: Option<nat>)
  datatype FdLink = FdLink(cookie: Cookie, ts: nat)

  /** A response whose body is being tallied toward its declared length. */
  datatype RespState = RespState(headTs: nat, status: nat, requestId: Option<string>, bytesRecv: nat, truncated: bool,
                                 bodyTarget: nat, bodySeen: nat)

  /** The salted digest of an object key, kept symbolic. */
  datatype KeyHash = KeyHash(salt: string, key: string)

  /** A request seen, awaiting its response. */
  datatype OpenOp = OpenOp(id: nat, ts: nat, reqSeq: nat, verb: string, s3Op: Option<Resolve.S3Op>, bucket: Option<string>,
                           keyHash: Option<KeyHash>, bytesSent: nat, interimTs: Option<nat>, headTruncated: bool,
                           ambiguous: bool, resp: Option<RespState>, cookie: Option<Cookie>)

  /** One op slot. `lastBio` is the fallback cookie last seen on it. */
  datatype Slot = Slot(nextSeq: nat, open: Option<OpenOp>, lastTs: nat, lastBio: Option<Cookie>)

  datatype DnsBlock = DnsBlock(latency: nat, cacheHit: bool, ip: Dns.IpAddr, nAnswers: nat, ttl: nat, viaGetaddrinfo: bool)

  /** One emitted operation record. */
  datatype Operation = Operation(
    id: nat, ts: nat, sockCookie: Cookie, reqSeq: nat, pid: nat, verb: string, s3Op: Option<Resolve.S3Op>,
    bucket: Option<string>, keyHash: Option<KeyHash>, dns: Option<DnsBlock>, tcpConnectNs: Option<nat>,
    ttfbNs: Option<nat>, downloadNs: Option<nat>, totalNs: Option<nat>, contentLength: Option<nat>,
    bytesSent: nat, bytesRecv: nat, connectionReused: bool, httpStatus: Option<nat>, requestId: Option<string>,
    isPartial: bool, ambiguous: bool)

  /** One emitted connection record, reduced to what the correlation decides. */
  datatype Connection = Connection(
    ts: Option<nat>, sockCookie: Cookie, pid: nat, ip: Option<Dns.IpAddr>, dport: Option<nat>, dns: Option<DnsBlock>,
    tcpConnectNs: Option<nat>, connectFailed: bool, tlsSeen: bool, sni: Option<string>, version: Option<nat>,
    cipher: Option<nat>, isPartial: bool)

  /** The response-side facts an op is emitted with. */
  datatype RespFacts = RespFacts(status: Option<nat>, requestId: Option<string>, bytesRecv: nat, truncated: bool,
                                 ts: Option<nat>, bodyCompleteTs: Option<nat>, contentLength: Option<nat>)

  datatype State = State(
    conns: map<Cookie, ConnState>, maxOpen: Pos, pendingDns: map<(Cookie, nat), PendingQuery>,
    resolutions: map<Dns.IpAddr, Resolution>, gai: map<string, Gai>, tls: map<Cookie, TlsInfo>,
    fdLinks: map<Key, FdLink>, fdRev: map<Cookie, Key>, ops: map<Key, Slot>, opCounter: nat,
    flushed: seq<Operation>, parseFailures: nat, endpoints: seq<string>, salt: string)

  // ---------------------------------------------------------------------------------------
  // Events
  // ---------------------------------------------------------------------------------------

  datatype EvtConnect = EvtConnect(ts: nat, tgid: nat, cookie: Cookie, latency: nat, family: nat, daddr: Addr, dport: nat, failed: bool)
  datatype EvtClose = EvtClose(ts: nat, cookie: Cookie, handshakeUs: nat)
  datatype EvtConnId = EvtConnId(ts: nat, tgid: nat, cookie: Cookie, fd: nat)
  /** `data` is the captured prefix, `len` the true length of the write or read. */
  datatype EvtTlsData = EvtTlsData(ts: nat, tgid: nat, cookie: Cookie, fd: nat, len: nat, overflow: bool, data: string)
  datatype EvtTlsBody = EvtTlsBody(ts: nat, tgid: nat, cookie: Cookie, fd: nat, len: nat)
  datatype EvtHandshake = EvtHandshake(ts: nat, cookie: Cookie, sni: Dns.Bytes, sniLen: nat, truncated: bool)
  datatype EvtServer = EvtServer(ts: nat, cookie: Cookie, version: nat, cipher: nat)
  datatype EvtDnsQuery = EvtDnsQuery(ts: nat, cookie: Cookie, txnId: nat, qname: Dns.Bytes, qnameLen: nat, truncated: bool)
  datatype EvtDnsResponse = EvtDnsResponse(ts: nat, cookie: Cookie, payload: Dns.Bytes)
  datatype EvtGetaddrinfo = EvtGetaddrinfo(ts: nat, latency: nat, ret: int, host: Dns.Bytes, hostLen: nat, truncated: bool)

  // ---------------------------------------------------------------------------------------
  // Key orders
  // ---------------------------------------------------------------------------------------

  predicate CookieLess(a: Cookie, b: Cookie) { a < b }

  predicate KeyLess(a: Key, b: Key) { a.tgid < b.tgid || (a.tgid == b.tgid && a.fd < b.fd) }

  predicate TxnLess(a: (Cookie, nat), b: (Cookie, nat)) { a.0 < b.0 || (a.0 == b.0 && a.1 < b.1) }

  /** Lexicographic order of strings. */
  predicate StringLess(a: string, b: string) {
    if b == "" then false
    else if a == "" then true
    else a[0] < b[0] || (a[0] == b[0] && StringLess(a[1..], b[1..]))
  }

  predicate BytesLess(a: Dns.Bytes, b: Dns.Bytes) {
    if b == [] then false
    else if a == [] then true
    else a[0] < b[0] || (a[0] == b[0] && BytesLess(a[1..], b[1..]))
  }

  predicate IpLess(a: Dns.IpAddr, b: Dns.IpAddr) {
    match (a, b)
    case (V4(x), V4(y)) => BytesLess(x, y)
    case (V6(x), V6(y)) => BytesLess(x, y)
    case (V4(_), V6(_)) => true
    case (V6(_), V4(_)) => false
  }

  lemma {:induction false} StringLaws(a: string, b: string, c: string)
    ensures OrderLaws(StringLess, a, b, c)
    decreases |a| + |b| + |c|
  {
    if a != "" && b != "" && c != "" {
      assert a == [a[0]] + a[1..] && b == [b[0]] + b[1..];
      StringLaws(a[1..], b[1..], c[1..]);
    } else if a != "" && b != "" {
      assert a == [a[0]] + a[1..] && b == [b[0]] + b[1..];
      StringLaws(a[1..], b[1..], c);
    } else if a != "" {
      StringLaws(a[1..], b, c);
    }
  }

  lemma {:induction false} BytesLaws(a: Dns.Bytes, b: Dns.Bytes, c: Dns.Bytes)
    ensures OrderLaws(BytesLess, a, b, c)
    decreases |a| + |b| + |c|
  {
    if a != [] && b != [] && c != [] {
      assert a == [a[0]] + a[1..] && b == [b[0]] + b[1..];
      BytesLaws(a[1..], b[1..], c[1..]);
    } else if a != [] && b != [] {
      assert a == [a[0]] + a[1..] && b == [b[0]] + b[1..];
      BytesLaws(a[1..], b[1..], c);
    } else if a != [] {
      BytesLaws(a[1..], b, c);
    }
  }

  /** Every key type the correlator evicts by is totally ordered. */
  lemma KeyOrders()
    ensures StrictTotal(CookieLess) && StrictTotal(KeyLess) && StrictTotal(TxnLess)
    ensures StrictTotal(StringLess) && StrictTotal(IpLess)
  {
    assert forall a, b, c :: OrderLaws(CookieLess, a, b, c);
    assert forall a, b, c :: OrderLaws(KeyLess, a, b, c);
    assert forall a, b, c :: OrderLaws(TxnLess, a, b, c);
    forall a, b, c ensures OrderLaws(StringLess, a, b, c) {
      StringLaws(a, b, c);
    }
    forall a, b, c ensures OrderLaws(IpLess, a, b, c) {
      BytesLaws(a.octets, b.octets, c.octets);
    }
  }

  // ---------------------------------------------------------------------------------------
  // Joining
  // ---------------------------------------------------------------------------------------

  /** The connection a `(tgid, fd)` resolves to, if a conn_id mapped it and nothing withdrew it. */
  function CookieForFd(s: State, key: Key): Option<Cookie> {
    if key in s.fdLinks then Some(s.fdLinks[key].cookie) else None
  }

  const AF_INET: nat := 2

  function EndpointIp(family: nat, daddr: Addr): Dns.IpAddr {
    if family == AF_INET then Dns.V4(daddr[12..]) else Dns.Normalize(daddr)
  }

  /** The dns block of a connection to `ip` that started at `connTs`. */
  function DnsForIp(s: State, ip: Dns.IpAddr, connTs: nat): Option<DnsBlock> {
    if ip !in s.resolutions then None
    else
      var res := s.resolutions[ip];
      if res.hostname in s.gai && s.gai[res.hostname].ts <= connTs then
        var g := s.gai[res.hostname];
        Some(DnsBlock(g.latency, g.cacheHit, ip, res.nAnswers, res.ttl, true))
      else
        Some(DnsBlock(res.latency, false, ip, res.nAnswers, res.ttl, false))
  }

  const NO_FACTS: RespFacts := RespFacts(None, None, 0, false, None, None, None)

  function FactsOf(rs: RespState, completeTs: Option<nat>): RespFacts {
    RespFacts(Some(rs.status), rs.requestId, rs.bytesRecv, rs.truncated, Some(rs.headTs), completeTs, Some(rs.bodyTarget))
  }

  /** The facts an op interrupted before completion is emitted with. */
  function FactsOnFlush(op: OpenOp): RespFacts {
    if op.resp.Some? then FactsOf(op.resp.value, None) else NO_FACTS
  }

  function OpCookie(s: State, key: Key, op: OpenOp): Option<Cookie> {
    op.cookie.Or(CookieForFd(s, key))
  }

  function OpConn(s: State, key: Key, op: OpenOp): Option<ConnState> {
    match OpCookie(s, key, op)
    case None => None
    case Some(c) => Get(s.conns, c)
  }

  function OpSniBucket(s: State, key: Key, op: OpenOp): Option<string> {
    match OpCookie(s, key, op)
    case None => None
    case Some(c) => if c in s.tls then Resolve.BucketFromHost(s.tls[c].sni) else None
  }

  function Elapsed(from: nat, to: Option<nat>): Option<nat> {
    match to case None => None case Some(t) => Some(SatSub(t, from))
  }

  function BuildOp(s: State, key: Key, op: OpenOp, f: RespFacts): Operation {
    var conn := OpConn(s, key, op);
    var reused := op.reqSeq > 0;
    Operation(
      op.id, op.ts, OpCookie(s, key, op).GetOr(0), op.reqSeq,
      if conn.Some? then conn.value.pid else key.tgid,
      op.verb, op.s3Op, OpSniBucket(s, key, op).Or(op.bucket), op.keyHash,
      if reused || conn.None? then None else DnsForIp(s, EndpointIp(conn.value.family, conn.value.daddr), conn.value.ts),
      if reused || conn.None? then None else NonZero(conn.value.latency),
      (match Elapsed(op.ts, op.interimTs.Or(f.ts)) case None => None case Some(n) => NonZero(n)),
      if f.ts.Some? then Elapsed(f.ts.value, f.bodyCompleteTs) else None,
      Elapsed(op.ts, f.bodyCompleteTs),
      f.contentLength, op.bytesSent, f.bytesRecv, reused, f.status, f.requestId,
      conn.None? || op.headTruncated || f.truncated,
      op.ambiguous)
  }

  // ---------------------------------------------------------------------------------------
  // The slots
  // ---------------------------------------------------------------------------------------

  function OpenAt(s: State, key: Key): Option<OpenOp> {
    if key in s.ops then s.ops[key].open else None
  }

  /** The queue once the op open at `key`, if any, is emitted as aborted. */
  function FlushedWith(s: State, key: Key): seq<Operation> {
    var op := OpenAt(s, key);
    if op.Some? then s.flushed + [BuildOp(s, key, op.value, FactsOnFlush(op.value))] else s.flushed
  }

  /** The one place a slot is dropped: an op still open on it is emitted, as aborted, first. */
  function FlushAndDrop(s: State, key: Key): State {
    s.(flushed := FlushedWith(s, key), ops := s.ops - {key})
  }

  function DropSlots(s: State, keys: seq<Key>): State {
    if keys == [] then s else FlushAndDrop(DropSlots(s, keys[..|keys| - 1]), keys[|keys| - 1])
  }

  /** Drop `(tgid, fd) -> cookie`, and the reverse entry if it points back. */
  function Unlink(s: State, key: Key): State {
    if key !in s.fdLinks then s
    else
      var cookie := s.fdLinks[key].cookie;
      s.(fdLinks := s.fdLinks - {key},
         fdRev := if Get(s.fdRev, cookie) == Some(key) then s.fdRev - {cookie} else s.fdRev)
  }

  function DropLinks(s: State, keys: seq<Key>): State {
    if keys == [] then s
    else Unlink(FlushAndDrop(DropLinks(s, keys[..|keys| - 1]), keys[|keys| - 1]), keys[|keys| - 1])
  }

  // ---------------------------------------------------------------------------------------
  // Connections
  // ---------------------------------------------------------------------------------------

  /** What a pass over a capped map leaves, `stamps` being the age of each entry. */
  ghost function EvictOver<K(!new), V>(less: (K, K) -> bool, m: map<K, V>, stamps: map<K, nat>, cap: nat,
                             keep: set<K>): (r: map<K, V>)
    requires StrictTotal(less) && stamps.Keys == m.Keys && |keep| <= cap
    ensures |r| <= cap
    ensures forall k :: k in r ==> k in m && r[k] == m[k]
    ensures forall k :: k in m && k in keep ==> k in r
  {
    PassBounds(less, stamps, cap, keep);
    var victims := PassVictims(less, stamps, cap, keep);
    var gone := AsSet(victims);
    assert Drop(stamps, victims).Keys == stamps.Keys - gone;
    assert Drop(m, victims).Keys == m.Keys - gone;
    Drop(m, victims)
  }

  function ConnStamps(m: map<Cookie, ConnState>): map<Cookie, nat> { map k | k in m :: m[k].ts }
  function TlsStamps(m: map<Cookie, TlsInfo>): map<Cookie, nat> { map k | k in m :: m[k].ts }
  function LinkStamps(m: map<Key, FdLink>): map<Key, nat> { map k | k in m :: m[k].ts }
  function SlotStamps(m: map<Key, Slot>): map<Key, nat> { map k | k in m :: m[k].lastTs }
  function QueryStamps(m: map<(Cookie, nat), PendingQuery>): map<(Cookie, nat), nat> { map k | k in m :: m[k].queryTs }
  function ResolutionStamps(m: map<Dns.IpAddr, Resolution>): map<Dns.IpAddr, nat> { map k | k in m :: m[k].resolvedTs }
  function GaiStamps(m: map<string, Gai>): map<string, nat> { map k | k in m :: m[k].ts }

  /** A link another process still holds on this cookie: a dead connection's. */
  function StaleLink(s: State, e: EvtConnect): Option<Key> {
    if e.cookie in s.fdRev && s.fdRev[e.cookie].tgid != e.tgid && s.fdRev[e.cookie] in s.fdLinks then Some(s.fdRev[e.cookie]) else None
  }

  function ConnOf(e: EvtConnect): ConnState {
    ConnState(e.tgid, e.latency, SatSub(e.ts, e.latency), e.family, e.daddr, e.dport, e.failed)
  }

  /** Tear down the connection `key` was linked to as `cookie`. */
  function Disconnect(s: State, key: Key, cookie: Cookie): State {
    FlushAndDrop(s, key).(fdLinks := s.fdLinks - {key}, fdRev := s.fdRev - {cookie})
  }

  ghost function OnConnect(s: State, e: EvtConnect): State {
    var stale := StaleLink(s, e);
    var s1 := if stale.Some? then Disconnect(s, stale.value, e.cookie) else s;
    var conns := s1.conns[e.cookie := ConnOf(e)];
    KeyOrders();
    s1.(conns := EvictOver(CookieLess, conns, ConnStamps(conns), s.maxOpen, {e.cookie}), tls := s1.tls - {e.cookie})
  }

  /** The link a close may act on: its cookie's, unless a successor claimed it after the close. */
  function OwnLink(s: State, e: EvtClose): Option<Key> {
    match Get(s.fdRev, e.cookie)
    case None => None
    case Some(k) => if k !in s.fdLinks || e.ts == 0 || s.fdLinks[k].ts <= e.ts then Some(k) else None
  }

  predicate HoldsOpen(s: State, k: Key, cookie: Cookie) {
    k.fd == 0 && k in s.ops && s.ops[k].open.Some? && s.ops[k].open.value.cookie == Some(cookie)
  }

  predicate HoldsResidue(s: State, k: Key, cookie: Cookie) {
    k.fd == 0 && k in s.ops && s.ops[k].lastBio == Some(cookie)
  }

  /**
    The fallback slot a close reclaims: one with an op open for its cookie if there is any, else
    one last used by it. Which of several is the map's choice.
   */
  ghost predicate BioPick(s: State, cookie: Cookie, pick: Option<Key>) {
    if exists k :: k in s.ops && HoldsOpen(s, k, cookie) then pick.Some? && HoldsOpen(s, pick.value, cookie)
    else if exists k :: k in s.ops && HoldsResidue(s, k, cookie) then pick.Some? && HoldsResidue(s, pick.value, cookie)
    else pick.None?
  }

  function EndpointOf(c: Option<ConnState>): Option<Dns.IpAddr> {
    if c.Some? then Some(EndpointIp(c.value.family, c.value.daddr)) else None
  }

  /** The dns block of a connection, when its connect was seen. */
  function ConnDns(s: State, c: Option<ConnState>): Option<DnsBlock> {
    if c.Some? then DnsForIp(s, EndpointOf(c).value, c.value.ts) else None
  }

  /** The record of a connection from what was known of it. */
  function ConnectionFrom(e: EvtClose, c: Option<ConnState>, t: Option<TlsInfo>, dns: Option<DnsBlock>): Connection {
    Connection(
      if c.Some? then Some(c.value.ts) else None,
      e.cookie,
      if c.Some? then c.value.pid else 0,
      EndpointOf(c),
      if c.Some? then Some(c.value.dport) else None,
      dns,
      if c.Some? && !c.value.failed then NonZero(c.value.latency) else None,
      c.Some? && c.value.failed,
      t.Some? || e.handshakeUs != 0,
      if t.Some? && t.value.sni != "" then Some(t.value.sni) else None,
      if t.Some? then t.value.version else None,
      if t.Some? then t.value.cipher else None,
      c.None?)
  }

  function ConnectionOf(s: State, e: EvtClose): Connection {
    var c := Get(s.conns, e.cookie);
    ConnectionFrom(e, c, Get(s.tls, e.cookie), ConnDns(s, c))
  }

  /** The slot and link a close tears down. */
  function CloseSlot(s: State, e: EvtClose, pick: Option<Key>): State {
    var own := OwnLink(s, e);
    if own.Some? then Disconnect(s, own.value, e.cookie)
    else if e.cookie !in s.fdRev && pick.Some? then FlushAndDrop(s, pick.value)
    else s
  }

  function OnClose(s: State, e: EvtClose, pick: Option<Key>): State {
    var s1 := CloseSlot(s, e, pick);
    s1.(conns := s1.conns - {e.cookie}, tls := s1.tls - {e.cookie})
  }

  /** The reverse links once `key` is no longer claimed by the cookie it had. */
  function Unclaimed(s: State, key: Key, cookie: Cookie): map<Cookie, Key> {
    if key in s.fdLinks && s.fdLinks[key].cookie != cookie then s.fdRev - {s.fdLinks[key].cookie} else s.fdRev
  }

  /** The other key that held the cookie: a connection already dead. */
  function Displaced(s: State, key: Key, cookie: Cookie): Option<Key> {
    var rev := Unclaimed(s, key, cookie);
    if cookie in rev && rev[cookie] != key then Some(rev[cookie]) else None
  }

  function Bind(s: State, key: Key, link: FdLink): State {
    s.(fdLinks := s.fdLinks[key := link], fdRev := Unclaimed(s, key, link.cookie)[link.cookie := key])
  }

  /** The new link, with whatever it displaces. */
  function Relink(s: State, key: Key, link: FdLink): State {
    var s1, other := Bind(s, key, link), Displaced(s, key, link.cookie);
    if other.Some? then FlushAndDrop(s1, other.value).(fdLinks := s1.fdLinks - {other.value}) else s1
  }

  ghost function LinkVictims(s: State, key: Key): seq<Key> {
    KeyOrders();
    PassVictims(KeyLess, LinkStamps(s.fdLinks), s.maxOpen, {key})
  }

  ghost function OnConnId(s: State, e: EvtConnId): State {
    var key := Key(e.tgid, e.fd);
    var s1 := if key in s.ops then FlushAndDrop(s, key) else s;
    var s2 := Relink(s1, key, FdLink(e.cookie, e.ts));
    DropLinks(s2, LinkVictims(s2, key))
  }

  // ---------------------------------------------------------------------------------------
  // Plaintext
  // ---------------------------------------------------------------------------------------

  const FRESH_SLOT: Slot := Slot(0, None, 0, None)

  function SlotAt(s: State, key: Key): Slot { if key in s.ops then s.ops[key] else FRESH_SLOT }

  /** The kernel-inferred cookie of a client whose descriptor could not be resolved. */
  function BioCookie(e: EvtTlsData): Option<Cookie> {
    if e.fd == 0 && e.cookie != 0 then Some(e.cookie) else None
  }

  /** A new connection took over the fallback slot. */
  predicate BioChanged(slot: Slot, bio: Option<Cookie>) {
    bio.Some? && slot.lastBio.Some? && slot.lastBio != bio
  }

  /** The request's sequence number on its connection. */
  function NextSeq(slot: Slot, bio: Option<Cookie>): nat {
    if BioChanged(slot, bio) then 0 else slot.nextSeq
  }

  function HeadTruncated(e: EvtTlsData): bool { e.overflow && Http.HeaderEnd(e.data).None? }

  function ResolveRequest(s: State, key: Key, bio: Option<Cookie>, req: Http.RequestHead): Resolve.Resolved {
    var sni := match bio.Or(CookieForFd(s, key)) case None => None case Some(c) => if c in s.tls then Some(s.tls[c].sni) else None;
    Resolve.ResolveWith(req.method_, req.path, req.query, req.host.Or(sni), s.endpoints)
  }

  /** The op a request opens. */
  function NewOp(s: State, e: EvtTlsData, req: Http.RequestHead): OpenOp {
    var key, bio := Key(e.tgid, e.fd), BioCookie(e);
    var slot := SlotAt(s, key);
    var r := ResolveRequest(s, key, bio, req);
    OpenOp(s.opCounter + 1, e.ts, NextSeq(slot, bio), req.method_,
           if r.isS3 then Some(r.op) else None, r.bucket,
           (match r.key case None => None case Some(k) => Some(KeyHash(s.salt, k))),
           e.len, None, HeadTruncated(e),
           slot.open.Some? && slot.open.value.resp.None? && !BioChanged(slot, bio),
           None, bio)
  }

  /** The op a request interrupts, as it is emitted. */
  function Interrupted(s: State, key: Key, bio: Option<Cookie>): Option<Operation> {
    var slot := SlotAt(s, key);
    if slot.open.None? then None
    else
      var p := slot.open.value;
      if p.resp.Some? then Some(BuildOp(s, key, p, FactsOf(p.resp.value, None)))
      else Some(BuildOp(s, key, if BioChanged(slot, bio) then p else p.(ambiguous := true), NO_FACTS))
  }

  /** The slot after a request opened `op` on it. */
  function OpenedSlot(slot: Slot, op: OpenOp, bio: Option<Cookie>): Slot {
    Slot(op.reqSeq + 1, Some(op), op.ts, bio.Or(slot.lastBio))
  }

  ghost function SlotVictims(s: State, key: Key): seq<Key> {
    KeyOrders();
    PassVictims(KeyLess, SlotStamps(s.ops), s.maxOpen, {key})
  }

  ghost function OnTlsWrite(s: State, e: EvtTlsData): (State, Option<Operation>) {
    match Http.ParseRequest(e.data)
    case None => (if e.data != "" then s.(parseFailures := s.parseFailures + 1) else s, None)
    case Some(req) =>
      var key, bio := Key(e.tgid, e.fd), BioCookie(e);
      var op := NewOp(s, e, req);
      var s1 := s.(opCounter := s.opCounter + 1, ops := s.ops[key := OpenedSlot(SlotAt(s, key), op, bio)]);
      (DropSlots(s1, SlotVictims(s1, key)), Interrupted(s, key, bio))
  }

  /** An event naming another connection than the one whose op is open on the fallback slot. */
  predicate Foreign(s: State, key: Key, cookie: Cookie) {
    key.fd == 0 && cookie != 0 && OpenAt(s, key).Some?
    && OpenAt(s, key).value.cookie.Some? && OpenAt(s, key).value.cookie.value != cookie
  }

  function SetSlot(s: State, key: Key, slot: Slot): State { s.(ops := s.ops[key := slot]) }

  function Touch(s: State, key: Key, ts: nat): State {
    if key in s.ops then SetSlot(s, key, s.ops[key].(lastTs := ts)) else s
  }

  function SetOpen(s: State, key: Key, op: Option<OpenOp>): State
    requires key in s.ops
  {
    SetSlot(s, key, s.ops[key].(open := op))
  }

  /** Add body bytes to the op awaiting them, emitting it once its declared length is met. */
  function Tally(s: State, key: Key, ts: nat, len: nat): (State, Option<Operation>) {
    var s1 := Touch(s, key, ts);
    var op := OpenAt(s1, key);
    if op.None? || op.value.resp.None? then (s1, None)
    else
      var rs := op.value.resp.value;
      var seen := SatAdd(rs.bodySeen, len);
      if seen < rs.bodyTarget then
        (SetOpen(s1, key, Some(op.value.(resp := Some(rs.(bodySeen := seen))))), None)
      else
        (SetOpen(s1, key, None), Some(BuildOp(s1, key, op.value, FactsOf(rs, Some(ts)))))
  }

  predicate AwaitingBody(s: State, key: Key) {
    OpenAt(s, key).Some? && OpenAt(s, key).value.resp.Some?
    && OpenAt(s, key).value.resp.value.bodySeen < OpenAt(s, key).value.resp.value.bodyTarget
  }

  /** The first interim response is the op's first response byte. */
  function Interim(s: State, key: Key, ts: nat): State {
    var s1 := Touch(s, key, ts);
    var op := OpenAt(s1, key);
    if op.None? then s1 else SetOpen(s1, key, Some(op.value.(interimTs := op.value.interimTs.Or(Some(ts)))))
  }

  /** A final response head, as parsed. */
  datatype FinalHead = FinalHead(status: nat, requestId: Option<string>, contentLength: Option<nat>, headerEnd: Option<nat>,
                                 truncated: bool)

  function HeadOf(e: EvtTlsData, status: nat): FinalHead {
    FinalHead(status, Http.HeaderValue(e.data, "x-amz-request-id"), Http.ContentLength(e.data), Http.HeaderEnd(e.data), HeadTruncated(e))
  }

  /** Whether a body of known length follows this head. */
  predicate ExpectsBody(op: Option<OpenOp>, h: FinalHead) {
    && h.contentLength.Some? && h.contentLength.value > 0
    && !(op.Some? && Http.SameIgnoringCase(op.value.verb, "HEAD"))
    && h.status != 204 && h.status != 304
    && h.headerEnd.Some?
  }

  function FinalFacts(e: EvtTlsData, h: FinalHead, completeTs: Option<nat>): RespFacts {
    RespFacts(Some(h.status), h.requestId, e.len, h.truncated, Some(e.ts), completeTs, h.contentLength)
  }

  function Final(s: State, key: Key, e: EvtTlsData, h: FinalHead): (State, Option<Operation>) {
    var s1 := Touch(s, key, e.ts);
    var op := OpenAt(s1, key);
    if ExpectsBody(op, h) && SatSub(e.len, h.headerEnd.value) < h.contentLength.value then
      if op.None? then (s1, None)
      else
        var rs := RespState(e.ts, h.status, h.requestId, e.len, h.truncated, h.contentLength.value, SatSub(e.len, h.headerEnd.value));
        (SetOpen(s1, key, Some(op.value.(resp := Some(rs)))), None)
    else if op.None? then (s1, None)
    else
      var complete := if ExpectsBody(op, h) then Some(e.ts) else None;
      (SetOpen(s1, key, None), Some(BuildOp(s1, key, op.value, FinalFacts(e, h, complete))))
  }

  function OnTlsRead(s: State, e: EvtTlsData): (State, Option<Operation>) {
    var key := Key(e.tgid, e.fd);
    if Foreign(s, key, e.cookie) then (s, None)
    else if AwaitingBody(s, key) then Tally(s, key, e.ts, e.len)
    else
      match Http.ParseStatus(e.data)
      case None => (s, None)
      case Some(status) =>
        if status <= 199 then (Interim(s, key, e.ts), None) else Final(s, key, e, HeadOf(e, status))
  }

  function OnTlsReadBody(s: State, e: EvtTlsBody): (State, Option<Operation>) {
    var key := Key(e.tgid, e.fd);
    if Foreign(s, key, e.cookie) then (s, None) else Tally(s, key, e.ts, e.len)
  }

  // ---------------------------------------------------------------------------------------
  // Names
  // ---------------------------------------------------------------------------------------

  function TlsAt(s: State, cookie: Cookie, ts: nat): TlsInfo {
    if cookie in s.tls then s.tls[cookie] else TlsInfo("", ts, None, None)
  }

  ghost function SetTls(s: State, cookie: Cookie, info: TlsInfo): State
  {
    KeyOrders();
    var tls := s.tls[cookie := info];
    s.(tls := EvictOver(CookieLess, tls, TlsStamps(tls), s.maxOpen, {cookie}))
  }

  ghost function OnTlsHandshake(s: State, e: EvtHandshake): State
  {
    if e.truncated then s
    else
      match Dns.QnameStr(e.sni, e.sniLen)
      case None => s
      case Some(sni) => SetTls(s, e.cookie, TlsAt(s, e.cookie, e.ts).(sni := sni, ts := e.ts))
  }

  ghost function OnTlsServer(s: State, e: EvtServer): State
  {
    var t := TlsAt(s, e.cookie, e.ts);
    SetTls(s, e.cookie, t.(version := NonZero(e.version).Or(t.version), cipher := NonZero(e.cipher).Or(t.cipher)))
  }

  ghost function OnDnsQuery(s: State, e: EvtDnsQuery): State {
    if e.truncated then s
    else
      match Dns.QnameStr(e.qname, e.qnameLen)
      case None => s
      case Some(qname) =>
        KeyOrders();
        var m := s.pendingDns[(e.cookie, e.txnId) := PendingQuery(qname, e.ts)];
        s.(pendingDns := EvictOver(TxnLess, m, QueryStamps(m), DNS_MAP_CAP, {(e.cookie, e.txnId)}))
  }

  /** Every answered address now names the query; a repeated address keeps its last answer. */
  function Record(m: map<Dns.IpAddr, Resolution>, answers: seq<Dns.Answer>, r: Resolution): map<Dns.IpAddr,
                  Resolution> {
    if answers == [] then m
    else
      var a := answers[|answers| - 1];
      Record(m, answers[..|answers| - 1], r)[a.ip := r.(ttl := a.ttl)]
  }

  function AnswerIps(answers: seq<Dns.Answer>): set<Dns.IpAddr> { set a | a in answers :: a.ip }

  ghost function OnDnsResponse(s: State, e: EvtDnsResponse): State {
    match Dns.ParseResponse(e.payload)
    case None => s
    case Some(r) =>
      var key := (e.cookie, r.txnId);
      if r.qname.None? || key !in s.pendingDns || s.pendingDns[key].qname != r.qname.value then s
      else
        var q := s.pendingDns[key];
        var res := Resolution(q.qname, SatSub(e.ts, q.queryTs), 0, Min(|r.answers|, 255), q.queryTs, e.ts);
        var m := Record(s.resolutions, r.answers, res);
        AnswersBound(e.payload);
        KeyOrders();
        s.(pendingDns := s.pendingDns - {key},
           resolutions := EvictOver(IpLess, m, ResolutionStamps(m), DNS_MAP_CAP, AnswerIps(r.answers)))
  }

  lemma {:induction false} ReadAnswersCount(p: Dns.Bytes, off: nat, n: nat)
    ensures |Dns.ReadAnswers(p, off, n)| <= n
    decreases n
  {
    hide Dns.ReadRecord;
    if n != 0 && Dns.ReadRecord(p, off).Some? {
      ReadAnswersCount(p, Dns.ReadRecord(p, off).value.next, n - 1);
      OneAnswer(p, off);
    }
  }

  lemma OneAnswer(p: Dns.Bytes, off: nat)
    requires Dns.ReadRecord(p, off).Some?
    ensures |Dns.ReadRecord(p, off).value.answers| <= 1
  {
  }

  lemma {:induction false} IpsCount(answers: seq<Dns.Answer>)
    ensures |AnswerIps(answers)| <= |answers|
  {
    if answers != [] {
      var front, a := answers[..|answers| - 1], answers[|answers| - 1];
      IpsCount(front);
      assert AnswerIps(answers) == AnswerIps(front) + {a.ip} by {
        assert answers == front + [a];
      }
    }
  }

  /** A response can make at most 64 addresses fresh. */
  lemma AnswersBound(p: Dns.Bytes)
    ensures var r := Dns.ParseResponse(p);
            r.Some? ==> |AnswerIps(r.value.answers)| <= 64
  {
    hide Dns.ReadAnswers, Dns.ReadQname, Dns.SkipQuestions;
    if |p| >= Dns.DNS_HDR_LEN {
      var r := Dns.ParseResponse(p).value;
      IpsCount(r.answers);
      forall off: nat, n: nat ensures |Dns.ReadAnswers(p, off, n)| <= n {
        ReadAnswersCount(p, off, n);
      }
    }
  }

  /** Some wire lookup for `host` overlapped the call that ran from `start` to `exit`. */
  predicate SawWire(s: State, host: string, start: nat, exit: nat) {
    || (exists ip :: ip in s.resolutions && s.resolutions[ip].hostname == host
                     && s.resolutions[ip].queryTs <= exit && start <= s.resolutions[ip].resolvedTs)
    || (exists k :: k in s.pendingDns && s.pendingDns[k].qname == host && start <= s.pendingDns[k].queryTs <= exit)
  }

  ghost function OnGetaddrinfo(s: State, e: EvtGetaddrinfo): State {
    if e.ret != 0 || e.truncated then s
    else
      match Dns.QnameStr(e.host, e.hostLen)
      case None => s
      case Some(host) =>
        KeyOrders();
        var m := s.gai[host := Gai(e.latency, !SawWire(s, host, SatSub(e.ts, e.latency), e.ts), e.ts)];
        s.(gai := EvictOver(StringLess, m, GaiStamps(m), DNS_MAP_CAP, {host}))
  }
}
