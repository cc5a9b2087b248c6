/**
  What a record is joined to, over the lives of a recycled address. Each record is followed from the
  write that opened it to the fold that emitted it, and every fact it carries to the event it came from.
 */
module CorrelatorJoins {
  import opened Wrappers
  import opened Eviction
  import opened CorrelatorState
  import opened CorrelatorRuns
  import opened CorrelatorAttribution
  import opened CorrelatorFacts
  import opened CorrelatorEmission
  import opened CorrelatorLinks
  import opened CorrelatorRings
  import opened CorrelatorSlots
  import Http = HttpHead
  import Resolve = HttpResolve

  /** `r` is joined to the connection and the names `s` knew under the cookie of `op`, the request written on `k`. */
  predicate Joined(s: State, r: Operation, k: Key, op: OpenOp, cut: bool) {
    var conn := OpConn(s, k, op);
    && r.sockCookie == OpCookie(s, k, op).GetOr(0)
    && r.pid == (if conn.Some? then conn.value.pid else k.tgid)
    && r.bucket == OpSniBucket(s, k, op).Or(op.bucket)
    && r.dns == (if op.reqSeq > 0 then None else ConnDns(s, conn))
    && r.tcpConnectNs == (if op.reqSeq > 0 || conn.None? then None else NonZero(conn.value.latency))
    && (r.isPartial <==> conn.None? || op.headTruncated || cut)
  }

  /** A link that stands at `k` is of the last conn_id for `k` among `evs`. */
  ghost predicate LinkIsLast(s: State, evs: seq<Event>, k: Key) {
    CookieForFd(s, k).Some? ==> LastBound(evs, k).Some? && CookieForFd(s, k).value == LastBound(evs, k).value.cookie
  }

  /**
    `r` reports the request folded at `at`, is emitted by the fold at `n`, with no conn_id for its key in between,
    and is joined to what was known then.
   */
  ghost predicate JoinsAt(start: World, evs: seq<Event>, r: Operation, at: nat, n: nat) {
    && Reports(start, evs, r, at) && at < n < |evs|
    && var s, k := Ahead(start, evs, n), WriteKey(evs[at]);
       && EmittedAt(s, evs[n], r)
       && Joined(s, r, k, OpOf(Ahead(start, evs, at), evs[at]), CutHead(s, evs[n]))
       && LinkIsLast(s, evs[..at], k)
       && LastBound(evs[..n], k) == LastBound(evs[..at], k)
  }

  lemma BuiltJoined(s: State, r: Operation, k: Key, f: RespFacts, ambiguous: bool, op: OpenOp)
    requires Built(s, r, k, f, ambiguous) && SameRequest(OpenAt(s, k).value, op)
    ensures Joined(s, r, k, op, f.truncated)
  {
    hide DnsForIp, EndpointIp, Elapsed;
    var p := OpenAt(s, k).value.(ambiguous := ambiguous);
    assert OpCookie(s, k, p) == OpCookie(s, k, op);
  }

  lemma LinkKnown(w: World, evs: seq<Event>, start: World, k: Key)
    requires start.lastConn == map[] && w == After(start, evs) && LinksKnown(w.s.fdLinks, w.lastConn)
    ensures LinkIsLast(w.s, evs, k)
  {
    hide After;
    BoundsTrue(start, evs, k);
  }

  /** The record an open op is emitted in tells of the op's own origin. */
  lemma BuiltReports(start: World, evs: seq<Event>, r: Operation, k: Key, f: RespFacts,
                     ambiguous: bool) returns (at: nat)
    requires start.lastConn == map[]
    requires Attributed(After(start, evs)) && OriginsTrue(start, evs, After(start, evs).origins)
    requires Built(After(start, evs).s, r, k, f, ambiguous)
    ensures at < |evs| && Reports(start, evs, r, at) && WriteKey(evs[at]) == k
    ensures LinkIsLast(After(start, evs).s, evs[..at], k) && LastBound(evs, k) == LastBound(evs[..at], k)
    ensures SameRequest(OpenAt(After(start, evs).s, k).value, OpOf(Ahead(start, evs, at), evs[at]))
  {
    hide After, LogOk, OpOf, Http.ParseRequest, BuildOp, TellsOf, LinksKnown, LastBound;
    var w := After(start, evs);
    var op := OpenAt(w.s, k).value;
    BuildFaithful(w.s, k, op.(ambiguous := ambiguous), f, w.origins, w.lastConn);
    BuildId(w.s, k, op.(ambiguous := ambiguous), f);
    assert OriginTrue(start, evs, w.origins[op.id - 1]);
    at := w.origins[op.id - 1].at;
    LinkKnown(w, evs, start, k);
    BoundsTrue(start, evs, k);
  }

  lemma BuildId(s: State, k: Key, op: OpenOp, f: RespFacts)
    ensures BuildOp(s, k, op, f).id == op.id
  {
    hide DnsForIp, OpSniBucket, Elapsed, EndpointIp;
  }

  /** What the fold at `n` emits for the op open at `k` reports a request written on `k` before. */
  lemma JoinsFrom(start: World, evs: seq<Event>, r: Operation, n: nat, k: Key, f: RespFacts,
                  ambiguous: bool) returns (at: nat)
    requires start.lastConn == map[] && n < |evs|
    requires Attributed(After(start, evs[..n])) && OriginsTrue(start, evs[..n], After(start, evs[..n]).origins)
    requires EmittedAt(Ahead(start, evs, n), evs[n], r)
    requires Built(Ahead(start, evs, n), r, k, f, ambiguous) && f.truncated == CutHead(Ahead(start, evs, n), evs[n])
    ensures JoinsAt(start, evs, r, at, n) && WriteKey(evs[at]) == k
    ensures SameRequest(OpenAt(Ahead(start, evs, n), k).value, OpOf(Ahead(start, evs, at), evs[at]))
  {
    hide Attributed, OriginsTrue, After, EmittedAt, Built, CutHead, Joined, LinkIsLast, OpOf, TellsOf, LastBound, Opens;
    var s := Ahead(start, evs, n);
    at := BuiltReports(start, evs[..n], r, k, f, ambiguous);
    assert evs[..n][..at] == evs[..at];
    BuiltJoined(s, r, k, f, ambiguous, OpOf(Ahead(start, evs, at), evs[at]));
  }

  /** What is emitted by the fold at `n` reports a request folded before. */
  lemma JoinsWhere(start: World, evs: seq<Event>, r: Operation, n: nat) returns (at: nat)
    requires start.lastConn == map[] && n < |evs| && Good(Ahead(start, evs, n))
    requires Attributed(After(start, evs[..n])) && OriginsTrue(start, evs[..n], After(start, evs[..n]).origins)
    requires EmittedAt(Ahead(start, evs, n), evs[n], r)
    ensures JoinsAt(start, evs, r, at, n)
  {
    hide Good, Attributed, OriginsTrue, After, EmittedAt, Built, CutHead, JoinsAt;
    var s := Ahead(start, evs, n);
    EmittedBuilt(s, evs[n], r);
    var k, f, ambiguous :| Built(s, r, k, f, ambiguous) && f.truncated == CutHead(s, evs[n]);
    at := JoinsFrom(start, evs, r, n, k, f, ambiguous);
  }

  /**
    Every record ever emitted: there is the request it reports, and after it the fold that emits it.
    Process, connect time, dns block, bucket and the partial flag are what was known, ahead of that
    fold, under the request's cookie: the one it came with, else the one its descriptor's link still
    named, which is then that of the last conn_id before the request.
   */
  lemma EveryRecordJoins(maxOpen: nat, endpoints: seq<string>, salt: string, evs: seq<Event>, r: Operation)
    returns (at: nat, n: nat)
    requires Emitted(After(Start(maxOpen, endpoints, salt), evs), r)
    ensures JoinsAt(Start(maxOpen, endpoints, salt), evs, r, at, n)
  {
    hide Good, Attributed, OriginsTrue, After, EmittedAt, JoinsAt;
    var start := Start(maxOpen, endpoints, salt);
    GoodInit(maxOpen, endpoints, salt);
    n := EmittedSomewhere(start, evs, r);
    GoodAlways(maxOpen, endpoints, salt, evs[..n]);
    AlwaysAttributed(maxOpen, endpoints, salt, evs[..n]);
    AlwaysTrue(maxOpen, endpoints, salt, evs[..n]);
    at := JoinsWhere(start, evs, r, n);
  }

  // ---------------------------------------------------------------------------------------
  // Lives
  // ---------------------------------------------------------------------------------------

  /** The connection that really produced `evs[j]`, an event of the ring `log` traces. */
  function LifeOf(evs: seq<Event>, log: seq<Traced>, ring: Ring, j: nat): nat
    requires j < |evs| && OnRing(evs[j], ring) && Carries(log, Part(evs, ring))
  {
    PlaceOnRing(evs, log, j, ring);
    log[|Part(evs[..j], ring)|].life
  }

  /**
    Ahead of the fold at `n`, `life` was the last to announce itself under `c`: its connect was folded, and no
    connect or close of `c` since.
   */
  ghost predicate Connected(evs: seq<Event>, log: seq<Traced>, n: nat, c: Cookie, life: nat)
    requires n <= |evs| && Carries(log, Part(evs, Events))
  {
    exists m: nat :: m < n && Connects(evs[m], c) && NoneEnds(evs[..n], c, m + 1) && LifeOf(evs, log, Events, m) == life
  }

  /**
    Ahead of the fold at `n`, `life` was the last to tell a name under `c`, since which no connect or close of
    `c` was folded.
   */
  ghost predicate Named(evs: seq<Event>, log: seq<Traced>, n: nat, c: Cookie, life: nat)
    requires n <= |evs| && Carries(log, Part(evs, Events))
  {
    exists h: nat :: h < n && Told(evs[h], c).Some? && NoneEnds(evs[..n], c, h) && NoneTell(evs[..n], c, h + 1)
                     && LifeOf(evs, log, Events, h) == life
  }

  predicate NoneTell(evs: seq<Event>, c: Cookie, lo: nat) {
    forall j :: lo <= j < |evs| ==> Told(evs[j], c).None?
  }

  /** The facts `r` takes from a connect: its process, and for a first request the setup it paid for. */
  predicate OfConnect(s: State, r: Operation, e: EvtConnect) {
    && r.pid == e.tgid
    && (r.reqSeq == 0 ==>
          && r.tcpConnectNs == NonZero(e.latency)
          && r.dns == DnsForIp(s, EndpointIp(e.family, e.daddr), SatSub(e.ts, e.latency)))
  }

  /** The connection kept under `c` is the last life's to announce itself. */
  lemma ConnectLife(evs: seq<Event>, log: seq<Traced>, n: nat, c: Cookie, life: nat)
    requires n <= |evs| && Carries(log, Part(evs, Events)) && LatestConnect(evs[..n], c).Some?
    ensures LifeOf(evs, log, Events, LatestConnect(evs[..n], c).value) == life <==> Connected(evs, log, n, c, life)
  {
    hide LifeOf, LatestConnect;
    forall m: nat | m < n && Connects(evs[m], c) && NoneEnds(evs[..n], c, m + 1) ensures LatestConnect(evs[..n], c) == Some(m) {
      LatestIsLast(evs[..n], c, m);
    }
  }

  /** The name kept under `c` is of the last life to tell one. */
  lemma HelloLife(evs: seq<Event>, log: seq<Traced>, n: nat, c: Cookie, life: nat)
    requires n <= |evs| && Carries(log, Part(evs, Events)) && LatestHello(evs[..n], c).Some?
    ensures LifeOf(evs, log, Events, LatestHello(evs[..n], c).value) == life <==> Named(evs, log, n, c, life)
  {
    hide LifeOf, LatestHello, Told;
    HelloIsLast(evs[..n], c);
    forall h: nat | h < n && Told(evs[h], c).Some? && NoneEnds(evs[..n], c, h) && NoneTell(evs[..n], c, h + 1)
      ensures LatestHello(evs[..n], c) == Some(h)
    {
      LatestIsLast(evs[..n], c, h);
    }
  }

  lemma {:induction false} HelloIsLast(evs: seq<Event>, c: Cookie)
    ensures LatestHello(evs, c).Some? ==> NoneTell(evs, c, LatestHello(evs, c).value + 1)
  {
    hide Told;
    if evs != [] {
      HelloIsLast(evs[..|evs| - 1], c);
    }
  }

  /**
    What `r` takes from `c`, and of whose life, ahead of the fold at `n`. `asked` is the bucket the request
    itself named.
   */
  ghost predicate KeptOf(s: State, evs: seq<Event>, log: seq<Traced>, n: nat, r: Operation, asked: Option<string>,
                         c: Cookie, life: nat)
    requires n <= |evs| && Carries(log, Part(evs, Events))
  {
    && (c in s.conns ==>
          && LatestConnect(evs[..n], c).Some?
          && OfConnect(s, r, evs[LatestConnect(evs[..n], c).value].connect)
          && (LifeOf(evs, log, Events, LatestConnect(evs[..n], c).value) == life <==> Connected(evs, log, n, c, life)))
    && (c in s.tls && s.tls[c].sni != "" ==>
          && LatestHello(evs[..n], c).Some?
          && r.bucket == Resolve.BucketFromHost(Told(evs[LatestHello(evs[..n], c).value], c).value).Or(asked)
          && (LifeOf(evs, log, Events, LatestHello(evs[..n], c).value) == life <==> Named(evs, log, n, c, life)))
  }

  lemma KeptLives(s: State, evs: seq<Event>, log: seq<Traced>, n: nat, r: Operation, k: Key, op: OpenOp, cut: bool,
                  life: nat)
    requires n <= |evs| && Carries(log, Part(evs, Events)) && Latest(s, evs[..n], r.sockCookie)
    requires Joined(s, r, k, op, cut) && r.sockCookie != 0 && r.reqSeq == op.reqSeq
    ensures KeptOf(s, evs, log, n, r, op.bucket, r.sockCookie, life)
  {
    hide LifeOf, LatestConnect, LatestHello, Connected, Named, Told, DnsForIp, EndpointIp, Resolve.BucketFromHost;
    var c := r.sockCookie;
    if c in s.conns {
      ConnectLife(evs, log, n, c, life);
    }
    if c in s.tls && s.tls[c].sni != "" {
      HelloLife(evs, log, n, c, life);
    }
  }

  /**
    Whose facts a record carries, both rings traced. Under its cookie, process, connect time and dns
    endpoint are those of the last connect folded ahead of the record's emission, and the name behind
    its bucket is the last hello's: of the life that wrote the request exactly when that life's own
    connect, or hello, was folded by then, and no connect or close of the address after it.
   */
  lemma JoinedLife(maxOpen: nat, endpoints: seq<string>, salt: string, evs: seq<Event>, tlsLog: seq<Traced>,
                   log: seq<Traced>,
                   r: Operation)
    returns (at: nat, n: nat, i: nat)
    requires Carries(tlsLog, Part(evs, TlsEvents)) && Carries(log, Part(evs, Events))
    requires Emitted(After(Start(maxOpen, endpoints, salt), evs), r)
    ensures JoinsAt(Start(maxOpen, endpoints, salt), evs, r, at, n)
    ensures i < |tlsLog| && tlsLog[i].ev == evs[at]
    ensures r.sockCookie != 0 ==>
              var start := Start(maxOpen, endpoints, salt);
              KeptOf(Ahead(start, evs, n), evs, log, n, r, OpOf(Ahead(start, evs, at), evs[at]).bucket, r.sockCookie, tlsLog[i].life)
  {
    hide Start, After, Joined, KeptOf, Latest, Good, EmittedAt, CutHead, OpOf, LastBound, LinkIsLast, Carries, OnRing;
    var start := Start(maxOpen, endpoints, salt);
    at, n := EveryRecordJoins(maxOpen, endpoints, salt, evs, r);
    i := |Part(evs[..at], TlsEvents)|;
    WriteOnRing(evs[at]);
    PlaceOnRing(evs, tlsLog, at, TlsEvents);
    if r.sockCookie != 0 {
      FactsFromStart(maxOpen, endpoints, salt, evs[..n], r.sockCookie);
      KeptLives(Ahead(start, evs, n), evs, log, n, r, WriteKey(evs[at]), OpOf(Ahead(start, evs, at), evs[at]),
                CutHead(Ahead(start, evs, n), evs[n]), tlsLog[i].life);
    }
  }

  lemma WriteOnRing(ev: Event)
    requires Opens(ev)
    ensures OnRing(ev, TlsEvents)
  {
    hide Http.ParseRequest;
  }

  lemma FactsFromStart(maxOpen: nat, endpoints: seq<string>, salt: string, evs: seq<Event>, c: Cookie)
    ensures Latest(After(Start(maxOpen, endpoints, salt), evs).s, evs, c)
  {
    hide After, Latest, Good;
    GoodInit(maxOpen, endpoints, salt);
    FactsAreLatest(Start(maxOpen, endpoints, salt), evs, c);
  }

  /** The record carries the cookie of a connection other than the one that wrote its request. */
  predicate Misjoined(log: seq<Traced>, i: nat, k: Key, r: Operation)
    requires i < |log|
  {
    r.sockCookie != 0 && !FromLastConnect(log, i, k)
  }

  /** The conn_id ahead of the write at `at`, as the ring has it. */
  lemma BoundLife(evs: seq<Event>, log: seq<Traced>, at: nat, i: nat, k: Key)
    requires at < |evs| && i == |Part(evs[..at], TlsEvents)| && i < |log|
    requires OnRing(evs[at], TlsEvents) && Carries(log, Part(evs, TlsEvents)) && LastBound(evs[..at], k).Some?
    ensures var b := LastBound(evs[..at], k).value.at;
            b < at && evs[b].ConnId?
            && (FromLastConnect(log, i, k)
                <==> LifeOf(evs, log, TlsEvents, b) == LifeOf(evs, log, TlsEvents, at))
  {
    hide LastBound, LastConnect;
    PlaceOnRing(evs, log, at, TlsEvents);
    LastBoundOnRing(evs[..at], log[..i], k);
    var b := LastBound(evs[..at], k).value.at;
    assert evs[..at][..b] == evs[..b];
    BoundIsConnId(evs[..at], k);
    PlaceOnRing(evs, log, b, TlsEvents);
  }

  lemma {:induction false} BoundIsConnId(evs: seq<Event>, k: Key)
    ensures var b := LastBound(evs, k); b.Some? ==> b.value.at < |evs| && Announces(evs[b.value.at], k)
  {
    if evs != [] {
      BoundIsConnId(evs[..|evs| - 1], k);
    }
  }

  /** `r`, of the write at `at`, carries the cookie of the conn_id that links its descriptor still at `n`, or none. */
  ghost predicate CarriesLink(start: World, evs: seq<Event>, r: Operation, at: nat, n: nat)
    requires at < |evs| && n <= |evs| && evs[at].TlsWrite?
  {
    var b := Linker(start, evs[..n], WriteKey(evs[at]));
    && r.sockCookie == (if b.Some? then evs[b.value].connId.cookie else 0)
    && (b.Some? ==> b.value < at)
  }

  lemma LinkCarried(maxOpen: nat, endpoints: seq<string>, salt: string, evs: seq<Event>, r: Operation, at: nat, n: nat)
    requires JoinsAt(Start(maxOpen, endpoints, salt), evs, r, at, n) && WriteKey(evs[at]).fd != 0
    ensures CarriesLink(Start(maxOpen, endpoints, salt), evs, r, at, n)
    ensures var b := Linker(Start(maxOpen, endpoints, salt), evs[..n], WriteKey(evs[at]));
            b.Some? ==> LastBound(evs[..at], WriteKey(evs[at])) == Some(Bound(b.value, evs[b.value].connId.cookie))
  {
    hide Start, After, Good, EmittedAt, CutHead, LastBound;
    var start, k := Start(maxOpen, endpoints, salt), WriteKey(evs[at]);
    DescriptorOp(Ahead(start, evs, at), evs[at]);
    Unlinked(maxOpen, endpoints, salt);
    LinkStands(start, evs[..n], k);
    LinkerIsLast(start, evs[..n], k);
    BoundInRange(evs[..at], k);
  }

  /**
    On a descriptor a record carries the cookie of the conn_id that linked the descriptor, if nothing has
    disturbed the link when the record is emitted, and otherwise none. That conn_id is ahead of the request, and
    the record is misjoined exactly when it is another connection's.
   */
  lemma MisjoinedExactly(maxOpen: nat, endpoints: seq<string>, salt: string, evs: seq<Event>, log: seq<Traced>,
                         r: Operation)
    returns (at: nat, n: nat, i: nat)
    requires Carries(log, Part(evs, TlsEvents))
    requires Emitted(After(Start(maxOpen, endpoints, salt), evs), r)
    ensures JoinsAt(Start(maxOpen, endpoints, salt), evs, r, at, n)
    ensures i < |log| && log[i].ev == evs[at]
    ensures WriteKey(evs[at]).fd != 0 ==>
              var start, k := Start(maxOpen, endpoints, salt), WriteKey(evs[at]);
              && CarriesLink(start, evs, r, at, n)
              && (Misjoined(log, i, k, r)
                  <==> r.sockCookie != 0 && LifeOf(evs, log, TlsEvents, Linker(start, evs[..n], k).value) != log[i].life)
  {
    hide Start, After, Good, EmittedAt, CutHead, LastBound, LastConnect, FromLastConnect, Joined, LinkIsLast, OpOf,
      TellsOf;
    var start := Start(maxOpen, endpoints, salt);
    at, n := EveryRecordJoins(maxOpen, endpoints, salt, evs, r);
    var k := WriteKey(evs[at]);
    i := |Part(evs[..at], TlsEvents)|;
    PlaceOnRing(evs, log, at, TlsEvents);
    if k.fd != 0 {
      LinkCarried(maxOpen, endpoints, salt, evs, r, at, n);
      if Linker(start, evs[..n], k).Some? {
        BoundLife(evs, log, at, i, k);
      }
    }
  }

  lemma Unlinked(maxOpen: nat, endpoints: seq<string>, salt: string)
    ensures Good(Start(maxOpen, endpoints, salt).s) && Start(maxOpen, endpoints, salt).s.fdLinks == map[]
  {
    GoodInit(maxOpen, endpoints, salt);
  }

  // ---------------------------------------------------------------------------------------
  // Where a join goes wrong
  // ---------------------------------------------------------------------------------------

  /** A whole request on a descriptor, and its whole final response head, with no body to wait for. */
  predicate Exchange(write: EvtTlsData, read: EvtTlsData) {
    && read.tgid == write.tgid && read.fd == write.fd && write.fd != 0
    && Http.ParseRequest(write.data).Some? && !HeadTruncated(write)
    && Http.ParseStatus(read.data).Some? && Http.ParseStatus(read.data).value > 199
    && Http.ContentLength(read.data).None? && !HeadTruncated(read)
  }

  /** The record of an exchange that is the first on its descriptor. */
  lemma Answered(s: State, write: EvtTlsData, read: EvtTlsData)
    requires Exchange(write, read) && Key(write.tgid, write.fd) !in s.ops
    ensures var k, (s1, out) := Key(write.tgid, write.fd), OnTlsWrite(s, write);
            && out == None
            && OnTlsRead(s1, read).1.Some?
            && Joined(s, OnTlsRead(s1, read).1.value, k, NewOp(s, write, Http.ParseRequest(write.data).value), false)
            && OnTlsRead(s1, read).1.value.reqSeq == 0
  {
    hide Http.ParseRequest, Http.ParseStatus, Http.ContentLength, Http.HeaderEnd, ResolveRequest, DropSlots,
      SlotVictims, BuildOp, DnsForIp,
      EndpointIp, Elapsed, Touch, SetOpen, HeadTruncated, Joined, FactsKept, OnTlsWrite, Interim, Tally, OpCookie, OpConn, OpSniBucket;
    var k, req := Key(write.tgid, write.fd), Http.ParseRequest(write.data).value;
    var s1, op := OnTlsWrite(s, write).0, NewOp(s, write, req);
    WriteOpens(s, write, req);
    NothingInterrupted(s, write);
    WriteKeeps(s, write);
    WriteLinks(s, write);
    TouchSlot(s1, k, read.ts);
    var h := HeadOf(read, Http.ParseStatus(read.data).value);
    TouchBuilt(s1, k, read.ts, FinalFacts(read, h, None));
    SameRecord(s, s1, k, read.ts, op, FinalFacts(read, h, None));
  }

  lemma NothingInterrupted(s: State, write: EvtTlsData)
    requires Http.ParseRequest(write.data).Some? && Key(write.tgid, write.fd) !in s.ops
    ensures OnTlsWrite(s, write).1 == None
  {
    hide NewOp, SlotVictims, DropSlots, Http.ParseRequest, BioCookie, OpenedSlot, BuildOp;
  }

  lemma SameRecord(s: State, s1: State, k: Key, ts: nat, op: OpenOp, f: RespFacts)
    requires FactsKept(s, s1) && s1.fdLinks == s.fdLinks
    ensures var r := BuildOp(Touch(s1, k, ts), k, op, f); r.reqSeq == op.reqSeq && Joined(s, r, k, op, f.truncated)
  {
    hide DnsForIp, EndpointIp, Elapsed, Joined;
    BuildSame(s, Touch(s1, k, ts), k, op, f);
    BuildIsJoined(s, k, op, f);
  }

  lemma BuildIsJoined(s: State, k: Key, op: OpenOp, f: RespFacts)
    ensures var r := BuildOp(s, k, op, f); r.reqSeq == op.reqSeq && Joined(s, r, k, op, f.truncated)
  {
    hide DnsForIp, EndpointIp, Elapsed;
  }

  /** The state in which a connect and a conn_id of one cookie have been folded, and nothing else. */
  ghost predicate JustConnected(s: State, e: EvtConnect, k: Key) {
    && s.conns == map[e.cookie := ConnOf(e)]
    && CookieForFd(s, k) == Some(e.cookie)
    && s.ops == map[] && s.tls == map[] && s.resolutions == map[]
  }

  lemma OneLeft<V>(m: map<Cookie, V>, c: Cookie, v: V)
    requires c in m && m[c] == v && forall k :: k in m ==> k == c
    ensures m == map[c := v]
  {
  }

  lemma ConnectFirst(s: State, e: EvtConnect)
    requires s.conns == map[] && s.tls == map[] && s.fdRev == map[]
    ensures OnConnect(s, e) == s.(conns := map[e.cookie := ConnOf(e)])
  {
    hide EvictOver, ConnStamps, ConnOf, Disconnect;
    var one := map[e.cookie := ConnOf(e)];
    assert s.conns[e.cookie := ConnOf(e)] == one;
    KeyOrders();
    hide StrictTotal;
    OneLeft(OnConnect(s, e).conns, e.cookie, ConnOf(e));
  }

  lemma ConnIdFirst(s: State, id: EvtConnId)
    requires Good(s) && s.ops == map[]
    ensures var s' := OnConnId(s, id);
            CookieForFd(s', Key(id.tgid, id.fd)) == Some(id.cookie) && s'.ops == map[] && FactsKept(s, s')
  {
    ConnIdKeeps(s, id);
    hide FlushAndDrop, Relink, DropLinks, Inverse, FactsKept;
    var s2, k := Relinked(s, id), Key(id.tgid, id.fd);
    RelinkedFrame(s, id);
    DropLinksFrame(s2, LinkVictims(s2, k));
    KeyOrders();
  }

  lemma Connecting(maxOpen: nat, endpoints: seq<string>, salt: string, e: EvtConnect, id: EvtConnId)
    requires id.cookie == e.cookie
    ensures JustConnected(After(Start(maxOpen, endpoints, salt), [Connect(e), ConnId(id)]).s, e, Key(id.tgid, id.fd))
    ensures After(Start(maxOpen, endpoints, salt), [Connect(e), ConnId(id)]).returned == []
  {
    hide OnConnect, OnConnId, Good, CookieForFd, After;
    var start := Start(maxOpen, endpoints, salt);
    assert [] + [Connect(e)] == [Connect(e)] && [Connect(e)] + [ConnId(id)] == [Connect(e), ConnId(id)];
    Nothing(start);
    NextState(start, [], Connect(e));
    NextReturned(start, [], Connect(e));
    ConnectFirst(start.s, e);
    GoodAlways(maxOpen, endpoints, salt, [Connect(e)]);
    NextState(start, [Connect(e)], ConnId(id));
    NextReturned(start, [Connect(e)], ConnId(id));
    ConnIdFirst(After(start, [Connect(e)]).s, id);
  }

  lemma Nothing(w: World)
    ensures After(w, []) == w
  {
    hide Advance;
  }

  lemma JustConnectedJoins(s: State, e: EvtConnect, k: Key, op: OpenOp, r: Operation)
    requires JustConnected(s, e, k) && Joined(s, r, k, op, false) && op.cookie.None? && op.reqSeq == 0 && !op.headTruncated
    ensures r.sockCookie == e.cookie && r.pid == e.tgid && r.tcpConnectNs == NonZero(e.latency) && !r.isPartial
  {
    hide DnsForIp, EndpointIp;
  }

  lemma FirstOnDescriptor(s: State, write: EvtTlsData)
    requires write.fd != 0 && Http.ParseRequest(write.data).Some? && Key(write.tgid, write.fd) !in s.ops
    ensures var op := NewOp(s, write, Http.ParseRequest(write.data).value);
            op.cookie.None? && op.reqSeq == 0 && op.headTruncated == HeadTruncated(write)
  {
    hide ResolveRequest, HeadTruncated, Http.ParseRequest;
  }

  /** An exchange that is the first on its descriptor returns one record, joined to what was known ahead of it. */
  lemma ExchangeReturns(w: World, run: seq<Event>, write: EvtTlsData, read: EvtTlsData) returns (r: Operation)
    requires Exchange(write, read) && Key(write.tgid, write.fd) !in After(w, run).s.ops
    ensures After(w, run + [TlsWrite(write)] + [TlsRead(read)]).returned == After(w, run).returned + [r]
    ensures var op := NewOp(After(w, run).s, write, Http.ParseRequest(write.data).value);
            && Joined(After(w, run).s, r, Key(write.tgid, write.fd), op, false) && r.reqSeq == op.reqSeq
            && op.cookie.None? && op.reqSeq == 0 && !op.headTruncated
  {
    var s := After(w, run).s;
    hide After, Http.ParseRequest, Http.ParseStatus, Http.ContentLength, HeadTruncated, NewOp, OnTlsWrite, OnTlsRead,
      Joined;
    Answered(s, write, read);
    FirstOnDescriptor(s, write);
    NextState(w, run, TlsWrite(write));
    NextReturned(w, run, TlsWrite(write));
    NextReturned(w, run + [TlsWrite(write)], TlsRead(read));
    r := OnTlsRead(OnTlsWrite(s, write).0, read).1.value;
  }

  /** A write behind one conn_id of its key is of that conn_id's connection exactly when their lives are the same. */
  lemma BehindOne(id: EvtConnId, write: EvtTlsData, a: nat, b: nat)
    ensures FromLastConnect([Traced(ConnId(id), a), Traced(TlsWrite(write), b)], 1, Key(id.tgid, id.fd)) <==> a == b
  {
    var log := [Traced(ConnId(id), a), Traced(TlsWrite(write), b)];
    assert log[..1] == [Traced(ConnId(id), a)];
    assert LastConnect(log[..1], Key(id.tgid, id.fd)) == Some(0);
  }

  /**
    A recycled address. One life of the cookie connects, and its close is lost, or not yet folded. Then the next
    life's conn_id is folded, but not its connect, which is lost or comes after the response; or its conn_id is
    lost too and the one folded is the earlier life's. Either way the record of the next life's first request has the earlier
    life's process and connect time, and is not marked partial. One process may have lived both.
   */
  lemma RecycledAddress(maxOpen: nat, endpoints: seq<string>, salt: string, e: EvtConnect, id: EvtConnId,
                        write: EvtTlsData, read: EvtTlsData, earlier: nat, later: nat)
    returns (r: Operation)
    requires Exchange(write, read) && id.tgid == write.tgid && id.fd == write.fd && id.cookie == e.cookie && e.cookie != 0
    ensures After(Start(maxOpen, endpoints, salt), [Connect(e), ConnId(id), TlsWrite(write), TlsRead(read)]).returned == [r]
    ensures r.sockCookie == e.cookie && r.pid == e.tgid && r.tcpConnectNs == NonZero(e.latency) && !r.isPartial
    ensures var k := Key(id.tgid, id.fd);
            && FromLastConnect([Traced(ConnId(id), later), Traced(TlsWrite(write), later)], 1, k)
            && (earlier != later ==> Misjoined([Traced(ConnId(id), earlier), Traced(TlsWrite(write), later)], 1, k, r))
  {
    hide Start, After, HeadTruncated, Http.ParseRequest, Http.ParseStatus, Http.ContentLength, Joined, JustConnected,
      NewOp, FromLastConnect;
    var start, k := Start(maxOpen, endpoints, salt), Key(id.tgid, id.fd);
    var run := [Connect(e), ConnId(id)];
    Connecting(maxOpen, endpoints, salt, e, id);
    NoOps(After(start, run).s, e, k);
    assert run + [TlsWrite(write)] + [TlsRead(read)] == [Connect(e), ConnId(id), TlsWrite(write), TlsRead(read)];
    r := ExchangeReturns(start, run, write, read);
    JustConnectedJoins(After(start, run).s, e, k, NewOp(After(start, run).s, write, Http.ParseRequest(write.data).value), r);
    BehindOne(id, write, later, later);
    BehindOne(id, write, earlier, later);
  }

  lemma NoOps(s: State, e: EvtConnect, k: Key)
    requires JustConnected(s, e, k)
    ensures k !in s.ops
  {
  }
}
