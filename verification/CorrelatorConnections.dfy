/**
  A connection's record, from events alone: the connect, the hellos and the close it is made of, and what
  an eviction takes away.
 */
module CorrelatorConnections {
  import opened Wrappers
  import opened Eviction
  import opened CorrelatorState
  import opened CorrelatorRuns
  import opened CorrelatorFacts
  import opened CorrelatorJoins
  import Dns = DnsNames

  // ---------------------------------------------------------------------------------------
  // What the hellos told
  // ---------------------------------------------------------------------------------------

  datatype Fact = Name | Version | Cipher

  /** The event tells that fact of `c`: a whole hello its name, what a server chose if not 0. */
  predicate Tells(ev: Event, c: Cookie, fact: Fact) {
    match fact
    case Name => Told(ev, c).Some?
    case Version => ev.Server? && ev.server.cookie == c && ev.server.version != 0
    case Cipher => ev.Server? && ev.server.cookie == c && ev.server.cipher != 0
  }

  /** `evs[p]` is the last to tell the fact of `c`, and the entry of `c` was there ever since. */
  ghost predicate LastTold(start: World, evs: seq<Event>, c: Cookie, fact: Fact, p: nat) {
    && p < |evs| && Tells(evs[p], c, fact)
    && (forall j :: p < j < |evs| ==> !Tells(evs[j], c, fact))
    && (forall j :: p < j <= |evs| ==> c in Ahead(start, evs, j).tls)
  }

  ghost function Teller(start: World, evs: seq<Event>, c: Cookie, fact: Fact): (p: Option<nat>)
    ensures p.Some? ==> p.value < |evs| && Tells(evs[p.value], c, fact)
  {
    if evs == [] || c !in After(start, evs).s.tls then None
    else if Tells(evs[|evs| - 1], c, fact) then Some(|evs| - 1)
    else Teller(start, evs[..|evs| - 1], c, fact)
  }

  lemma ToldNext(start: World, front: seq<Event>, ev: Event, c: Cookie, fact: Fact, p: nat)
    ensures LastTold(start, front + [ev], c, fact, p)
       <==> c in After(start, front + [ev]).s.tls
            && (if p == |front| then Tells(ev, c, fact) else LastTold(start, front, c, fact, p) && !Tells(ev, c, fact))
  {
    hide After, Tells;
    var evs := front + [ev];
    assert evs[..|evs|] == evs;
    assert forall j :: 0 <= j < |front| ==> evs[j] == front[j];
    forall j: nat | j <= |front| ensures Ahead(start, evs, j) == Ahead(start, front, j) {
      assert evs[..j] == front[..j];
    }
    if p < |front| && LastTold(start, front, c, fact, p) && !Tells(ev, c, fact) && c in After(start, evs).s.tls {
      forall j | p < j <= |evs| ensures c in Ahead(start, evs, j).tls {
        assert j <= |front| ==> c in Ahead(start, front, j).tls;
      }
    }
    if p < |front| && LastTold(start, evs, c, fact, p) {
      assert !Tells(evs[|front|], c, fact) && c in Ahead(start, evs, |evs|).tls;
      forall j | p < j <= |front| ensures c in Ahead(start, front, j).tls {
        assert c in Ahead(start, evs, j).tls;
      }
    }
    if p == |front| && LastTold(start, evs, c, fact, p) {
      assert c in Ahead(start, evs, |evs|).tls;
    }
  }

  lemma {:induction false} TellerIs(start: World, evs: seq<Event>, c: Cookie, fact: Fact, p: nat)
    ensures Teller(start, evs, c, fact) == Some(p) <==> LastTold(start, evs, c, fact, p)
  {
    hide After, Tells;
    if evs != [] {
      var front, ev := evs[..|evs| - 1], evs[|evs| - 1];
      assert evs == front + [ev];
      TellerIs(start, front, c, fact, p);
      ToldNext(start, front, ev, c, fact, p);
    }
  }

  // ---------------------------------------------------------------------------------------
  // One fold
  // ---------------------------------------------------------------------------------------

  /** What is kept of `c` after an event, from what was before. */
  predicate TlsFollows(s: State, s': State, ev: Event, c: Cookie) {
    c in s'.tls ==>
      && (c in s.tls || Tells(ev, c, Name) || (ev.Server? && ev.server.cookie == c))
      && s'.tls[c].sni == (if Tells(ev, c, Name) then Told(ev, c).value else if c in s.tls then s.tls[c].sni else "")
      && s'.tls[c].version == (if Tells(ev, c, Version) then Some(ev.server.version) else if c in s.tls then s.tls[c].version else None)
      && s'.tls[c].cipher == (if Tells(ev, c, Cipher) then Some(ev.server.cipher) else if c in s.tls then s.tls[c].cipher else None)
  }

  lemma FewerFollows(s: State, s': State, ev: Event, c: Cookie)
    requires Within(s'.tls, s.tls) && !ev.Handshake? && !ev.Server?
    ensures TlsFollows(s, s', ev, c)
  {
  }

  lemma ConnectTls(s: State, e: EvtConnect)
    ensures Within(OnConnect(s, e).tls, s.tls)
  {
    hide FlushedWith, EvictOver, ConnStamps, StaleLink, ConnOf;
  }

  lemma CloseTls(s: State, e: EvtClose, pick: Option<Key>)
    ensures Within(OnClose(s, e, pick).tls, s.tls)
  {
    hide CloseSlot;
    CloseFrame(s, e, pick);
  }

  lemma QueryTls(s: State, e: EvtDnsQuery)
    ensures OnDnsQuery(s, e).tls == s.tls
  {
    hide EvictOver, Dns.QnameStr, QueryStamps, StrictTotal;
  }

  lemma ResponseTls(s: State, e: EvtDnsResponse)
    ensures OnDnsResponse(s, e).tls == s.tls
  {
    hide EvictOver, Dns.ParseResponse, Record, ResolutionStamps;
  }

  lemma CallTls(s: State, e: EvtGetaddrinfo)
    ensures OnGetaddrinfo(s, e).tls == s.tls
  {
    hide EvictOver, Dns.QnameStr, SawWire, GaiStamps, StrictTotal;
  }

  lemma OthersTls(s: State, ev: Event)
    requires Good(s) && !ev.Handshake? && !ev.Server?
    ensures Within(Fold(s, ev).0.tls, s.tls)
  {
    if KeepsFacts(ev) {
      hide Fold, Good;
      FoldKeeps(s, ev);
    } else {
      hide OnConnect, OnClose, OnDnsQuery, OnDnsResponse, OnGetaddrinfo, Good;
      match ev
      case Connect(e) => ConnectTls(s, e);
      case Close(e, pick) => CloseTls(s, e, pick);
      case DnsQuery(e) => QueryTls(s, e);
      case DnsResponse(e) => ResponseTls(s, e);
      case Getaddrinfo(e) => CallTls(s, e);
    }
  }

  lemma HandshakeTls(s: State, e: EvtHandshake, c: Cookie)
    ensures TlsFollows(s, OnTlsHandshake(s, e), Handshake(e), c)
  {
    hide SetTls, Dns.QnameStr;
    if Dns.QnameStr(e.sni, e.sniLen).Some? {
      SetTlsFollows(s, e.cookie, TlsAt(s, e.cookie, e.ts).(sni := Dns.QnameStr(e.sni, e.sniLen).value, ts := e.ts), c);
    }
  }

  lemma ServerTls(s: State, e: EvtServer, c: Cookie)
    ensures TlsFollows(s, OnTlsServer(s, e), Server(e), c)
  {
    hide SetTls;
    var t := TlsAt(s, e.cookie, e.ts);
    SetTlsFollows(s, e.cookie, t.(version := NonZero(e.version).Or(t.version), cipher := NonZero(e.cipher).Or(t.cipher)), c);
  }

  lemma FoldTls(s: State, ev: Event, c: Cookie)
    requires Good(s)
    ensures TlsFollows(s, Fold(s, ev).0, ev, c)
  {
    hide OnTlsHandshake, OnTlsServer, TlsFollows, Good;
    match ev
    case Handshake(e) => HandshakeTls(s, e, c);
    case Server(e) => ServerTls(s, e, c);
    case _ =>
      hide Fold;
      OthersTls(s, ev);
      FewerFollows(s, Fold(s, ev).0, ev, c);
  }

  // ---------------------------------------------------------------------------------------
  // Whole runs
  // ---------------------------------------------------------------------------------------

  /** The name, version and cipher kept of `c` are the last told. */
  ghost predicate TlsTraced(start: World, evs: seq<Event>, c: Cookie) {
    var s := After(start, evs).s;
    var n, v, x := Teller(start, evs, c, Name), Teller(start, evs, c, Version), Teller(start, evs, c, Cipher);
    c in s.tls ==>
      && s.tls[c].sni == (if n.Some? then Told(evs[n.value], c).value else "")
      && s.tls[c].version == (if v.Some? then Some(evs[v.value].server.version) else None)
      && s.tls[c].cipher == (if x.Some? then Some(evs[x.value].server.cipher) else None)
  }

  lemma TlsNext(start: World, front: seq<Event>, ev: Event, c: Cookie)
    requires TlsTraced(start, front, c) && TlsFollows(After(start, front).s, After(start, front + [ev]).s, ev, c)
    ensures TlsTraced(start, front + [ev], c)
  {
    hide After, Told;
    assert (front + [ev])[..|front|] == front;
    assert c !in After(start, front).s.tls ==>
      Teller(start, front, c, Name).None? && Teller(start, front, c, Version).None? && Teller(start, front, c, Cipher).None?;
  }

  lemma {:induction false} TlsAlwaysTraced(start: World, evs: seq<Event>, c: Cookie)
    requires Good(start.s) && start.s.tls == map[]
    ensures TlsTraced(start, evs, c)
  {
    hide Fold, Good, TlsFollows;
    if evs != [] {
      hide After, TlsTraced;
      var front, ev := evs[..|evs| - 1], evs[|evs| - 1];
      assert evs == front + [ev];
      TlsAlwaysTraced(start, front, c);
      GoodRun(start, front);
      FoldTls(After(start, front).s, ev, c);
      NextState(start, front, ev);
      TlsNext(start, front, ev, c);
    }
  }

  // ---------------------------------------------------------------------------------------
  // The record
  // ---------------------------------------------------------------------------------------

  /** Ten zeros and two 255s: an IPv4 address in an IPv6 one. */
  predicate Mapped(daddr: Addr) { (forall i :: 0 <= i < 10 ==> daddr[i] == 0) && daddr[10] == 255 && daddr[11] == 255 }

  /** The address connected to: the last four bytes for IPv4, family 2, however it was written; else all sixteen. */
  predicate Endpoint(ip: Dns.IpAddr, family: nat, daddr: Addr) {
    if family == 2 || Mapped(daddr) then ip == Dns.V4([daddr[12], daddr[13], daddr[14], daddr[15]]) else ip == Dns.V6(daddr)
  }

  lemma EndpointRead(family: nat, daddr: Addr)
    ensures Endpoint(EndpointIp(family, daddr), family, daddr)
  {
    assert daddr[12..] == [daddr[12], daddr[13], daddr[14], daddr[15]];
    assert Mapped(daddr) <==> daddr[..10] == [0, 0, 0, 0, 0, 0, 0, 0, 0, 0] && daddr[10] == 255 && daddr[11] == 255 by {
      assert |daddr[..10]| == 10;
      if daddr[..10] == [0, 0, 0, 0, 0, 0, 0, 0, 0, 0] {
        assert forall i :: 0 <= i < 10 ==> daddr[i] == daddr[..10][i];
      }
    }
  }

  /** The record says what that connect said. */
  predicate OfTheConnect(rec: Connection, e: EvtConnect) {
    && !rec.isPartial
    && rec.ts == Some(if e.ts > e.latency then e.ts - e.latency else 0)
    && rec.pid == e.tgid && rec.dport == Some(e.dport)
    && rec.ip.Some? && Endpoint(rec.ip.value, e.family, e.daddr)
    && rec.connectFailed == e.failed
    && rec.tcpConnectNs == (if e.failed || e.latency == 0 then None else Some(e.latency))
  }

  /** With no connect known the record says nothing of the setup. */
  predicate OfNoConnect(rec: Connection) {
    && rec.isPartial && !rec.connectFailed && rec.pid == 0
    && rec.ts.None? && rec.dport.None? && rec.ip.None? && rec.tcpConnectNs.None? && rec.dns.None?
  }

  lemma RecordSetup(s: State, e: EvtClose, m: EvtConnect)
    ensures ConnectionOf(s, e).sockCookie == e.cookie
    ensures e.cookie !in s.conns ==> OfNoConnect(ConnectionOf(s, e))
    ensures e.cookie in s.conns && s.conns[e.cookie] == ConnOf(m) ==> OfTheConnect(ConnectionOf(s, e), m)
  {
    hide DnsForIp, EndpointIp, Endpoint;
    EndpointRead(m.family, m.daddr);
  }

  lemma RecordTls(s: State, e: EvtClose)
    ensures var rec, c := ConnectionOf(s, e), e.cookie;
            && (rec.tlsSeen <==> c in s.tls || e.handshakeUs != 0)
            && rec.sni == (if c in s.tls && s.tls[c].sni != "" then Some(s.tls[c].sni) else None)
            && rec.version == (if c in s.tls then s.tls[c].version else None)
            && rec.cipher == (if c in s.tls then s.tls[c].cipher else None)
  {
    hide DnsForIp, EndpointIp;
  }

  /**
    The record of a close, over every run. With the connection's facts kept, endpoint, process, start, outcome and
    time are those of the last connect folded for its address; with none, it is partial and says nothing of them. Name,
    version and cipher are the last told of the address while its entry was there, and none if nothing told them.
   */
  lemma ConnectionSays(maxOpen: nat, endpoints: seq<string>, salt: string, evs: seq<Event>, e: EvtClose)
    ensures var start := Start(maxOpen, endpoints, salt);
            var s, rec, c := After(start, evs).s, ConnectionOf(After(start, evs).s, e), e.cookie;
            && rec.sockCookie == c
            && (if c in s.conns then LatestConnect(evs, c).Some? && OfTheConnect(rec, evs[LatestConnect(evs, c).value].connect)
                else OfNoConnect(rec))
            && (rec.tlsSeen <==> c in s.tls || e.handshakeUs != 0)
    ensures var start := Start(maxOpen, endpoints, salt);
            SaysTold(start, evs, e.cookie, ConnectionOf(After(start, evs).s, e))
  {
    hide Start, After, Good, LatestConnect, ConnectionOf, OfTheConnect, OfNoConnect, ConnOf, Tells;
    var start, c := Start(maxOpen, endpoints, salt), e.cookie;
    NoTls(maxOpen, endpoints, salt);
    FactsFromStart(maxOpen, endpoints, salt, evs, c);
    if c in After(start, evs).s.conns {
      RecordSetup(After(start, evs).s, e, evs[LatestConnect(evs, c).value].connect);
    } else {
      RecordSetup(After(start, evs).s, e, EvtConnect(0, 0, 0, 0, 0, [0, 0, 0, 0, 0, 0, 0, 0, 0, 0, 0, 0, 0, 0, 0, 0], 0, false));
    }
    RecordTls(After(start, evs).s, e);
    RecordTold(start, evs, e);
  }

  /** The name, version and cipher of a record are those last told of `c`. */
  ghost predicate SaysTold(start: World, evs: seq<Event>, c: Cookie, rec: Connection) {
    && (forall p: nat :: LastTold(start, evs, c, Name, p) ==> rec.sni == Told(evs[p], c))
    && (forall p: nat :: LastTold(start, evs, c, Version, p) ==> rec.version == Some(evs[p].server.version))
    && (forall p: nat :: LastTold(start, evs, c, Cipher, p) ==> rec.cipher == Some(evs[p].server.cipher))
    && (rec.sni.Some? ==> exists p: nat :: LastTold(start, evs, c, Name, p))
    && (rec.version.Some? ==> exists p: nat :: LastTold(start, evs, c, Version, p))
    && (rec.cipher.Some? ==> exists p: nat :: LastTold(start, evs, c, Cipher, p))
  }

  lemma RecordTold(start: World, evs: seq<Event>, e: EvtClose)
    requires Good(start.s) && start.s.tls == map[]
    ensures SaysTold(start, evs, e.cookie, ConnectionOf(After(start, evs).s, e))
  {
    hide After, Good, ConnectionOf, LastTold, Told;
    var c := e.cookie;
    TlsAlwaysTraced(start, evs, c);
    RecordTls(After(start, evs).s, e);
    forall p: nat, fact: Fact ensures Teller(start, evs, c, fact) == Some(p) <==> LastTold(start, evs, c, fact, p) {
      TellerIs(start, evs, c, fact, p);
    }
    NamesNotEmpty(evs, c);
  }

  /** A name told is never empty. */
  lemma NamesNotEmpty(evs: seq<Event>, c: Cookie)
    ensures forall i :: 0 <= i < |evs| && Told(evs[i], c).Some? ==> Told(evs[i], c).value != ""
  {
  }

  lemma NoTls(maxOpen: nat, endpoints: seq<string>, salt: string)
    ensures Good(Start(maxOpen, endpoints, salt).s) && Start(maxOpen, endpoints, salt).s.tls == map[]
  {
    GoodInit(maxOpen, endpoints, salt);
  }
}
