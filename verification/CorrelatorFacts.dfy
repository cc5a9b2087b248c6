/**
  The facts a cookie stands for. A cookie is a recycled address, and what is kept under it is of the
  last connect folded for it, or of a hello after that.
 */
module CorrelatorFacts {
  import opened Wrappers
  import opened Eviction
  import opened CorrelatorState
  import opened CorrelatorRuns
  import Dns = DnsNames
  import Http = HttpHead

  /** The facts records are joined to, and the queries those may come from, are as they were. */
  predicate FactsKept(s: State, s': State) {
    && s'.conns == s.conns && s'.tls == s.tls
    && s'.pendingDns == s.pendingDns && s'.resolutions == s.resolutions && s'.gai == s.gai
  }

  /** Nothing but slots has changed. */
  predicate SlotsOnly(s: State, s': State) { s' == s.(ops := s'.ops) }

  lemma TouchKeeps(s: State, k: Key, ts: nat)
    ensures SlotsOnly(s, Touch(s, k, ts))
  {
  }

  lemma SetOpenKeeps(s: State, t: State, k: Key, op: Option<OpenOp>)
    requires SlotsOnly(s, t) && k in t.ops
    ensures SlotsOnly(s, SetOpen(t, k, op))
  {
  }

  lemma Same(s: State, s': State)
    requires s' == s
    ensures FactsKept(s, s') && SlotsOnly(s, s')
  {
  }

  lemma SlotsOnlyKeeps(s: State, s': State)
    requires SlotsOnly(s, s')
    ensures FactsKept(s, s')
  {
  }

  lemma TallyKeeps(s: State, k: Key, ts: nat, len: nat)
    ensures SlotsOnly(s, Tally(s, k, ts, len).0)
  {
    hide BuildOp, Touch, SetOpen, SlotsOnly;
    TouchKeeps(s, k, ts);
    var s1 := Touch(s, k, ts);
    var op := OpenAt(s1, k);
    if op.Some? && op.value.resp.Some? {
      var rs := op.value.resp.value;
      SetOpenKeeps(s, s1, k, Some(op.value.(resp := Some(rs.(bodySeen := SatAdd(rs.bodySeen, len))))));
      SetOpenKeeps(s, s1, k, None);
    }
  }

  lemma FinalKeeps(s: State, k: Key, e: EvtTlsData, h: FinalHead)
    ensures SlotsOnly(s, Final(s, k, e, h).0)
  {
    hide BuildOp, Touch, SetOpen, SlotsOnly, FinalFacts, Http.SameIgnoringCase;
    TouchKeeps(s, k, e.ts);
    var s1 := Touch(s, k, e.ts);
    var op := OpenAt(s1, k);
    if op.Some? {
      SetOpenKeeps(s, s1, k, None);
      if ExpectsBody(op, h) {
        var rs := RespState(e.ts, h.status, h.requestId, e.len, h.truncated, h.contentLength.value, SatSub(e.len, h.headerEnd.value));
        SetOpenKeeps(s, s1, k, Some(op.value.(resp := Some(rs))));
      }
    }
  }

  lemma InterimKeeps(s: State, k: Key, ts: nat)
    ensures SlotsOnly(s, Interim(s, k, ts))
  {
    hide Touch, SetOpen, SlotsOnly;
    TouchKeeps(s, k, ts);
    var op := OpenAt(Touch(s, k, ts), k);
    if op.Some? {
      SetOpenKeeps(s, Touch(s, k, ts), k, Some(op.value.(interimTs := op.value.interimTs.Or(Some(ts)))));
    }
  }

  lemma ReadKeeps(s: State, e: EvtTlsData)
    ensures SlotsOnly(s, OnTlsRead(s, e).0) && FactsKept(s, OnTlsRead(s, e).0)
  {
    hide Tally, Final, Interim, HeadOf, Http.ParseStatus, Foreign, AwaitingBody, SlotsOnly, FactsKept;
    var k := Key(e.tgid, e.fd);
    Same(s, s);
    TallyKeeps(s, k, e.ts, e.len);
    InterimKeeps(s, k, e.ts);
    if Http.ParseStatus(e.data).Some? {
      FinalKeeps(s, k, e, HeadOf(e, Http.ParseStatus(e.data).value));
    }
    SlotsOnlyKeeps(s, OnTlsRead(s, e).0);
  }

  lemma BodyKeeps(s: State, e: EvtTlsBody)
    ensures SlotsOnly(s, OnTlsReadBody(s, e).0) && FactsKept(s, OnTlsReadBody(s, e).0)
  {
    hide Tally, Foreign, SlotsOnly, FactsKept;
    Same(s, s);
    TallyKeeps(s, Key(e.tgid, e.fd), e.ts, e.len);
    SlotsOnlyKeeps(s, OnTlsReadBody(s, e).0);
  }

  lemma OpenedKeeps(s: State, e: EvtTlsData, req: Http.RequestHead)
    ensures FactsKept(s, Opened(s, e, req))
  {
    hide NewOp, BioCookie, OpenedSlot;
  }

  lemma DropSlotsKeeps(s: State, t: State, keys: seq<Key>)
    requires FactsKept(s, t)
    ensures FactsKept(s, DropSlots(t, keys))
  {
    hide DropSlots;
    DropSlotsFrame(t, keys);
  }

  lemma RejectedKeeps(s: State, e: EvtTlsData)
    requires Http.ParseRequest(e.data).None?
    ensures FactsKept(s, OnTlsWrite(s, e).0)
  {
    hide NewOp, SlotVictims, DropSlots, Interrupted, Http.ParseRequest, FactsKept;
    Same(s, s);
    CountKeeps(s, s.parseFailures + 1);
  }

  lemma CountKeeps(s: State, n: nat)
    ensures FactsKept(s, s.(parseFailures := n))
  {
  }

  lemma WriteKeeps(s: State, e: EvtTlsData)
    ensures FactsKept(s, OnTlsWrite(s, e).0)
  {
    hide NewOp, SlotVictims, DropSlots, Interrupted, Http.ParseRequest, BioCookie, OpenedSlot, FactsKept;
    if Http.ParseRequest(e.data).Some? {
      var s1 := Opened(s, e, Http.ParseRequest(e.data).value);
      OpenedKeeps(s, e, Http.ParseRequest(e.data).value);
      DropSlotsKeeps(s, s1, SlotVictims(s1, Key(e.tgid, e.fd)));
    } else {
      hide OnTlsWrite;
      RejectedKeeps(s, e);
    }
  }

  lemma ConnIdKeeps(s: State, e: EvtConnId)
    requires Good(s)
    ensures FactsKept(s, OnConnId(s, e))
  {
    hide FlushAndDrop, Relink, DropLinks, LinkVictims, Inverse;
    RelinkedFrame(s, e);
    DropLinksFrame(Relinked(s, e), LinkVictims(Relinked(s, e), Key(e.tgid, e.fd)));
  }

  /** Events of slots and links alone. */
  predicate KeepsFacts(ev: Event) {
    !ev.Connect? && !ev.Close? && !NamesOnly(ev)
  }

  lemma QueueKeeps(s: State)
    ensures FactsKept(s, s.(flushed := []))
  {
  }

  lemma FoldKeeps(s: State, ev: Event)
    requires Good(s) && KeepsFacts(ev)
    ensures FactsKept(s, Fold(s, ev).0)
  {
    hide OnConnId, OnTlsWrite, OnTlsRead, OnTlsReadBody, DropSlots, Good, FactsKept;
    match ev
    case TakeFlushed => QueueKeeps(s);
    case ConnId(e) => ConnIdKeeps(s, e);
    case TlsWrite(e) => WriteKeeps(s, e);
    case TlsRead(e) => ReadKeeps(s, e);
    case TlsBody(e) => BodyKeeps(s, e);
    case FlushOpen(order) => Same(s, s); DropSlotsKeeps(s, s, order);
  }

  // ---------------------------------------------------------------------------------------
  // What each event does to the facts of one cookie
  // ---------------------------------------------------------------------------------------

  /** The name an event tells of `c`, if it is a hello of `c` whole and legal enough to be kept. */
  function Told(ev: Event, c: Cookie): Option<string> {
    if ev.Handshake? && ev.handshake.cookie == c && !ev.handshake.truncated then Dns.QnameStr(ev.handshake.sni, ev.handshake.sniLen)
    else None
  }

  predicate Ends(ev: Event, c: Cookie) {
    (ev.Connect? && ev.connect.cookie == c) || (ev.Close? && ev.close.cookie == c)
  }

  /** The facts of `c` after an event, from those before. */
  predicate FactsFollow(s: State, s': State, ev: Event, c: Cookie) {
    && (c in s'.conns ==>
          if ev.Connect? && ev.connect.cookie == c then s'.conns[c] == ConnOf(ev.connect)
          else !Ends(ev, c) && c in s.conns && s'.conns[c] == s.conns[c])
    && (c in s'.tls ==>
          && !Ends(ev, c)
          && if Told(ev, c).Some? then s'.tls[c].sni == Told(ev, c).value
             else s'.tls[c].sni == "" || (c in s.tls && s'.tls[c].sni == s.tls[c].sni))
  }

  lemma ConnectFollows(s: State, e: EvtConnect, c: Cookie)
    ensures FactsFollow(s, OnConnect(s, e), Connect(e), c)
  {
    hide FlushedWith, EvictOver, ConnStamps, StaleLink, ConnOf;
    var t := if StaleLink(s, e).Some? then Disconnect(s, StaleLink(s, e).value, e.cookie) else s;
    assert t.conns == s.conns && t.tls == s.tls;
  }

  lemma CloseFollows(s: State, e: EvtClose, pick: Option<Key>, c: Cookie)
    ensures FactsFollow(s, OnClose(s, e, pick), Close(e, pick), c)
  {
    hide CloseSlot;
    CloseFrame(s, e, pick);
  }

  lemma SetTlsFollows(s: State, cookie: Cookie, info: TlsInfo, c: Cookie)
    ensures var s' := SetTls(s, cookie, info);
            && s'.conns == s.conns
            && (c in s'.tls ==> if c == cookie then s'.tls[c] == info else c in s.tls && s'.tls[c] == s.tls[c])
            && (c == cookie ==> c in s'.tls)
  {
    hide EvictOver, TlsStamps;
  }

  lemma HandshakeFollows(s: State, e: EvtHandshake, c: Cookie)
    ensures FactsFollow(s, OnTlsHandshake(s, e), Handshake(e), c)
  {
    hide SetTls, Dns.QnameStr;
    if Dns.QnameStr(e.sni, e.sniLen).Some? {
      SetTlsFollows(s, e.cookie, TlsAt(s, e.cookie, e.ts).(sni := Dns.QnameStr(e.sni, e.sniLen).value, ts := e.ts), c);
    }
  }

  lemma ServerFollows(s: State, e: EvtServer, c: Cookie)
    ensures FactsFollow(s, OnTlsServer(s, e), Server(e), c)
  {
    hide SetTls;
    var t := TlsAt(s, e.cookie, e.ts);
    SetTlsFollows(s, e.cookie, t.(version := NonZero(e.version).Or(t.version), cipher := NonZero(e.cipher).Or(t.cipher)), c);
  }

  lemma QueryFollows(s: State, e: EvtDnsQuery, c: Cookie)
    ensures FactsFollow(s, OnDnsQuery(s, e), DnsQuery(e), c)
  {
    hide EvictOver, Dns.QnameStr, QueryStamps, StrictTotal;
  }

  lemma ResponseFollows(s: State, e: EvtDnsResponse, c: Cookie)
    ensures FactsFollow(s, OnDnsResponse(s, e), DnsResponse(e), c)
  {
    hide EvictOver, Dns.ParseResponse, Record, ResolutionStamps;
  }

  lemma GaiFollows(s: State, e: EvtGetaddrinfo, c: Cookie)
    ensures FactsFollow(s, OnGetaddrinfo(s, e), Getaddrinfo(e), c)
  {
    hide EvictOver, Dns.QnameStr, SawWire, GaiStamps, StrictTotal;
  }

  lemma KeptFollows(s: State, s': State, ev: Event, c: Cookie)
    requires KeepsFacts(ev) && FactsKept(s, s')
    ensures FactsFollow(s, s', ev, c)
  {
  }

  lemma FoldFollows(s: State, ev: Event, c: Cookie)
    requires Good(s)
    ensures FactsFollow(s, Fold(s, ev).0, ev, c)
  {
    if KeepsFacts(ev) {
      hide Fold, Good, FactsKept, FactsFollow;
      FoldKeeps(s, ev);
      KeptFollows(s, Fold(s, ev).0, ev, c);
    } else {
      hide OnConnect, OnClose, OnTlsHandshake, OnTlsServer, OnDnsQuery, OnDnsResponse, OnGetaddrinfo, FactsFollow, Good;
      match ev
      case Connect(e) => ConnectFollows(s, e, c);
      case Close(e, pick) => CloseFollows(s, e, pick, c);
      case Handshake(e) => HandshakeFollows(s, e, c);
      case Server(e) => ServerFollows(s, e, c);
      case DnsQuery(e) => QueryFollows(s, e, c);
      case DnsResponse(e) => ResponseFollows(s, e, c);
      case Getaddrinfo(e) => GaiFollows(s, e, c);
    }
  }

  // ---------------------------------------------------------------------------------------
  // Whole runs
  // ---------------------------------------------------------------------------------------

  predicate Connects(ev: Event, c: Cookie) { ev.Connect? && ev.connect.cookie == c }

  /** No connect and no close of `c` from `lo` on. */
  predicate NoneEnds(evs: seq<Event>, c: Cookie, lo: nat) {
    forall j :: lo <= j < |evs| ==> !Ends(evs[j], c)
  }

  /** Where `c`'s latest life was folded: its last connect, unless a close of `c` came since. */
  function LatestConnect(evs: seq<Event>, c: Cookie): (r: Option<nat>)
    ensures r.Some? ==> r.value < |evs| && Connects(evs[r.value], c) && NoneEnds(evs, c, r.value + 1)
  {
    if evs == [] then None
    else
      var ev := evs[|evs| - 1];
      if Connects(ev, c) then Some(|evs| - 1)
      else if Ends(ev, c) then None
      else LatestConnect(evs[..|evs| - 1], c)
  }

  /** Where `c`'s latest life told its name: the last whole hello since its last connect or close. */
  function LatestHello(evs: seq<Event>, c: Cookie): (r: Option<nat>)
    ensures r.Some? ==> r.value < |evs| && Told(evs[r.value], c).Some? && NoneEnds(evs, c, r.value)
  {
    if evs == [] then None
    else
      var ev := evs[|evs| - 1];
      if Ends(ev, c) then None
      else if Told(ev, c).Some? then Some(|evs| - 1)
      else LatestHello(evs[..|evs| - 1], c)
  }

  /** A connect with no connect and no close of its cookie behind it is the latest. */
  lemma {:induction false} LatestIsLast(evs: seq<Event>, c: Cookie, m: nat)
    requires m < |evs|
    ensures Connects(evs[m], c) && NoneEnds(evs, c, m + 1) ==> LatestConnect(evs, c) == Some(m)
    ensures Told(evs[m], c).Some? && NoneEnds(evs, c, m) && (forall j :: m < j < |evs| ==> Told(evs[j], c).None?)
            ==> LatestHello(evs, c) == Some(m)
    decreases |evs|
  {
    hide Told;
    if m < |evs| - 1 {
      LatestIsLast(evs[..|evs| - 1], c, m);
    }
  }

  predicate Latest(s: State, evs: seq<Event>, c: Cookie) {
    && (c in s.conns ==>
          LatestConnect(evs, c).Some? && s.conns[c] == ConnOf(evs[LatestConnect(evs, c).value].connect))
    && (c in s.tls && s.tls[c].sni != "" ==>
          LatestHello(evs, c).Some? && Told(evs[LatestHello(evs, c).value], c) == Some(s.tls[c].sni))
  }

  lemma NothingKept(s: State, c: Cookie)
    requires s.conns == map[] && s.tls == map[]
    ensures Latest(s, [], c)
  {
  }

  lemma LatestNext(s: State, s': State, front: seq<Event>, ev: Event, c: Cookie)
    requires Latest(s, front, c) && FactsFollow(s, s', ev, c)
    ensures Latest(s', front + [ev], c)
  {
    hide Told, ConnOf;
    assert (front + [ev])[..|front|] == front;
  }

  /**
    What is kept under a cookie is of the last life that announced itself: the connection is the last
    connect's, with no close since, and a TLS name was told by a hello since then. A connect, folded,
    clears whatever a life before it had left.
   */
  lemma {:induction false} FactsAreLatest(w: World, evs: seq<Event>, c: Cookie)
    requires Good(w.s) && w.s.conns == map[] && w.s.tls == map[]
    ensures Latest(After(w, evs).s, evs, c)
  {
    hide FactsFollow, Latest, Fold, Good;
    if evs == [] {
      NothingKept(w.s, c);
    } else {
      hide After;
      var front, ev := evs[..|evs| - 1], evs[|evs| - 1];
      FactsAreLatest(w, front, c);
      GoodRun(w, front);
      FoldFollows(After(w, front).s, ev, c);
      NextState(w, front, ev);
      LatestNext(After(w, front).s, After(w, evs).s, front, ev, c);
      assert evs == front + [ev];
    }
  }

  /** A ClientHello and a ServerHello of one connection merge to the same facts in either order. */
  lemma HellosCommute(s: State, h: EvtHandshake, v: EvtServer)
    requires h.cookie == v.cookie && Told(Handshake(h), h.cookie).Some?
    ensures var c := h.cookie;
            var a, b := OnTlsServer(OnTlsHandshake(s, h), v), OnTlsHandshake(OnTlsServer(s, v), h);
            c in a.tls && c in b.tls && a.tls[c] == b.tls[c]
  {
    hide SetTls, Dns.QnameStr;
    var c, sni := h.cookie, Dns.QnameStr(h.sni, h.sniLen).value;
    var t := TlsAt(s, c, v.ts);
    var first := TlsAt(s, c, h.ts).(sni := sni, ts := h.ts);
    var second := t.(version := NonZero(v.version).Or(t.version), cipher := NonZero(v.cipher).Or(t.cipher));
    SetTlsFollows(s, c, first, c);
    SetTlsFollows(s, c, second, c);
    SetTlsFollows(OnTlsHandshake(s, h), c,
      first.(version := NonZero(v.version).Or(first.version), cipher := NonZero(v.cipher).Or(first.cipher)), c);
    SetTlsFollows(OnTlsServer(s, v), c, second.(sni := sni, ts := h.ts), c);
  }
}
