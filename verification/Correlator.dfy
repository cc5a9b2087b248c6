/** The correlator itself: eight maps, a counter and a queue, updated in place by one handler per event. */
module Correlator {
  import opened Wrappers
  import opened Eviction
  import opened CorrelatorState
  import Dns = DnsNames
  import Http = HttpHead
  import Resolve = HttpResolve
  import Runs = CorrelatorRuns

  /** The bounded-map pass, for a map whose entries hold nothing that must be emitted. */
  method EvictOldestOver<K(!new, ==), V>(less: (K, K) -> bool, m: map<K, V>, stamps: map<K, nat>, cap: nat,
                           keep: set<K>)
    returns (r: map<K, V>)
    requires StrictTotal(less) && stamps.Keys == m.Keys && |keep| <= cap
    ensures r == EvictOver(less, m, stamps, cap, keep)
  {
    hide StrictTotal, Victims;
    r := m;
    SameSize(m, stamps);
    if |m| > cap {
      var victims := OldestKeys(less, stamps, EvictTarget(|m|, cap), keep);
      for i := 0 to |victims|
        invariant r == Drop(m, victims[..i])
      {
        RemoveNext(m, victims, i);
        r := r - {victims[i]};
      }
      assert victims[..|victims|] == victims;
    } else {
      assert Drop(m, []) == m;
    }
  }

  lemma SameSize<K, V, W>(m: map<K, V>, n: map<K, W>)
    requires m.Keys == n.Keys
    ensures |m| == |n|
  {
    assert |m| == |m.Keys| && |n| == |n.Keys|;
  }

  lemma RemoveNext<K, V>(m: map<K, V>, victims: seq<K>, i: nat)
    requires i < |victims|
    ensures Drop(m, victims[..i]) - {victims[i]} == Drop(m, victims[..i + 1])
  {
    var next := victims[..i + 1];
    assert next[..|next| - 1] == victims[..i];
    AsSetLast(next);
  }

  lemma ConnStampsKeys(m: map<Cookie, ConnState>)
    ensures ConnStamps(m).Keys == m.Keys
  {
  }

  class Correlator {
    var conns: map<Cookie, ConnState>
    const maxOpen: Pos
    var pendingDns: map<(Cookie, nat), PendingQuery>
    var resolutions: map<Dns.IpAddr, Resolution>
    var gai: map<string, Gai>
    var tls: map<Cookie, TlsInfo>
    var fdLinks: map<Key, FdLink>
    var fdLinksRev: map<Cookie, Key>
    var ops: map<Key, Slot>
    var opCounter: nat
    var flushedOps: seq<Operation>
    var parseFailures: nat
    var s3Endpoints: seq<string>
    const keySalt: string

    /** The fields as one value. */
    function Now(): State
      reads this
    {
      State(conns, maxOpen, pendingDns, resolutions, gai, tls, fdLinks, fdLinksRev, ops, opCounter, flushedOps,
            parseFailures, s3Endpoints, keySalt)
    }

    constructor (maxOpen: nat, salt: string)
      ensures Now() == Runs.Init(maxOpen, [], salt)
    {
      conns, pendingDns, resolutions, gai, tls := map[], map[], map[], map[], map[];
      fdLinks, fdLinksRev, ops := map[], map[], map[];
      this.maxOpen := Max(maxOpen, 1);
      opCounter, flushedOps, parseFailures, s3Endpoints := 0, [], 0, [];
      keySalt := salt;
    }

    method SetS3Endpoints(hosts: seq<string>)
      modifies this`s3Endpoints
      ensures Now() == old(Now()).(endpoints := s3Endpoints)
      ensures |s3Endpoints| == |hosts| && forall i :: 0 <= i < |hosts| ==> s3Endpoints[i] == Lower(hosts[i])
    {
      s3Endpoints := seq(|hosts|, i requires 0 <= i < |hosts| => Lower(hosts[i]));
    }

    method TakeFlushedOps() returns (taken: seq<Operation>)
      modifies this`flushedOps
      ensures taken == old(flushedOps) && Now() == old(Now()).(flushed := [])
    {
      taken := flushedOps;
      flushedOps := [];
    }

    method FlushAndDropOp(key: Key)
      modifies this`ops, this`flushedOps
      ensures Now() == FlushAndDrop(old(Now()), key)
    {
      hide BuildOp;
      if key in ops && ops[key].open.Some? {
        var open := ops[key].open.value;
        flushedOps := flushedOps + [BuildOp(Now(), key, open, FactsOnFlush(open))];
      }
      ops := ops - {key};
    }

    /** Every op still open is flushed, in whatever order the map yields the slots. */
    method FlushOpenOps()
      modifies this`ops, this`flushedOps
      ensures exists order :: Runs.ListsSlots(old(Now()), order) && Now() == DropSlots(old(Now()), order)
    {
      hide FlushAndDrop;
      ghost var before := Now();
      var keys := Occupied();
      for i := 0 to |keys|
        invariant Now() == DropSlots(before, keys[..i])
      {
        FlushAndDropOp(keys[i]);
        assert keys[..i + 1][..i] == keys[..i];
      }
      assert keys[..|keys|] == keys;
    }

    method Occupied() returns (keys: seq<Key>)
      ensures Runs.ListsSlots(Now(), keys)
    {
      keys := [];
      var rest := ops.Keys;
      while rest != {}
        invariant rest <= ops.Keys
        invariant forall k :: k in keys <==> k in ops && k !in rest
        invariant forall i, j :: 0 <= i < j < |keys| ==> keys[i] != keys[j]
        decreases |rest|
      {
        var k :| k in rest;
        rest := rest - {k};
        keys := keys + [k];
      }
    }

    /** Flush and drop the slot of `key`, then its link as `cookie`. */
    method TearDown(key: Key, cookie: Cookie)
      modifies this`ops, this`flushedOps, this`fdLinks, this`fdLinksRev
      ensures Now() == Disconnect(old(Now()), key, cookie)
    {
      hide FlushedWith;
      FlushAndDropOp(key);
      fdLinks := fdLinks - {key};
      fdLinksRev := fdLinksRev - {cookie};
    }

    method OnConnect(e: EvtConnect)
      modifies this
      ensures Now() == CorrelatorState.OnConnect(old(Now()), e)
    {
      hide Disconnect, EvictOver, StrictTotal, StaleLink, ConnOf, ConnStamps;
      KeyOrders();
      ConnStampsKeys(conns[e.cookie := ConnOf(e)]);
      var stale := StaleLink(Now(), e);
      if stale.Some? {
        Runs.DisconnectFrame(Now(), stale.value, e.cookie);
        TearDown(stale.value, e.cookie);
      }
      conns := conns[e.cookie := ConnOf(e)];
      tls := tls - {e.cookie};
      conns := EvictOldestOver(CookieLess, conns, ConnStamps(conns), maxOpen, {e.cookie});
    }

    /** The fallback slot a close reclaims: two scans, so that an open op is preferred whatever the order. */
    method FindBio(cookie: Cookie) returns (pick: Option<Key>)
      ensures BioPick(Now(), cookie, pick)
    {
      var rest := ops.Keys;
      while rest != {}
        invariant rest <= ops.Keys
        invariant forall k :: k in ops && k !in rest ==> !HoldsOpen(Now(), k, cookie)
        decreases |rest|
      {
        var k :| k in rest;
        if HoldsOpen(Now(), k, cookie) {
          return Some(k);
        }
        rest := rest - {k};
      }
      rest := ops.Keys;
      while rest != {}
        invariant rest <= ops.Keys
        invariant forall k :: k in ops && k !in rest ==> !HoldsResidue(Now(), k, cookie)
        decreases |rest|
      {
        var k :| k in rest;
        if HoldsResidue(Now(), k, cookie) {
          return Some(k);
        }
        rest := rest - {k};
      }
      return None;
    }

    /** What a close does to slots and links. */
    method CloseOps(e: EvtClose) returns (ghost pick: Option<Key>)
      modifies this`ops, this`flushedOps, this`fdLinks, this`fdLinksRev
      ensures Runs.Legal(old(Now()), Runs.Close(e, pick)) && Now() == CloseSlot(old(Now()), e, pick)
    {
      hide FlushAndDrop, BioPick, Disconnect;
      pick := None;
      var own := OwnLink(Now(), e);
      if own.Some? {
        TearDown(own.value, e.cookie);
      } else if e.cookie !in fdLinksRev {
        var bio := FindBio(e.cookie);
        pick := bio;
        if bio.Some? {
          FlushAndDropOp(bio.value);
        }
      }
    }

    method OnClose(e: EvtClose) returns (c: Connection)
      modifies this
      ensures exists pick :: Runs.Legal(old(Now()), Runs.Close(e, pick)) && Now() == CorrelatorState.OnClose(old(Now()), e, pick)
      ensures c == ConnectionOf(old(Now()), e)
    {
      hide CloseSlot, ConnectionFrom, ConnDns, Runs.Legal;
      ghost var before := Now();
      ghost var pick := CloseOps(e);
      Runs.CloseFrame(before, e, pick);
      var state := Get(conns, e.cookie);
      conns := conns - {e.cookie};
      var dns := ConnDns(Now(), state);
      SameNames(before, Now(), state);
      var info := Get(tls, e.cookie);
      tls := tls - {e.cookie};
      c := ConnectionFrom(e, state, info, dns);
    }

    method OnConnId(e: EvtConnId)
      modifies this
      ensures Now() == CorrelatorState.OnConnId(old(Now()), e)
    {
      hide FlushAndDrop, Relink, LinkVictims, DropLinks, Unlink;
      var key := Key(e.tgid, e.fd);
      if key in ops {
        FlushAndDropOp(key);
      }
      Bind(key, FdLink(e.cookie, e.ts));
      LinkPass(key);
    }

    /** Insert the link both ways, dropping the stale partner of each. */
    method Bind(key: Key, link: FdLink)
      modifies this`ops, this`flushedOps, this`fdLinks, this`fdLinksRev
      ensures Now() == Relink(old(Now()), key, link)
    {
      hide FlushAndDrop;
      var prior := Get(fdLinks, key);
      fdLinks := fdLinks[key := link];
      if prior.Some? && prior.value.cookie != link.cookie {
        fdLinksRev := fdLinksRev - {prior.value.cookie};
      }
      var other := Get(fdLinksRev, link.cookie);
      fdLinksRev := fdLinksRev[link.cookie := key];
      if other.Some? && other.value != key {
        FlushAndDropOp(other.value);
        fdLinks := fdLinks - {other.value};
      }
    }

    /** Evict a batch of the oldest links once they are over the cap, each with its slot. */
    method LinkPass(key: Key)
      modifies this`ops, this`flushedOps, this`fdLinks, this`fdLinksRev
      ensures Now() == DropLinks(old(Now()), LinkVictims(old(Now()), key))
    {
      hide FlushAndDrop, Unlink, StrictTotal, Victims;
      ghost var before := Now();
      KeyOrders();
      SameSize(fdLinks, LinkStamps(fdLinks));
      if |fdLinks| > maxOpen {
        var victims := OldestKeys(KeyLess, LinkStamps(fdLinks), EvictTarget(|fdLinks|, maxOpen), {key});
        for i := 0 to |victims|
          invariant Now() == DropLinks(before, victims[..i])
        {
          FlushAndDropOp(victims[i]);
          RemoveLink(victims[i]);
          assert victims[..i + 1][..i] == victims[..i];
        }
        assert victims[..|victims|] == victims;
      }
    }

    method RemoveLink(key: Key)
      modifies this`fdLinks, this`fdLinksRev
      ensures Now() == Unlink(old(Now()), key)
    {
      if key in fdLinks {
        var cookie := fdLinks[key].cookie;
        fdLinks := fdLinks - {key};
        if Get(fdLinksRev, cookie) == Some(key) {
          fdLinksRev := fdLinksRev - {cookie};
        }
      }
    }

    /** Evict a batch of the least recently active slots once they are over the cap. */
    method SlotPass(key: Key)
      modifies this`ops, this`flushedOps
      ensures Now() == DropSlots(old(Now()), SlotVictims(old(Now()), key))
    {
      hide FlushAndDrop, StrictTotal, Victims;
      ghost var before := Now();
      KeyOrders();
      SameSize(ops, SlotStamps(ops));
      if |ops| > maxOpen {
        var victims := OldestKeys(KeyLess, SlotStamps(ops), EvictTarget(|ops|, maxOpen), {key});
        for i := 0 to |victims|
          invariant Now() == DropSlots(before, victims[..i])
        {
          FlushAndDropOp(victims[i]);
          assert victims[..i + 1][..i] == victims[..i];
        }
        assert victims[..|victims|] == victims;
      }
    }

    method NextOpId() returns (id: nat)
      modifies this`opCounter
      ensures id == old(opCounter) + 1 && opCounter == id
    {
      opCounter := opCounter + 1;
      id := opCounter;
    }

    method OnTlsWrite(e: EvtTlsData) returns (out: Option<Operation>)
      modifies this
      ensures (Now(), out) == CorrelatorState.OnTlsWrite(old(Now()), e)
    {
      hide Http.ParseRequest, SlotVictims, DropSlots, NewOp, Interrupted;
      var req := Http.ParseRequestHead(e.data);
      if req.None? {
        if e.data != "" {
          parseFailures := parseFailures + 1;
        }
        return None;
      }
      var key := Key(e.tgid, e.fd);
      out := OpenRequest(e, req.value);
      SlotPass(key);
    }

    /** Emit what the request interrupts, number the request, and open it. */
    method OpenRequest(e: EvtTlsData, req: Http.RequestHead) returns (flushed: Option<Operation>)
      modifies this`ops, this`opCounter
      ensures Now() == Runs.Opened(old(Now()), e, req)
      ensures flushed == Interrupted(old(Now()), Key(e.tgid, e.fd), BioCookie(e))
    {
      hide Interrupted, ResolveRequest, HeadTruncated, BioChanged, BioCookie;
      var key, bio := Key(e.tgid, e.fd), BioCookie(e);
      flushed := Interrupt(key, bio);
      var op := NumberRequest(e, req);
      var slot := SlotAt(Now(), key);
      ops := ops[key := Slot(op.reqSeq + 1, Some(op), e.ts, bio.Or(slot.lastBio))];
    }

    /** The op still open on the slot, as a new request cuts it short. */
    method Interrupt(key: Key, bio: Option<Cookie>) returns (flushed: Option<Operation>)
      ensures flushed == Interrupted(Now(), key, bio)
    {
      hide BuildOp;
      if key !in ops || ops[key].open.None? {
        return None;
      }
      var p := ops[key].open.value;
      if p.resp.Some? {
        return Some(BuildOp(Now(), key, p, FactsOf(p.resp.value, None)));
      }
      if !BioChanged(ops[key], bio) {
        p := p.(ambiguous := true);
      }
      return Some(BuildOp(Now(), key, p, NO_FACTS));
    }

    /** Give the request its id and its place in the sequence. */
    method NumberRequest(e: EvtTlsData, req: Http.RequestHead) returns (op: OpenOp)
      modifies this`opCounter
      ensures op == NewOp(old(Now()), e, req) && Now() == old(Now()).(opCounter := old(opCounter) + 1)
    {
      hide ResolveRequest, HeadTruncated, BioChanged, BioCookie;
      var key, bio := Key(e.tgid, e.fd), BioCookie(e);
      var r := ResolveAddress(key, bio, req);
      var keyHash := if r.key.Some? then Some(KeyHash(keySalt, r.key.value)) else None;
      var slot := SlotAt(Now(), key);
      var changed := BioChanged(slot, bio);
      var unanswered := slot.open.Some? && slot.open.value.resp.None? && !changed;
      var id := NextOpId();
      op := OpenOp(id, e.ts, if changed then 0 else slot.nextSeq, req.method_, if r.isS3 then Some(r.op) else None, r.bucket,
                   keyHash, e.len, None, HeadTruncated(e), unanswered, None, bio);
    }

    /** The request's bucket and key; with no Host at hand, the name the connection's handshake asked for. */
    method ResolveAddress(key: Key, bio: Option<Cookie>, req: Http.RequestHead) returns (r: Resolve.Resolved)
      ensures r == ResolveRequest(Now(), key, bio, req)
    {
      hide Resolve.ResolveWith;
      var cookie := bio.Or(if key in fdLinks then Some(fdLinks[key].cookie) else None);
      var sni := if cookie.Some? && cookie.value in tls then Some(tls[cookie.value].sni) else None;
      r := Resolve.ResolveTarget(req.method_, req.path, req.query, req.host.Or(sni), s3Endpoints);
    }

    method Touched(key: Key, ts: nat)
      modifies this`ops
      ensures Now() == Touch(old(Now()), key, ts)
    {
      if key in ops {
        ops := ops[key := ops[key].(lastTs := ts)];
      }
    }

    method OnTlsRead(e: EvtTlsData) returns (out: Option<Operation>)
      modifies this
      ensures (Now(), out) == CorrelatorState.OnTlsRead(old(Now()), e)
    {
      hide Tally, Final, Interim, HeadOf, Http.ParseStatus, Foreign;
      var key := Key(e.tgid, e.fd);
      if Foreign(Now(), key, e.cookie) {
        return None;
      }
      if AwaitingBody(Now(), key) {
        out := TallyBody(key, e.ts, e.len);
        return;
      }
      var status := Http.ParseStatus(e.data);
      if status.None? {
        return None;
      }
      if 100 <= status.value <= 199 {
        NoteInterim(key, e.ts);
        return None;
      }
      out := FinishHead(key, e, status.value);
    }

    /** An interim response only refreshes the slot and marks the first response byte. */
    method NoteInterim(key: Key, ts: nat)
      modifies this`ops
      ensures Now() == Interim(old(Now()), key, ts)
    {
      Touched(key, ts);
      if key in ops && ops[key].open.Some? {
        var open := ops[key].open.value;
        ops := ops[key := ops[key].(open := Some(open.(interimTs := open.interimTs.Or(Some(ts)))))];
      }
    }

    /** What the response head says. */
    method ReadHead(e: EvtTlsData, status: nat) returns (h: FinalHead)
      ensures h == HeadOf(e, status)
    {
      hide Http.HeaderValue, Http.ContentLength, Http.HeaderEnd, HeadTruncated;
      var requestId := Http.HeaderValueLoop(e.data, "x-amz-request-id");
      var contentLength := Http.ContentLengthLoop(e.data);
      h := FinalHead(status, requestId, contentLength, Http.HeaderEnd(e.data), HeadTruncated(e));
    }

    /** A final response head: wait for its body if it announces one that is not all here, else emit. */
    method FinishHead(key: Key, e: EvtTlsData, status: nat) returns (out: Option<Operation>)
      modifies this`ops
      ensures (Now(), out) == Final(old(Now()), key, e, HeadOf(e, status))
    {
      hide BuildOp, HeadOf, Http.SameIgnoringCase;
      var h := ReadHead(e, status);
      var expectsBody := ExpectsBody(if key in ops then ops[key].open else None, h);
      Touched(key, e.ts);
      if key !in ops || ops[key].open.None? {
        return None;
      }
      var open := ops[key].open.value;
      if expectsBody {
        var bodyInHead := SatSub(e.len, h.headerEnd.value);
        if bodyInHead < h.contentLength.value {
          var rs := RespState(e.ts, h.status, h.requestId, e.len, h.truncated, h.contentLength.value, bodyInHead);
          ops := ops[key := ops[key].(open := Some(open.(resp := Some(rs))))];
          return None;
        }
      }
      out := Some(BuildOp(Now(), key, open, FinalFacts(e, h, if expectsBody then Some(e.ts) else None)));
      ops := ops[key := ops[key].(open := None)];
    }

    method OnTlsReadBody(e: EvtTlsBody) returns (out: Option<Operation>)
      modifies this
      ensures (Now(), out) == CorrelatorState.OnTlsReadBody(old(Now()), e)
    {
      hide Tally, Foreign;
      var key := Key(e.tgid, e.fd);
      if Foreign(Now(), key, e.cookie) {
        return None;
      }
      out := TallyBody(key, e.ts, e.len);
    }

    method TallyBody(key: Key, ts: nat, len: nat) returns (out: Option<Operation>)
      modifies this`ops
      ensures (Now(), out) == Tally(old(Now()), key, ts, len)
    {
      hide BuildOp;
      Touched(key, ts);
      if key !in ops || ops[key].open.None? || ops[key].open.value.resp.None? {
        return None;
      }
      var open := ops[key].open.value;
      var rs := open.resp.value;
      var seen := SatAdd(rs.bodySeen, len);
      if seen < rs.bodyTarget {
        ops := ops[key := ops[key].(open := Some(open.(resp := Some(rs.(bodySeen := seen)))))];
        return None;
      }
      out := Some(BuildOp(Now(), key, open, FactsOf(rs, Some(ts))));
      ops := ops[key := ops[key].(open := None)];
    }

    method InsertTls(cookie: Cookie, info: TlsInfo)
      modifies this`tls
      ensures Now() == SetTls(old(Now()), cookie, info)
    {
      hide EvictOver, StrictTotal;
      KeyOrders();
      tls := tls[cookie := info];
      tls := EvictOldestOver(CookieLess, tls, TlsStamps(tls), maxOpen, {cookie});
    }

    method OnTlsHandshake(e: EvtHandshake)
      modifies this`tls
      ensures Now() == CorrelatorState.OnTlsHandshake(old(Now()), e)
    {
      hide SetTls, Dns.QnameStr;
      if e.truncated {
        return;
      }
      var sni := Dns.QnameStr(e.sni, e.sniLen);
      if sni.None? {
        return;
      }
      InsertTls(e.cookie, TlsAt(Now(), e.cookie, e.ts).(sni := sni.value, ts := e.ts));
    }

    method OnTlsServer(e: EvtServer)
      modifies this`tls
      ensures Now() == CorrelatorState.OnTlsServer(old(Now()), e)
    {
      hide SetTls;
      var entry := TlsAt(Now(), e.cookie, e.ts);
      if e.version != 0 {
        entry := entry.(version := Some(e.version));
      }
      if e.cipher != 0 {
        entry := entry.(cipher := Some(e.cipher));
      }
      InsertTls(e.cookie, entry);
    }

    method OnDnsQuery(e: EvtDnsQuery)
      modifies this`pendingDns
      ensures Now() == CorrelatorState.OnDnsQuery(old(Now()), e)
    {
      hide EvictOver, StrictTotal, Dns.QnameStr;
      if e.truncated {
        return;
      }
      var qname := Dns.QnameStr(e.qname, e.qnameLen);
      if qname.None? {
        return;
      }
      var key := (e.cookie, e.txnId);
      KeyOrders();
      pendingDns := pendingDns[key := PendingQuery(qname.value, e.ts)];
      pendingDns := EvictOldestOver(TxnLess, pendingDns, QueryStamps(pendingDns), DNS_MAP_CAP, {key});
    }

    method OnDnsResponse(e: EvtDnsResponse)
      modifies this`pendingDns, this`resolutions
      ensures Now() == CorrelatorState.OnDnsResponse(old(Now()), e)
    {
      hide EvictOver, StrictTotal, Dns.ParseResponse, Record, AnswerIps;
      var parsed := Dns.ParseDnsResponse(e.payload);
      if parsed.None? {
        return;
      }
      var r := parsed.value;
      var key := (e.cookie, r.txnId);
      if r.qname.None? {
        return;
      }
      if key !in pendingDns || pendingDns[key].qname != r.qname.value {
        return;
      }
      var q := pendingDns[key];
      pendingDns := pendingDns - {key};
      var res := Resolution(q.qname, SatSub(e.ts, q.queryTs), 0, Min(|r.answers|, 255), q.queryTs, e.ts);
      RecordAnswers(r.answers, res);
      KeyOrders();
      AnswersBound(e.payload);
      resolutions := EvictOldestOver(IpLess, resolutions, ResolutionStamps(resolutions), DNS_MAP_CAP, AnswerIps(r.answers));
    }

    method RecordAnswers(answers: seq<Dns.Answer>, res: Resolution)
      modifies this`resolutions
      ensures Now() == old(Now()).(resolutions := Record(old(resolutions), answers, res))
    {
      for i := 0 to |answers|
        invariant Now() == old(Now()).(resolutions := Record(old(resolutions), answers[..i], res))
      {
        assert answers[..i + 1][..i] == answers[..i];
        resolutions := resolutions[answers[i].ip := res.(ttl := answers[i].ttl)];
      }
      assert answers[..|answers|] == answers;
    }

    method OnGetaddrinfo(e: EvtGetaddrinfo)
      modifies this`gai
      ensures Now() == CorrelatorState.OnGetaddrinfo(old(Now()), e)
    {
      hide EvictOver, StrictTotal, Dns.QnameStr, SawWire;
      if e.ret != 0 || e.truncated {
        return;
      }
      var host := Dns.QnameStr(e.host, e.hostLen);
      if host.None? {
        return;
      }
      var sawWire := SawWire(Now(), host.value, SatSub(e.ts, e.latency), e.ts);
      KeyOrders();
      gai := gai[host.value := Gai(e.latency, !sawWire, e.ts)];
      gai := EvictOldestOver(StringLess, gai, GaiStamps(gai), DNS_MAP_CAP, {host.value});
    }
  }

  lemma SameNames(s: State, t: State, c: Option<ConnState>)
    requires s.resolutions == t.resolutions && s.gai == t.gai
    ensures ConnDns(s, c) == ConnDns(t, c)
  {
  }
}
