/**
  Attribution: every record reports one request of the run, and is joined to the cookie the request
  came with, else to that of its descriptor's last conn_id ahead of it, or to none.
 */
module CorrelatorAttribution {
  import opened Wrappers
  import opened Eviction
  import opened CorrelatorState
  import opened CorrelatorRuns
  import Http = HttpHead
  import Ledger = CorrelatorLedger

  // ---------------------------------------------------------------------------------------
  // What is known of links, open ops and records
  // ---------------------------------------------------------------------------------------

  /** Every link is the last conn_id its key saw. */
  ghost predicate LinksKnown(links: map<Key, FdLink>, last: map<Key, Bound>) {
    forall k :: k in links ==> k in last && last[k].cookie == links[k].cookie
  }

  /** The request-side facts of an op never change. */
  predicate SameRequest(op: OpenOp, o: OpenOp) {
    && op.id == o.id && op.ts == o.ts && op.reqSeq == o.reqSeq && op.verb == o.verb && op.s3Op == o.s3Op
    && op.bucket == o.bucket && op.keyHash == o.keyHash && op.bytesSent == o.bytesSent
    && op.headTruncated == o.headTruncated && op.cookie == o.cookie
  }

  /** An open op descends from a request on its own key, and no conn_id has rebound the key since. */
  predicate OpenOk(k: Key, op: OpenOp, origins: seq<Origin>, last: map<Key, Bound>) {
    && 1 <= op.id <= |origins|
    && origins[op.id - 1].key == k
    && origins[op.id - 1].conn == Get(last, k)
    && SameRequest(op, origins[op.id - 1].op)
  }

  ghost predicate OpensOk(ops: map<Key, Slot>, origins: seq<Origin>, last: map<Key, Bound>) {
    forall k :: k in ops && ops[k].open.Some? ==> OpenOk(k, ops[k].open.value, origins, last)
  }

  /** The cookie joined is the one the request came with; without one, its descriptor's last conn_id's, or none. */
  predicate JoinedTo(cookie: Cookie, o: Origin) {
    if o.op.cookie.Some? then cookie == o.op.cookie.value
    else cookie == 0 || (o.conn.Some? && cookie == o.conn.value.cookie)
  }

  /** A record tells of its own request, under that request's cookie. */
  predicate TellsOf(r: Operation, o: Origin) {
    && r.id == o.op.id && r.ts == o.op.ts && r.reqSeq == o.op.reqSeq && r.verb == o.op.verb && r.s3Op == o.op.s3Op
    && r.keyHash == o.op.keyHash && r.bytesSent == o.op.bytesSent
    && r.connectionReused == (o.op.reqSeq > 0)
    && (r.connectionReused ==> r.dns.None? && r.tcpConnectNs.None?)
    && (o.op.headTruncated ==> r.isPartial)
    && JoinedTo(r.sockCookie, o)
  }

  predicate EmittedOk(r: Operation, origins: seq<Origin>) {
    1 <= r.id <= |origins| && TellsOf(r, origins[r.id - 1])
  }

  ghost predicate LogOk(log: seq<Operation>, origins: seq<Origin>) {
    forall i :: 0 <= i < |log| ==> EmittedOk(log[i], origins)
  }

  ghost predicate Faithful(s: State, origins: seq<Origin>, last: map<Key, Bound>) {
    LinksKnown(s.fdLinks, last) && OpensOk(s.ops, origins, last) && LogOk(s.flushed, origins)
  }

  // ---------------------------------------------------------------------------------------
  // Every handler keeps it
  // ---------------------------------------------------------------------------------------

  lemma BuildFaithful(s: State, k: Key, op: OpenOp, f: RespFacts, origins: seq<Origin>, last: map<Key, Bound>)
    requires LinksKnown(s.fdLinks, last) && OpenOk(k, op, origins, last)
    ensures EmittedOk(BuildOp(s, k, op, f), origins)
  {
    hide DnsForIp, OpSniBucket, Elapsed, EndpointIp;
  }

  lemma FlushFaithful(s: State, k: Key, origins: seq<Origin>, last: map<Key, Bound>)
    requires Faithful(s, origins, last)
    ensures Faithful(FlushAndDrop(s, k), origins, last)
  {
    hide BuildOp, OpenOk, EmittedOk;
    var op := OpenAt(s, k);
    if op.Some? {
      BuildFaithful(s, k, op.value, FactsOnFlush(op.value), origins, last);
    }
  }

  /** Less is known of less. */
  lemma FewerFaithful(s: State, s': State, origins: seq<Origin>, last: map<Key, Bound>)
    requires Faithful(s, origins, last)
    requires Within(s'.fdLinks, s.fdLinks) && Within(s'.ops, s.ops) && s'.flushed == s.flushed
    ensures Faithful(s', origins, last)
  {
    hide OpenOk, EmittedOk;
  }

  lemma WithinSelf<K, V>(m: map<K, V>, gone: set<K>)
    ensures Within(m, m) && Within(m - gone, m)
  {
  }

  lemma {:induction false} DropSlotsFaithful(s: State, keys: seq<Key>, origins: seq<Origin>, last: map<Key, Bound>)
    requires Faithful(s, origins, last)
    ensures Faithful(DropSlots(s, keys), origins, last)
  {
    hide FlushAndDrop, Faithful;
    if keys != [] {
      DropSlotsFaithful(s, keys[..|keys| - 1], origins, last);
      FlushFaithful(DropSlots(s, keys[..|keys| - 1]), keys[|keys| - 1], origins, last);
    }
  }

  lemma UnlinkFaithful(s: State, key: Key, origins: seq<Origin>, last: map<Key, Bound>)
    requires Faithful(s, origins, last)
    ensures Faithful(Unlink(s, key), origins, last)
  {
    hide Faithful, Within;
    WithinSelf(s.fdLinks, {key});
    WithinSelf(s.ops, {});
    FewerFaithful(s, Unlink(s, key), origins, last);
  }

  lemma {:induction false} DropLinksFaithful(s: State, keys: seq<Key>, origins: seq<Origin>, last: map<Key, Bound>)
    requires Faithful(s, origins, last)
    ensures Faithful(DropLinks(s, keys), origins, last)
  {
    hide FlushAndDrop, Faithful, Unlink;
    if keys != [] {
      var front, k := DropLinks(s, keys[..|keys| - 1]), keys[|keys| - 1];
      DropLinksFaithful(s, keys[..|keys| - 1], origins, last);
      FlushFaithful(front, k, origins, last);
      UnlinkFaithful(FlushAndDrop(front, k), k, origins, last);
    }
  }

  lemma DisconnectFaithful(s: State, k: Key, cookie: Cookie, origins: seq<Origin>, last: map<Key, Bound>)
    requires Faithful(s, origins, last)
    ensures Faithful(Disconnect(s, k, cookie), origins, last)
  {
    var t := FlushAndDrop(s, k);
    FlushFaithful(s, k, origins, last);
    assert t.fdLinks == s.fdLinks by { hide FlushedWith; }
    hide Faithful, Within, FlushAndDrop;
    WithinSelf(t.fdLinks, {k});
    WithinSelf(t.ops, {});
    FewerFaithful(t, Disconnect(s, k, cookie), origins, last);
  }

  /** What a fold leaves alone, as far as attribution goes. */
  predicate Untouched(s: State, s': State) {
    s'.fdLinks == s.fdLinks && s'.ops == s.ops && s'.flushed == s.flushed
  }

  lemma UntouchedFaithful(s: State, s': State, origins: seq<Origin>, last: map<Key, Bound>)
    requires Faithful(s, origins, last) && Untouched(s, s')
    ensures Faithful(s', origins, last)
  {
    hide LinksKnown, OpensOk, LogOk;
  }

  lemma ConnectFaithful(s: State, e: EvtConnect, origins: seq<Origin>, last: map<Key, Bound>)
    requires Faithful(s, origins, last)
    ensures Faithful(OnConnect(s, e), origins, last)
  {
    hide Disconnect, EvictOver, ConnStamps, StaleLink, ConnOf, Faithful;
    var stale := StaleLink(s, e);
    if stale.Some? {
      DisconnectFaithful(s, stale.value, e.cookie, origins, last);
      UntouchedFaithful(Disconnect(s, stale.value, e.cookie), OnConnect(s, e), origins, last);
    } else {
      UntouchedFaithful(s, OnConnect(s, e), origins, last);
    }
  }

  lemma CloseFaithful(s: State, e: EvtClose, pick: Option<Key>, origins: seq<Origin>, last: map<Key, Bound>)
    requires Faithful(s, origins, last)
    ensures Faithful(OnClose(s, e, pick), origins, last)
  {
    hide Disconnect, FlushAndDrop, OwnLink, Faithful;
    var own := OwnLink(s, e);
    if own.Some? {
      DisconnectFaithful(s, own.value, e.cookie, origins, last);
    } else if pick.Some? {
      FlushFaithful(s, pick.value, origins, last);
    }
    UntouchedFaithful(CloseSlot(s, e, pick), OnClose(s, e, pick), origins, last);
  }

  /** Binding a key whose slot is gone. */
  lemma BindFaithful(s: State, key: Key, link: FdLink, at: nat, origins: seq<Origin>, last: map<Key, Bound>)
    requires Faithful(s, origins, last) && key !in s.ops
    ensures Faithful(Bind(s, key, link), origins, last[key := Bound(at, link.cookie)])
  {
    hide EmittedOk, Unclaimed;
  }

  lemma RelinkFaithful(s: State, key: Key, link: FdLink, at: nat, origins: seq<Origin>, last: map<Key, Bound>)
    requires Faithful(s, origins, last) && key !in s.ops
    ensures Faithful(Relink(s, key, link), origins, last[key := Bound(at, link.cookie)])
  {
    var s1, other := Bind(s, key, link), Displaced(s, key, link.cookie);
    BindFaithful(s, key, link, at, origins, last);
    hide Bind, Displaced, Faithful, FlushAndDrop, Within;
    if other.Some? {
      var last' := last[key := Bound(at, link.cookie)];
      var t := FlushAndDrop(s1, other.value);
      FlushFaithful(s1, other.value, origins, last');
      FlushFrame(s1, other.value);
      WithinSelf(t.fdLinks, {other.value});
      WithinSelf(t.ops, {});
      FewerFaithful(t, Relink(s, key, link), origins, last');
    }
  }

  lemma ConnIdFaithful(s: State, e: EvtConnId, at: nat, origins: seq<Origin>, last: map<Key, Bound>)
    requires Faithful(s, origins, last)
    ensures Faithful(OnConnId(s, e), origins, last[Key(e.tgid, e.fd) := Bound(at, e.cookie)])
  {
    hide FlushAndDrop, Relink, DropLinks, LinkVictims, Faithful;
    var key := Key(e.tgid, e.fd);
    var s1 := if key in s.ops then FlushAndDrop(s, key) else s;
    FlushFaithful(s, key, origins, last);
    FlushFrame(s, key);
    RelinkFaithful(s1, key, FdLink(e.cookie, e.ts), at, origins, last);
    DropLinksFaithful(Relinked(s, e), LinkVictims(Relinked(s, e), key), origins, last[key := Bound(at, e.cookie)]);
  }

  lemma LogGrows(log: seq<Operation>, origins: seq<Origin>, more: seq<Origin>)
    requires LogOk(log, origins) && origins <= more
    ensures LogOk(log, more)
  {
    hide TellsOf;
  }

  lemma OpensGrow(ops: map<Key, Slot>, origins: seq<Origin>, more: seq<Origin>, last: map<Key, Bound>)
    requires OpensOk(ops, origins, last) && origins <= more
    ensures OpensOk(ops, more, last)
  {
    hide SameRequest;
  }

  /** Replacing what is open at `key`. */
  lemma SetSlotFaithful(s: State, key: Key, slot: Slot, origins: seq<Origin>, last: map<Key, Bound>)
    requires Faithful(s, origins, last)
    requires slot.open.Some? ==> OpenOk(key, slot.open.value, origins, last)
    ensures Faithful(SetSlot(s, key, slot), origins, last)
  {
    hide OpenOk, LinksKnown, LogOk;
  }

  lemma InterruptedOk(s: State, key: Key, bio: Option<Cookie>, origins: seq<Origin>, last: map<Key, Bound>)
    requires Faithful(s, origins, last) && Interrupted(s, key, bio).Some?
    ensures EmittedOk(Interrupted(s, key, bio).value, origins)
  {
    hide BuildOp, LogOk, EmittedOk, BioChanged;
    var p := SlotAt(s, key).open.value;
    if p.resp.Some? {
      BuildFaithful(s, key, p, FactsOf(p.resp.value, None), origins, last);
    } else {
      BuildFaithful(s, key, p, NO_FACTS, origins, last);
      BuildFaithful(s, key, p.(ambiguous := true), NO_FACTS, origins, last);
    }
  }

  lemma OpenedFaithful(s: State, e: EvtTlsData, req: Http.RequestHead, at: nat, origins: seq<Origin>, last: map<Key,
                       Bound>)
    requires Faithful(s, origins, last) && |origins| == s.opCounter
    ensures var key := Key(e.tgid, e.fd);
            Faithful(Opened(s, e, req), origins + [Origin(at, key, Get(last, key), NewOp(s, e, req))], last)
  {
    var key := Key(e.tgid, e.fd);
    var op := NewOp(s, e, req);
    var more := origins + [Origin(at, key, Get(last, key), op)];
    assert op.id == s.opCounter + 1;
    hide NewOp, LinksKnown, OpensOk, LogOk;
    LogGrows(s.flushed, origins, more);
    OpensGrow(s.ops, origins, more, last);
    assert more[op.id - 1].op == op;
    SetSlotFaithful(s, key, OpenedSlot(SlotAt(s, key), op, BioCookie(e)), more, last);
  }

  /** What a fold may do to a faithful state. */
  ghost predicate StaysFaithful(s: State, s': State, out: Option<Operation>, origins: seq<Origin>, last: map<Key,
                                Bound>) {
    Faithful(s', origins, last) && (out.Some? ==> EmittedOk(out.value, origins))
  }

  lemma WriteFaithful(s: State, e: EvtTlsData, req: Http.RequestHead, at: nat, origins: seq<Origin>, last: map<Key,
                      Bound>)
    requires Faithful(s, origins, last) && |origins| == s.opCounter && Http.ParseRequest(e.data) == Some(req)
    ensures var key := Key(e.tgid, e.fd);
            StaysFaithful(s, OnTlsWrite(s, e).0, OnTlsWrite(s, e).1,
                          origins + [Origin(at, key, Get(last, key), NewOp(s, e, req))], last)
  {
    hide NewOp, SlotVictims, DropSlots, Interrupted, Http.ParseRequest, OpenedSlot, BioCookie, Faithful, TellsOf;
    var key := Key(e.tgid, e.fd);
    var more := origins + [Origin(at, key, Get(last, key), NewOp(s, e, req))];
    OpenedFaithful(s, e, req, at, origins, last);
    DropSlotsFaithful(Opened(s, e, req), SlotVictims(Opened(s, e, req), key), more, last);
    if Interrupted(s, key, BioCookie(e)).Some? {
      InterruptedOk(s, key, BioCookie(e), origins, last);
    }
  }

  lemma TouchFaithful(s: State, key: Key, ts: nat, origins: seq<Origin>, last: map<Key, Bound>)
    requires Faithful(s, origins, last)
    ensures Faithful(Touch(s, key, ts), origins, last) && OpenAt(Touch(s, key, ts), key) == OpenAt(s, key)
    ensures key in Touch(s, key, ts).ops <==> key in s.ops
  {
    hide LinksKnown, LogOk, OpenOk;
    if key in s.ops {
      SetSlotFaithful(s, key, s.ops[key].(lastTs := ts), origins, last);
    }
  }

  /** Updating the response side of the op open at `key`, or emitting it. */
  lemma SetOpenFaithful(s: State, key: Key, op: OpenOp, f: RespFacts, origins: seq<Origin>, last: map<Key, Bound>)
    requires Faithful(s, origins, last) && OpenAt(s, key).Some? && SameRequest(op, OpenAt(s, key).value)
    ensures StaysFaithful(s, SetOpen(s, key, None), Some(BuildOp(s, key, OpenAt(s, key).value, f)), origins, last)
    ensures Faithful(SetOpen(s, key, Some(op)), origins, last)
  {
    hide BuildOp, LinksKnown, LogOk, EmittedOk;
    BuildFaithful(s, key, OpenAt(s, key).value, f, origins, last);
    SetSlotFaithful(s, key, s.ops[key].(open := None), origins, last);
    SetSlotFaithful(s, key, s.ops[key].(open := Some(op)), origins, last);
  }

  lemma TallyFaithful(s: State, key: Key, ts: nat, len: nat, origins: seq<Origin>, last: map<Key, Bound>)
    requires Faithful(s, origins, last)
    ensures StaysFaithful(s, Tally(s, key, ts, len).0, Tally(s, key, ts, len).1, origins, last)
  {
    hide BuildOp, Touch, SetOpen, Faithful, EmittedOk;
    TouchFaithful(s, key, ts, origins, last);
    var s1 := Touch(s, key, ts);
    var op := OpenAt(s1, key);
    if op.Some? && op.value.resp.Some? {
      var rs := op.value.resp.value;
      SetOpenFaithful(s1, key, op.value.(resp := Some(rs.(bodySeen := SatAdd(rs.bodySeen, len)))), FactsOf(rs, Some(ts)), origins, last);
    }
  }

  lemma FinalFaithful(s: State, key: Key, e: EvtTlsData, h: FinalHead, origins: seq<Origin>, last: map<Key, Bound>)
    requires Faithful(s, origins, last)
    ensures StaysFaithful(s, Final(s, key, e, h).0, Final(s, key, e, h).1, origins, last)
  {
    hide BuildOp, Touch, SetOpen, Faithful, EmittedOk, FinalFacts, Http.SameIgnoringCase;
    TouchFaithful(s, key, e.ts, origins, last);
    var s1 := Touch(s, key, e.ts);
    var op := OpenAt(s1, key);
    if op.Some? {
      var facts := FinalFacts(e, h, if ExpectsBody(op, h) then Some(e.ts) else None);
      if ExpectsBody(op, h) {
        var rs := RespState(e.ts, h.status, h.requestId, e.len, h.truncated, h.contentLength.value, SatSub(e.len, h.headerEnd.value));
        SetOpenFaithful(s1, key, op.value.(resp := Some(rs)), facts, origins, last);
      } else {
        SetOpenFaithful(s1, key, op.value, facts, origins, last);
      }
    }
  }

  lemma InterimFaithful(s: State, key: Key, ts: nat, origins: seq<Origin>, last: map<Key, Bound>)
    requires Faithful(s, origins, last)
    ensures Faithful(Interim(s, key, ts), origins, last)
  {
    hide BuildOp, Touch, SetOpen, Faithful, EmittedOk;
    TouchFaithful(s, key, ts, origins, last);
    var s1 := Touch(s, key, ts);
    var op := OpenAt(s1, key);
    if op.Some? {
      SetOpenFaithful(s1, key, op.value.(interimTs := op.value.interimTs.Or(Some(ts))), NO_FACTS, origins, last);
    }
  }

  lemma ReadFaithful(s: State, e: EvtTlsData, origins: seq<Origin>, last: map<Key, Bound>)
    requires Faithful(s, origins, last)
    ensures StaysFaithful(s, OnTlsRead(s, e).0, OnTlsRead(s, e).1, origins, last)
  {
    hide Tally, Final, Interim, HeadOf, Http.ParseStatus, Faithful, EmittedOk, Foreign, AwaitingBody;
    var key := Key(e.tgid, e.fd);
    TallyFaithful(s, key, e.ts, e.len, origins, last);
    if Http.ParseStatus(e.data).Some? {
      var status := Http.ParseStatus(e.data).value;
      InterimFaithful(s, key, e.ts, origins, last);
      FinalFaithful(s, key, e, HeadOf(e, status), origins, last);
    }
  }

  lemma BodyFaithful(s: State, e: EvtTlsBody, origins: seq<Origin>, last: map<Key, Bound>)
    requires Faithful(s, origins, last)
    ensures StaysFaithful(s, OnTlsReadBody(s, e).0, OnTlsReadBody(s, e).1, origins, last)
  {
    hide Tally, Faithful, EmittedOk, Foreign;
    TallyFaithful(s, Key(e.tgid, e.fd), e.ts, e.len, origins, last);
  }

  /** One fold of any event. */
  lemma FoldFaithful(w: World, ev: Event, at: nat)
    requires Good(w.s) && Faithful(w.s, w.origins, w.lastConn) && |w.origins| == w.s.opCounter
    ensures StaysFaithful(w.s, Fold(w.s, ev).0, Fold(w.s, ev).1, Origins(w, ev, at), LastConn(w.lastConn, ev, at))
  {
    var s, origins, last := w.s, w.origins, w.lastConn;
    hide OnConnect, OnClose, OnConnId, OnTlsRead, OnTlsHandshake, OnTlsServer, OnDnsQuery, OnDnsResponse, OnGetaddrinfo,
      OnTlsReadBody, DropSlots, Good, Http.ParseRequest, Faithful, EmittedOk, NewOp, SlotVictims, Interrupted,
      OpenedSlot, BioCookie;
    match ev
    case Connect(e) => ConnectFaithful(s, e, origins, last);
    case Close(e, pick) => CloseFaithful(s, e, pick, origins, last);
    case ConnId(e) => ConnIdFaithful(s, e, at, origins, last);
    case TlsWrite(e) =>
      if Opens(ev) {
        WriteFaithful(s, e, Http.ParseRequest(e.data).value, at, origins, last);
      } else {
        UntouchedFaithful(s, OnTlsWrite(s, e).0, origins, last);
      }
    case TlsRead(e) => ReadFaithful(s, e, origins, last);
    case TlsBody(e) => BodyFaithful(s, e, origins, last);
    case FlushOpen(order) => DropSlotsFaithful(s, order, origins, last);
    case TakeFlushed => EmptyQueue(s, origins, last);
    case _ =>
      NamesFrame(s, ev);
      UntouchedFaithful(s, Fold(s, ev).0, origins, last);
  }

  lemma EmptyQueue(s: State, origins: seq<Origin>, last: map<Key, Bound>)
    requires Faithful(s, origins, last)
    ensures Faithful(s.(flushed := []), origins, last)
  {
    hide LinksKnown, OpensOk;
  }

  // ---------------------------------------------------------------------------------------
  // Whole runs
  // ---------------------------------------------------------------------------------------

  /** The last conn_id for `k` among `evs`. */
  function LastBound(evs: seq<Event>, k: Key): Option<Bound> {
    if evs == [] then None
    else
      var ev := evs[|evs| - 1];
      if ev.ConnId? && Key(ev.connId.tgid, ev.connId.fd) == k then Some(Bound(|evs| - 1, ev.connId.cookie))
      else LastBound(evs[..|evs| - 1], k)
  }

  /** An origin is what the run says it is. */
  ghost predicate OriginTrue(start: World, evs: seq<Event>, o: Origin) {
    && o.at < |evs| && Opens(evs[o.at])
    && o.key == WriteKey(evs[o.at])
    && o.conn == LastBound(evs[..o.at], o.key)
    && o.op == OpOf(After(start, evs[..o.at]).s, evs[o.at])
  }

  ghost predicate OriginsTrue(start: World, evs: seq<Event>, origins: seq<Origin>) {
    forall i :: 0 <= i < |origins| ==> OriginTrue(start, evs, origins[i]) && origins[i].op.id == i + 1
  }

  ghost predicate Attributed(w: World) {
    && |w.origins| == w.s.opCounter
    && Faithful(w.s, w.origins, w.lastConn)
    && LogOk(w.returned, w.origins) && LogOk(w.taken, w.origins)
  }

  lemma LogConcat(a: seq<Operation>, b: seq<Operation>, origins: seq<Origin>)
    requires LogOk(a, origins) && LogOk(b, origins)
    ensures LogOk(a + b, origins)
  {
    hide EmittedOk;
  }

  lemma AdvanceAttributed(w: World, ev: Event, at: nat)
    requires Good(w.s) && Attributed(w)
    ensures Attributed(Advance(w, ev, at))
  {
    var more := Origins(w, ev, at);
    var out := Listed(Fold(w.s, ev).1);
    FoldFaithful(w, ev, at);
    Counts(w, ev, at);
    LogGrows(w.returned, w.origins, more);
    LogGrows(w.taken, w.origins, more);
    QueueGrows(w, more);
    hide Fold, Faithful, Good, LastConn, Origins, EmittedOk;
    assert LogOk(out, more);
    LogConcat(w.returned, out, more);
    LogConcat(w.taken, w.s.flushed, more);
  }

  lemma QueueGrows(w: World, more: seq<Origin>)
    requires Attributed(w) && w.origins <= more
    ensures LogOk(w.s.flushed, more)
  {
    hide LinksKnown, OpensOk, EmittedOk;
    LogGrows(w.s.flushed, w.origins, more);
  }

  /** Every request is counted, and nothing else is. */
  lemma Counts(w: World, ev: Event, at: nat)
    requires Good(w.s) && |w.origins| == w.s.opCounter
    ensures |Origins(w, ev, at)| == Fold(w.s, ev).0.opCounter
    ensures w.origins <= Origins(w, ev, at)
  {
    hide Fold, Good, OpOf, Http.ParseRequest;
    Ledger.FoldCounts(w.s, ev);
  }

  lemma {:induction false} AlwaysAttributed(maxOpen: nat, endpoints: seq<string>, salt: string, evs: seq<Event>)
    ensures Attributed(After(Start(maxOpen, endpoints, salt), evs))
  {
    if evs != [] {
      hide Advance, Good, Attributed, Start;
      var front := evs[..|evs| - 1];
      AlwaysAttributed(maxOpen, endpoints, salt, front);
      GoodAlways(maxOpen, endpoints, salt, front);
      AdvanceAttributed(After(Start(maxOpen, endpoints, salt), front), evs[|evs| - 1], |evs| - 1);
    }
  }

  lemma {:induction false} BoundsTrue(start: World, evs: seq<Event>, k: Key)
    requires start.lastConn == map[]
    ensures Get(After(start, evs).lastConn, k) == LastBound(evs, k)
  {
    if evs != [] {
      hide Fold, Origins;
      BoundsTrue(start, evs[..|evs| - 1], k);
    }
  }

  lemma {:induction false} AlwaysTrue(maxOpen: nat, endpoints: seq<string>, salt: string, evs: seq<Event>)
    ensures OriginsTrue(Start(maxOpen, endpoints, salt), evs, After(Start(maxOpen, endpoints, salt), evs).origins)
  {
    hide OriginsTrue, Fold, Attributed;
    var start := Start(maxOpen, endpoints, salt);
    if evs == [] {
      NoOrigins(start);
    } else {
      hide Start, Origins;
      var front, ev := evs[..|evs| - 1], evs[|evs| - 1];
      AlwaysTrue(maxOpen, endpoints, salt, front);
      AlwaysAttributed(maxOpen, endpoints, salt, front);
      NextTrue(start, front, ev);
      assert evs == front + [ev];
    }
  }

  lemma NoOrigins(start: World)
    ensures OriginsTrue(start, [], [])
  {
    hide OriginTrue;
  }

  lemma NextTrue(start: World, front: seq<Event>, ev: Event)
    requires start.lastConn == map[] && Attributed(After(start, front))
    requires OriginsTrue(start, front, After(start, front).origins)
    ensures OriginsTrue(start, front + [ev], Origins(After(start, front), ev, |front|))
  {
    hide After, OpOf, Http.ParseRequest, Faithful, LogOk, LastBound;
    var w := After(start, front);
    forall i | 0 <= i < |w.origins| ensures OriginTrue(start, front + [ev], w.origins[i]) {
      StaysTrue(start, front, ev, w.origins[i]);
    }
    if Opens(ev) {
      BoundsTrue(start, front, WriteKey(ev));
      OpensNext(w.s, ev);
      assert (front + [ev])[..|front|] == front;
    }
  }

  lemma OpensNext(s: State, ev: Event)
    requires Opens(ev)
    ensures OpOf(s, ev).id == s.opCounter + 1
  {
    hide ResolveRequest, HeadTruncated;
  }

  lemma StaysTrue(start: World, front: seq<Event>, ev: Event, o: Origin)
    requires OriginTrue(start, front, o)
    ensures OriginTrue(start, front + [ev], o)
  {
    hide After, OpOf, Opens, LastBound;
    assert (front + [ev])[..o.at] == front[..o.at];
  }

  predicate Emitted(w: World, r: Operation) {
    r in w.returned || r in w.taken || r in w.s.flushed
  }

  /** `r` reports the request folded at `at`. */
  ghost predicate Reports(start: World, evs: seq<Event>, r: Operation, at: nat) {
    && at < |evs| && Opens(evs[at])
    && var w := After(start, evs[..at]);
       TellsOf(r, Origin(at, WriteKey(evs[at]), LastBound(evs[..at], WriteKey(evs[at])), OpOf(w.s, evs[at])))
  }

  /**
    Every record ever emitted reports one request of the run with that request's own facts, joined
    to the kernel's cookie for it when it came with one, else to the connection its descriptor's
    last conn_id named before the request, or to none.
   */
  lemma EveryRecordReports(maxOpen: nat, endpoints: seq<string>, salt: string, evs: seq<Event>,
                           r: Operation) returns (at: nat)
    requires Emitted(After(Start(maxOpen, endpoints, salt), evs), r)
    ensures Reports(Start(maxOpen, endpoints, salt), evs, r, at)
  {
    hide Start, Faithful, TellsOf, After, LastBound, OpOf, Opens;
    var start := Start(maxOpen, endpoints, salt);
    var w := After(start, evs);
    AlwaysAttributed(maxOpen, endpoints, salt, evs);
    AlwaysTrue(maxOpen, endpoints, salt, evs);
    QueueGrows(w, w.origins);
    assert EmittedOk(r, w.origins);
    at := w.origins[r.id - 1].at;
    assert OriginTrue(start, evs, w.origins[r.id - 1]);
  }
}
