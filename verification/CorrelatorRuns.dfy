/**
  Whole runs of the correlator: any sequence of events from the two rings, in any order, with any
  of them lost, and what holds of every state and every emitted record along the way.
 */
module CorrelatorRuns {
  import opened Wrappers
  import opened Eviction
  import opened CorrelatorState
  import Dns = DnsNames
  import Http = HttpHead

  // ---------------------------------------------------------------------------------------
  // Runs
  // ---------------------------------------------------------------------------------------

  /** One fold, with the choice a hash map's iteration order makes where there is one. */
  datatype Event =
    | Connect(connect: EvtConnect)
    | Close(close: EvtClose, pick: Option<Key>)
    | ConnId(connId: EvtConnId)
    | TlsWrite(write: EvtTlsData)
    | TlsRead(read: EvtTlsData)
    | TlsBody(body: EvtTlsBody)
    | Handshake(handshake: EvtHandshake)
    | Server(server: EvtServer)
    | DnsQuery(query: EvtDnsQuery)
    | DnsResponse(response: EvtDnsResponse)
    | Getaddrinfo(call: EvtGetaddrinfo)
    | TakeFlushed
    | FlushOpen(order: seq<Key>)

  /** `order` lists the occupied slots, each once. */
  ghost predicate ListsSlots(s: State, order: seq<Key>) {
    && (forall k :: k in order <==> k in s.ops)
    && (forall i, j :: 0 <= i < j < |order| ==> order[i] != order[j])
  }

  /** The choice is one the map could have made. */
  ghost predicate Legal(s: State, ev: Event) {
    match ev
    case Close(e, pick) => e.cookie in s.fdRev || BioPick(s, e.cookie, pick)
    case FlushOpen(order) => ListsSlots(s, order)
    case _ => true
  }

  /** The state after one fold, and the operation the fold returns. */
  ghost function Fold(s: State, ev: Event): (State, Option<Operation>)
  {
    match ev
    case Connect(e) => (OnConnect(s, e), None)
    case Close(e, pick) => (OnClose(s, e, pick), None)
    case ConnId(e) => (OnConnId(s, e), None)
    case TlsWrite(e) => OnTlsWrite(s, e)
    case TlsRead(e) => OnTlsRead(s, e)
    case TlsBody(e) => OnTlsReadBody(s, e)
    case Handshake(e) => (OnTlsHandshake(s, e), None)
    case Server(e) => (OnTlsServer(s, e), None)
    case DnsQuery(e) => (OnDnsQuery(s, e), None)
    case DnsResponse(e) => (OnDnsResponse(s, e), None)
    case Getaddrinfo(e) => (OnGetaddrinfo(s, e), None)
    case TakeFlushed => (s.(flushed := []), None)
    case FlushOpen(order) => (DropSlots(s, order), None)
  }

  function Init(maxOpen: nat, endpoints: seq<string>, salt: string): State {
    State(map[], Max(maxOpen, 1), map[], map[], map[], map[], map[], map[], map[], 0, [], 0, endpoints, salt)
  }

  /** A conn_id folded at position `at` of the run. */
  datatype Bound = Bound(at: nat, cookie: Cookie)

  /** Where an op came from: the write that opened it, and the last conn_id its key had seen by then. */
  datatype Origin = Origin(at: nat, key: Key, conn: Option<Bound>, op: OpenOp)

  /** A state with the history of its run. */
  datatype World = World(s: State, returned: seq<Operation>, taken: seq<Operation>, origins: seq<Origin>,
                         lastConn: map<Key, Bound>)

  function Start(maxOpen: nat, endpoints: seq<string>, salt: string): World {
    World(Init(maxOpen, endpoints, salt), [], [], [], map[])
  }

  function Listed(op: Option<Operation>): seq<Operation> {
    if op.Some? then [op.value] else []
  }

  /** A write that opens an op. */
  predicate Opens(ev: Event) { ev.TlsWrite? && Http.ParseRequest(ev.write.data).Some? }

  /** The op an opening write opens. */
  function OpOf(s: State, ev: Event): OpenOp
    requires Opens(ev)
  {
    NewOp(s, ev.write, Http.ParseRequest(ev.write.data).value)
  }

  function WriteKey(ev: Event): Key
    requires ev.TlsWrite?
  {
    Key(ev.write.tgid, ev.write.fd)
  }

  function Origins(w: World, ev: Event, at: nat): seq<Origin> {
    if Opens(ev) then w.origins + [Origin(at, WriteKey(ev), Get(w.lastConn, WriteKey(ev)), OpOf(w.s, ev))] else w.origins
  }

  function LastConn(lastConn: map<Key, Bound>, ev: Event, at: nat): map<Key, Bound> {
    if ev.ConnId? then lastConn[Key(ev.connId.tgid, ev.connId.fd) := Bound(at, ev.connId.cookie)] else lastConn
  }

  ghost function Advance(w: World, ev: Event, at: nat): World {
    var r := Fold(w.s, ev);
    World(r.0, w.returned + Listed(r.1), if ev.TakeFlushed? then w.taken + w.s.flushed else w.taken,
          Origins(w, ev, at), LastConn(w.lastConn, ev, at))
  }

  /** A run of any events from `w`. */
  ghost function After(w: World, evs: seq<Event>): World {
    if evs == [] then w else Advance(After(w, evs[..|evs| - 1]), evs[|evs| - 1], |evs| - 1)
  }

  /** The state ahead of the fold of `evs[n]`. */
  ghost function Ahead(start: World, evs: seq<Event>, n: nat): State
    requires n <= |evs|
  {
    After(start, evs[..n]).s
  }

  lemma LastStep(w: World, evs: seq<Event>, ev: Event)
    ensures After(w, evs + [ev]) == Advance(After(w, evs), ev, |evs|)
  {
    hide Advance;
    assert (evs + [ev])[..|evs + [ev]| - 1] == evs;
  }

  lemma NextState(w: World, evs: seq<Event>, ev: Event)
    ensures After(w, evs + [ev]).s == Fold(After(w, evs).s, ev).0
  {
    hide After, Fold, Origins, LastConn;
    LastStep(w, evs, ev);
  }

  lemma NextReturned(w: World, evs: seq<Event>, ev: Event)
    ensures After(w, evs + [ev]).returned == After(w, evs).returned + Listed(Fold(After(w, evs).s, ev).1)
  {
    hide After, Fold, Origins, LastConn;
    LastStep(w, evs, ev);
  }

  // ---------------------------------------------------------------------------------------
  // What every state satisfies
  // ---------------------------------------------------------------------------------------

  /** The two link maps are inverse to each other. */
  ghost predicate Inverse(links: map<Key, FdLink>, rev: map<Cookie, Key>) {
    && (forall k :: k in links ==> links[k].cookie in rev && rev[links[k].cookie] == k)
    && (forall c :: c in rev ==> rev[c] in links && links[rev[c]].cookie == c)
  }

  /** Every map is within its cap. */
  predicate Caps(s: State) {
    && |s.conns| <= s.maxOpen && |s.tls| <= s.maxOpen && |s.fdLinks| <= s.maxOpen && |s.ops| <= s.maxOpen
    && |s.pendingDns| <= DNS_MAP_CAP && |s.resolutions| <= DNS_MAP_CAP && |s.gai| <= DNS_MAP_CAP
  }

  /**
    An op in flight is the latest request of its slot, and one with a response has its head whole and
    still lacks body bytes.
   */
  predicate OpOk(k: Key, slot: Slot, op: OpenOp) {
    && op.reqSeq + 1 == slot.nextSeq
    && (op.cookie.Some? ==> k.fd == 0 && slot.lastBio == op.cookie)
    && (op.resp.Some? ==>
          && op.resp.value.bodySeen < op.resp.value.bodyTarget <= Http.MAX_CONTENT_LENGTH
          && op.resp.value.status != 204 && op.resp.value.status != 304
          && !op.resp.value.truncated)
  }

  predicate SlotOk(k: Key, slot: Slot) {
    && slot.nextSeq >= 1
    && (slot.lastBio.Some? ==> k.fd == 0)
    && (slot.open.Some? ==> OpOk(k, slot, slot.open.value))
  }

  ghost predicate SlotsOk(ops: map<Key, Slot>) {
    forall k :: k in ops ==> SlotOk(k, ops[k])
  }

  ghost predicate Good(s: State) {
    Inverse(s.fdLinks, s.fdRev) && Caps(s) && SlotsOk(s.ops)
  }

  lemma {:induction false} FewerKeys<K, V>(m: map<K, V>, gone: set<K>)
    ensures |m - gone| <= |m|
  {
    assert (m - gone).Keys == m.Keys - gone;
    Subset((m - gone).Keys, m.Keys);
  }

  lemma OneMoreKey<K, V>(m: map<K, V>, k: K, v: V)
    ensures |m[k := v]| <= |m| + 1
    ensures k in m ==> |m[k := v]| == |m|
  {
    assert m[k := v].Keys == m.Keys + {k};
  }

  /** `small` is a part of `big`. */
  ghost predicate Within<K, V>(small: map<K, V>, big: map<K, V>) {
    forall k :: k in small ==> k in big && small[k] == big[k]
  }

  lemma WithinCount<K, V>(small: map<K, V>, big: map<K, V>)
    requires Within(small, big)
    ensures |small| <= |big|
  {
    Subset(small.Keys, big.Keys);
  }

  lemma InverseRemove(links: map<Key, FdLink>, rev: map<Cookie, Key>, k: Key)
    requires Inverse(links, rev) && k in links
    ensures Inverse(links - {k}, rev - {links[k].cookie})
  {
  }

  lemma InverseDrop(links: map<Key, FdLink>, rev: map<Cookie, Key>, k: Key)
    requires Inverse(links, rev)
    ensures k !in links ==> links - {k} == links
    ensures k in links ==> Get(rev, links[k].cookie) == Some(k)
  {
  }

  /** Everything but `ops` and `flushed` is as it was, and `keys` are gone from `ops`. */
  predicate Flushed(s: State, s': State, keys: set<Key>) {
    s' == s.(ops := s.ops - keys, flushed := s'.flushed)
  }

  lemma FlushFrame(s: State, key: Key)
    ensures Flushed(s, FlushAndDrop(s, key), {key})
  {
    hide FlushedWith;
  }

  lemma {:induction false} DropSlotsFrame(s: State, keys: seq<Key>)
    ensures Flushed(s, DropSlots(s, keys), AsSet(keys))
  {
    hide FlushAndDrop;
    if keys != [] {
      var front, last := keys[..|keys| - 1], keys[|keys| - 1];
      DropSlotsFrame(s, front);
      FlushFrame(DropSlots(s, front), last);
      AsSetLast(keys);
      assert s.ops - AsSet(front) - {last} == s.ops - AsSet(keys);
    } else {
      assert s.ops - AsSet(keys) == s.ops;
    }
  }

  /** As `Flushed`, and the links of `keys` are gone with them. */
  ghost predicate Severed(s: State, s': State, keys: set<Key>) {
    && s' == s.(ops := s.ops - keys, flushed := s'.flushed, fdLinks := s.fdLinks - keys, fdRev := s'.fdRev)
    && Inverse(s'.fdLinks, s'.fdRev)
  }

  lemma SeverOne(s: State, key: Key)
    requires Inverse(s.fdLinks, s.fdRev)
    ensures Severed(s, Unlink(FlushAndDrop(s, key), key), {key})
  {
    hide FlushAndDrop;
    FlushFrame(s, key);
    InverseDrop(s.fdLinks, s.fdRev, key);
    if key in s.fdLinks {
      InverseRemove(s.fdLinks, s.fdRev, key);
    }
  }

  lemma {:induction false} DropLinksFrame(s: State, keys: seq<Key>)
    requires Inverse(s.fdLinks, s.fdRev)
    ensures Severed(s, DropLinks(s, keys), AsSet(keys))
  {
    hide FlushedWith, FlushAndDrop, Unlink;
    if keys != [] {
      var front, last := keys[..|keys| - 1], keys[|keys| - 1];
      DropLinksFrame(s, front);
      SeverOne(DropLinks(s, front), last);
      AsSetLast(keys);
      assert s.ops - AsSet(front) - {last} == s.ops - AsSet(keys);
      assert s.fdLinks - AsSet(front) - {last} == s.fdLinks - AsSet(keys);
    } else {
      assert s.ops - AsSet(keys) == s.ops && s.fdLinks - AsSet(keys) == s.fdLinks;
    }
  }

  lemma GoodFlush(s: State, k: Key)
    requires Good(s)
    ensures Good(FlushAndDrop(s, k))
  {
    hide FlushedWith, Inverse, SlotsOk;
    FewerKeys(s.ops, {k});
    SlotsOkWithout(s.ops, {k});
  }

  lemma SlotsOkWithout(ops: map<Key, Slot>, gone: set<Key>)
    requires SlotsOk(ops)
    ensures SlotsOk(ops - gone)
  {
    hide SlotOk;
  }

  /** Tearing a link down with its slot keeps the maps inverse. */
  lemma GoodDisconnect(s: State, k: Key, cookie: Cookie)
    requires Good(s) && k in s.fdLinks && s.fdLinks[k].cookie == cookie
    ensures Good(Disconnect(s, k, cookie))
  {
    hide FlushedWith, Inverse, SlotsOk;
    GoodFlush(s, k);
    FewerKeys(s.fdLinks, {k});
    InverseRemove(s.fdLinks, s.fdRev, k);
  }

  lemma GoodConnect(s: State, e: EvtConnect)
    requires Good(s)
    ensures Good(OnConnect(s, e))
  {
    hide Disconnect, EvictOver, ConnStamps, StaleLink, ConnOf, Inverse, SlotsOk;
    var stale := StaleLink(s, e);
    FewerKeys(s.tls, {e.cookie});
    if stale.Some? {
      StaleLinked(s, e);
      GoodDisconnect(s, stale.value, e.cookie);
      DisconnectFrame(s, stale.value, e.cookie);
    }
  }

  lemma StaleLinked(s: State, e: EvtConnect)
    requires Inverse(s.fdLinks, s.fdRev) && StaleLink(s, e).Some?
    ensures var k := StaleLink(s, e).value; k in s.fdLinks && s.fdLinks[k].cookie == e.cookie
  {
  }

  lemma DisconnectFrame(s: State, k: Key, cookie: Cookie)
    ensures var t := Disconnect(s, k, cookie);
            t == s.(ops := t.ops, flushed := t.flushed, fdLinks := t.fdLinks, fdRev := t.fdRev)
  {
    hide FlushedWith;
  }

  lemma CloseFrame(s: State, e: EvtClose, pick: Option<Key>)
    ensures var t := CloseSlot(s, e, pick);
            t == s.(ops := t.ops, flushed := t.flushed, fdLinks := t.fdLinks, fdRev := t.fdRev)
  {
    hide Disconnect, FlushAndDrop, OwnLink;
    if OwnLink(s, e).Some? {
      DisconnectFrame(s, OwnLink(s, e).value, e.cookie);
    } else if pick.Some? {
      FlushFrame(s, pick.value);
    }
  }

  lemma GoodCloseSlot(s: State, e: EvtClose, pick: Option<Key>)
    requires Good(s)
    ensures Good(CloseSlot(s, e, pick))
  {
    hide Disconnect, FlushAndDrop, Good, OwnLink;
    var own := OwnLink(s, e);
    if own.Some? {
      OwnLinked(s, e);
      GoodDisconnect(s, own.value, e.cookie);
    } else if pick.Some? {
      GoodFlush(s, pick.value);
    }
  }

  lemma OwnLinked(s: State, e: EvtClose)
    requires Good(s) && OwnLink(s, e).Some?
    ensures var k := OwnLink(s, e).value; k in s.fdLinks && s.fdLinks[k].cookie == e.cookie
  {
    hide Caps, SlotsOk;
  }

  lemma GoodClose(s: State, e: EvtClose, pick: Option<Key>)
    requires Good(s)
    ensures Good(OnClose(s, e, pick))
  {
    hide CloseSlot, Inverse, SlotsOk;
    GoodCloseSlot(s, e, pick);
    FewerKeys(CloseSlot(s, e, pick).conns, {e.cookie});
    FewerKeys(CloseSlot(s, e, pick).tls, {e.cookie});
  }

  lemma GoodBind(s: State, key: Key, link: FdLink)
    requires Inverse(s.fdLinks, s.fdRev)
    ensures var s1, other := Bind(s, key, link), Displaced(s, key, link.cookie);
            var links := if other.Some? then s1.fdLinks - {other.value} else s1.fdLinks;
            && Inverse(links, s1.fdRev)
            && key in links && links[key] == link
            && Within(links - {key}, s.fdLinks)
  {
  }

  /** The state once a conn_id is linked, before the pass. */
  function Relinked(s: State, e: EvtConnId): State {
    var key := Key(e.tgid, e.fd);
    Relink(if key in s.ops then FlushAndDrop(s, key) else s, key, FdLink(e.cookie, e.ts))
  }

  lemma RelinkFrame(s: State, key: Key, link: FdLink)
    requires Inverse(s.fdLinks, s.fdRev)
    ensures var s' := Relink(s, key, link);
            && s' == s.(ops := s'.ops, flushed := s'.flushed, fdLinks := s'.fdLinks, fdRev := s'.fdRev)
            && Within(s'.ops, s.ops)
            && Inverse(s'.fdLinks, s'.fdRev)
            && key in s'.fdLinks && s'.fdLinks[key] == link && Within(s'.fdLinks - {key}, s.fdLinks)
  {
    GoodBind(s, key, link);
    hide FlushedWith, Displaced, Unclaimed, Inverse;
  }

  lemma RelinkedFrame(s: State, e: EvtConnId)
    requires Inverse(s.fdLinks, s.fdRev)
    ensures var s' := Relinked(s, e);
            var key := Key(e.tgid, e.fd);
            && s' == s.(ops := s'.ops, flushed := s'.flushed, fdLinks := s'.fdLinks, fdRev := s'.fdRev)
            && Inverse(s'.fdLinks, s'.fdRev)
            && Within(s'.ops, s.ops) && key !in s'.ops
            && key in s'.fdLinks && s'.fdLinks[key] == FdLink(e.cookie, e.ts) && Within(s'.fdLinks - {key}, s.fdLinks)
  {
    hide FlushedWith, Relink, Inverse;
    var key := Key(e.tgid, e.fd);
    RelinkFrame(if key in s.ops then FlushAndDrop(s, key) else s, key, FdLink(e.cookie, e.ts));
  }

  lemma WithinOk(small: map<Key, Slot>, big: map<Key, Slot>, gone: set<Key>)
    requires Within(small, big) && SlotsOk(big)
    ensures SlotsOk(small - gone) && |small - gone| <= |big|
  {
    WithinCount(small, big);
    FewerKeys(small, gone);
  }

  lemma GoodConnId(s: State, e: EvtConnId)
    requires Good(s)
    ensures Good(OnConnId(s, e))
  {
    hide FlushAndDrop, Relink, DropLinks, LinkVictims, Inverse, SlotsOk, Within;
    RelinkedFrame(s, e);
    var s2, key := Relinked(s, e), Key(e.tgid, e.fd);
    var victims := LinkVictims(s2, key);
    DropLinksFrame(s2, victims);
    LinkCap(s2, key);
    WithinOk(s2.ops, s.ops, AsSet(victims));
  }

  lemma LinkCap(s: State, key: Key)
    ensures |s.fdLinks - AsSet(LinkVictims(s, key))| <= s.maxOpen
  {
    KeyOrders();
    PassBounds(KeyLess, LinkStamps(s.fdLinks), s.maxOpen, {key});
    var gone := AsSet(LinkVictims(s, key));
    assert (LinkStamps(s.fdLinks) - gone).Keys == s.fdLinks.Keys - gone;
    assert (s.fdLinks - gone).Keys == s.fdLinks.Keys - gone;
  }

  lemma SlotCap(s: State, key: Key)
    ensures |s.ops - AsSet(SlotVictims(s, key))| <= s.maxOpen
    ensures key !in SlotVictims(s, key)
  {
    KeyOrders();
    PassBounds(KeyLess, SlotStamps(s.ops), s.maxOpen, {key});
    var gone := AsSet(SlotVictims(s, key));
    assert (SlotStamps(s.ops) - gone).Keys == s.ops.Keys - gone;
    assert (s.ops - gone).Keys == s.ops.Keys - gone;
  }

  /** The state right after a request is opened, before the pass. */
  function Opened(s: State, e: EvtTlsData, req: Http.RequestHead): State {
    var key := Key(e.tgid, e.fd);
    s.(opCounter := s.opCounter + 1, ops := s.ops[key := OpenedSlot(SlotAt(s, key), NewOp(s, e, req), BioCookie(e))])
  }

  lemma OpenedSlotOk(s: State, e: EvtTlsData, req: Http.RequestHead)
    requires SlotsOk(s.ops)
    ensures SlotsOk(Opened(s, e, req).ops)
  {
    hide ResolveRequest, HeadTruncated;
    var key := Key(e.tgid, e.fd);
    assert SlotOk(key, Opened(s, e, req).ops[key]);
  }

  lemma GoodWrite(s: State, e: EvtTlsData)
    requires Good(s)
    ensures Good(OnTlsWrite(s, e).0)
  {
    hide NewOp, SlotVictims, DropSlots, Interrupted, Http.ParseRequest, BioCookie, OpenedSlot;
    if Http.ParseRequest(e.data).Some? {
      var req := Http.ParseRequest(e.data).value;
      var s1, key := Opened(s, e, req), Key(e.tgid, e.fd);
      OpenedSlotOk(s, e, req);
      DropSlotsFrame(s1, SlotVictims(s1, key));
      SlotCap(s1, key);
    }
  }

  lemma GoodSet(s: State, key: Key, slot: Slot)
    requires Good(s) && key in s.ops && SlotOk(key, slot)
    ensures Good(SetSlot(s, key, slot))
  {
    OneMoreKey(s.ops, key, slot);
  }

  lemma GoodTouch(s: State, key: Key, ts: nat)
    requires Good(s)
    ensures Good(Touch(s, key, ts)) && OpenAt(Touch(s, key, ts), key) == OpenAt(s, key)
  {
    if key in s.ops {
      GoodSet(s, key, s.ops[key].(lastTs := ts));
    }
  }

  lemma GoodTally(s: State, key: Key, ts: nat, len: nat)
    requires Good(s)
    ensures Good(Tally(s, key, ts, len).0)
  {
    hide BuildOp;
    GoodTouch(s, key, ts);
    var s1 := Touch(s, key, ts);
    var op := OpenAt(s1, key);
    if op.Some? && op.value.resp.Some? {
      var seen := SatAdd(op.value.resp.value.bodySeen, len);
      GoodSet(s1, key, s1.ops[key].(open := None));
      if seen < op.value.resp.value.bodyTarget {
        GoodSet(s1, key, s1.ops[key].(open := Some(op.value.(resp := Some(op.value.resp.value.(bodySeen := seen))))));
      }
    }
  }

  lemma GoodFinal(s: State, key: Key, e: EvtTlsData, h: FinalHead)
    requires Good(s) && (h.contentLength.Some? ==> h.contentLength.value <= Http.MAX_CONTENT_LENGTH)
    requires h.headerEnd.Some? ==> !h.truncated
    ensures Good(Final(s, key, e, h).0)
  {
    hide BuildOp;
    GoodTouch(s, key, e.ts);
    var s1 := Touch(s, key, e.ts);
    var op := OpenAt(s1, key);
    if op.Some? {
      GoodSet(s1, key, s1.ops[key].(open := None));
      if ExpectsBody(op, h) && SatSub(e.len, h.headerEnd.value) < h.contentLength.value {
        var rs := RespState(e.ts, h.status, h.requestId, e.len, h.truncated, h.contentLength.value, SatSub(e.len, h.headerEnd.value));
        GoodSet(s1, key, s1.ops[key].(open := Some(op.value.(resp := Some(rs)))));
      }
    }
  }

  lemma GoodInterim(s: State, key: Key, ts: nat)
    requires Good(s)
    ensures Good(Interim(s, key, ts))
  {
    GoodTouch(s, key, ts);
    var s1 := Touch(s, key, ts);
    var op := OpenAt(s1, key);
    if op.Some? {
      GoodSet(s1, key, s1.ops[key].(open := Some(op.value.(interimTs := op.value.interimTs.Or(Some(ts))))));
    }
  }

  lemma GoodRead(s: State, e: EvtTlsData)
    requires Good(s)
    ensures Good(OnTlsRead(s, e).0)
  {
    hide Tally, Final, Interim, HeadOf, Http.ParseStatus;
    var key := Key(e.tgid, e.fd);
    GoodTally(s, key, e.ts, e.len);
    if Http.ParseStatus(e.data).Some? {
      var status := Http.ParseStatus(e.data).value;
      GoodInterim(s, key, e.ts);
      HeadBounds(e, status);
      GoodFinal(s, key, e, HeadOf(e, status));
    }
  }

  lemma HeadBounds(e: EvtTlsData, status: nat)
    ensures var h := HeadOf(e, status); h.contentLength.Some? ==> h.contentLength.value <= Http.MAX_CONTENT_LENGTH
    ensures var h := HeadOf(e, status); h.headerEnd.Some? ==> !h.truncated
  {
    Http.ContentLengthBound(e.data);
  }

  /** The handlers of names touch neither links nor slots. */
  predicate NamesOnly(ev: Event) {
    ev.Handshake? || ev.Server? || ev.DnsQuery? || ev.DnsResponse? || ev.Getaddrinfo?
  }

  /** Links and slots, and every record so far, are as they were. */
  predicate NamesKept(s: State, s': State) {
    s' == s.(tls := s'.tls, pendingDns := s'.pendingDns, resolutions := s'.resolutions, gai := s'.gai)
  }

  lemma TlsKept(s: State, cookie: Cookie, info: TlsInfo)
    requires Good(s)
    ensures NamesKept(s, SetTls(s, cookie, info)) && Caps(SetTls(s, cookie, info))
  {
    hide EvictOver, TlsStamps;
  }

  lemma QueryKept(s: State, e: EvtDnsQuery)
    requires Good(s)
    ensures NamesKept(s, OnDnsQuery(s, e)) && Caps(OnDnsQuery(s, e))
  {
    hide EvictOver, QueryStamps, Dns.QnameStr;
  }

  lemma ResponseKept(s: State, e: EvtDnsResponse)
    requires Good(s)
    ensures NamesKept(s, OnDnsResponse(s, e)) && Caps(OnDnsResponse(s, e))
  {
    hide EvictOver, ResolutionStamps, Dns.ParseResponse, Record, AnswerIps;
    if Dns.ParseResponse(e.payload).Some? {
      FewerKeys(s.pendingDns, {(e.cookie, Dns.ParseResponse(e.payload).value.txnId)});
    }
  }

  lemma GaiKept(s: State, e: EvtGetaddrinfo)
    requires Good(s)
    ensures NamesKept(s, OnGetaddrinfo(s, e)) && Caps(OnGetaddrinfo(s, e))
  {
    hide EvictOver, GaiStamps, Dns.QnameStr, SawWire;
  }

  lemma NamesFrame(s: State, ev: Event)
    requires Good(s) && NamesOnly(ev)
    ensures var (s', op) := Fold(s, ev);
            op == None && NamesKept(s, s') && Caps(s')
  {
    hide SetTls, TlsAt, Dns.QnameStr, OnDnsQuery, OnDnsResponse, OnGetaddrinfo;
    match ev
    case Handshake(e) =>
      if Dns.QnameStr(e.sni, e.sniLen).Some? {
        TlsKept(s, e.cookie, TlsAt(s, e.cookie, e.ts).(sni := Dns.QnameStr(e.sni, e.sniLen).value, ts := e.ts));
      }
    case Server(e) =>
      var t := TlsAt(s, e.cookie, e.ts);
      TlsKept(s, e.cookie, t.(version := NonZero(e.version).Or(t.version), cipher := NonZero(e.cipher).Or(t.cipher)));
    case DnsQuery(e) => QueryKept(s, e);
    case DnsResponse(e) => ResponseKept(s, e);
    case Getaddrinfo(e) => GaiKept(s, e);
  }

  lemma GoodNames(s: State, ev: Event)
    requires Good(s) && NamesOnly(ev)
    ensures Good(Fold(s, ev).0)
  {
    hide Fold, Inverse, SlotsOk;
    NamesFrame(s, ev);
  }

  lemma GoodFlushOpen(s: State, order: seq<Key>)
    requires Good(s)
    ensures Good(DropSlots(s, order))
  {
    hide DropSlots, Inverse, SlotsOk;
    DropSlotsFrame(s, order);
    FewerKeys(s.ops, AsSet(order));
    SlotsOkWithout(s.ops, AsSet(order));
  }

  /** No handler breaks a link, a cap or a slot. */
  lemma GoodFold(s: State, ev: Event)
    requires Good(s)
    ensures Good(Fold(s, ev).0)
  {
    if NamesOnly(ev) {
      hide Fold, Good;
      GoodNames(s, ev);
    } else {
      GoodLinksFold(s, ev);
    }
  }

  lemma GoodLinksFold(s: State, ev: Event)
    requires Good(s) && !NamesOnly(ev)
    ensures Good(Fold(s, ev).0)
  {
    hide OnConnect, OnClose, OnConnId, OnTlsWrite, OnTlsRead, OnTlsHandshake, OnTlsServer, OnDnsQuery, OnDnsResponse,
      OnGetaddrinfo, Tally, DropSlots, Inverse, SlotsOk;
    match ev
    case Connect(e) => GoodConnect(s, e);
    case Close(e, pick) => GoodClose(s, e, pick);
    case ConnId(e) => GoodConnId(s, e);
    case TlsWrite(e) => GoodWrite(s, e);
    case TlsRead(e) => GoodRead(s, e);
    case TlsBody(e) => GoodTally(s, Key(e.tgid, e.fd), e.ts, e.len);
    case FlushOpen(order) => GoodFlushOpen(s, order);
    case TakeFlushed =>
  }

  lemma GoodInit(maxOpen: nat, endpoints: seq<string>, salt: string)
    ensures Good(Init(maxOpen, endpoints, salt))
  {
  }

  lemma {:induction false} GoodRun(w: World, evs: seq<Event>)
    requires Good(w.s)
    ensures Good(After(w, evs).s)
  {
    hide Good, Fold;
    if evs != [] {
      GoodRun(w, evs[..|evs| - 1]);
      GoodFold(After(w, evs[..|evs| - 1]).s, evs[|evs| - 1]);
    }
  }

  /** In every reachable state the link maps are inverse, every map is within its cap, and every slot is sound. */
  lemma GoodAlways(maxOpen: nat, endpoints: seq<string>, salt: string, evs: seq<Event>)
    ensures Good(After(Start(maxOpen, endpoints, salt), evs).s)
  {
    hide Good, After, Init;
    GoodInit(maxOpen, endpoints, salt);
    GoodRun(Start(maxOpen, endpoints, salt), evs);
  }
}
