/**
  What one fold can do to one slot: leave it alone, reclaim it (emitting what was open on it as
  aborted), advance it by a read of its own, or open the next request on it.
 */
module CorrelatorSlots {
  import opened Wrappers
  import opened Eviction
  import opened CorrelatorState
  import opened CorrelatorRuns
  import Http = HttpHead

  /** The record of an op that never completed: the response facts known so far, and no completion. */
  predicate Aborted(r: Operation, op: OpenOp) {
    && r.id == op.id && r.downloadNs.None? && r.totalNs.None?
    && match op.resp
       case None => r.httpStatus.None? && r.requestId.None? && r.contentLength.None?
       case Some(rs) =>
         r.httpStatus == Some(rs.status) && r.requestId == rs.requestId && r.contentLength == Some(rs.bodyTarget)
  }

  ghost predicate AbortedIn(log: seq<Operation>, op: OpenOp) {
    exists i :: 0 <= i < |log| && Aborted(log[i], op)
  }

  /** The slot is as it was. */
  predicate Spared(s: State, s': State, k: Key) {
    (k in s'.ops <==> k in s.ops) && (k in s.ops ==> s'.ops[k] == s.ops[k])
  }

  /** The slot is gone, and an op open on it was queued as aborted. */
  ghost predicate Reclaimed(s: State, s': State, k: Key) {
    k in s.ops && k !in s'.ops && (OpenAt(s, k).Some? ==> AbortedIn(s'.flushed, OpenAt(s, k).value))
  }

  ghost predicate Passes(s: State, s': State, k: Key) {
    s.flushed <= s'.flushed && (Spared(s, s', k) || Reclaimed(s, s', k))
  }

  lemma AbortedStays(log: seq<Operation>, more: seq<Operation>, op: OpenOp)
    requires AbortedIn(log, op) && log <= more
    ensures AbortedIn(more, op)
  {
    hide Aborted;
    var i :| 0 <= i < |log| && Aborted(log[i], op);
    assert Aborted(more[i], op);
  }

  lemma PassesOn(s: State, t: State, u: State, k: Key)
    requires Passes(s, t, k) && Passes(t, u, k)
    ensures Passes(s, u, k)
  {
    hide AbortedIn;
    if k in s.ops && OpenAt(s, k).Some? && Reclaimed(s, t, k) {
      AbortedStays(t.flushed, u.flushed, OpenAt(s, k).value);
    }
  }

  lemma PassesSelf(s: State, s': State, k: Key)
    requires s'.ops == s.ops && s'.flushed == s.flushed
    ensures Passes(s, s', k)
  {
  }

  lemma BuildAborted(s: State, k: Key, op: OpenOp)
    ensures Aborted(BuildOp(s, k, op, FactsOnFlush(op)), op)
  {
    hide DnsForIp, OpSniBucket, EndpointIp, OpConn, OpCookie;
  }

  lemma FlushPasses(s: State, key: Key, k: Key)
    ensures Passes(s, FlushAndDrop(s, key), k)
    ensures k == key ==> k !in FlushAndDrop(s, key).ops
  {
    hide BuildOp, Aborted, FactsOnFlush;
    var op := OpenAt(s, key);
    if op.Some? {
      var t := FlushAndDrop(s, key);
      BuildAborted(s, key, op.value);
      assert t.flushed[|s.flushed|] == BuildOp(s, key, op.value, FactsOnFlush(op.value));
      assert AbortedIn(t.flushed, op.value);
    }
  }

  lemma {:induction false} DropSlotsPass(s: State, keys: seq<Key>, k: Key)
    ensures Passes(s, DropSlots(s, keys), k)
    decreases |keys|
  {
    hide FlushAndDrop, Passes;
    if keys == [] {
      PassesSelf(s, s, k);
    } else {
      var front := DropSlots(s, keys[..|keys| - 1]);
      DropSlotsPass(s, keys[..|keys| - 1], k);
      FlushPasses(front, keys[|keys| - 1], k);
      PassesOn(s, front, DropSlots(s, keys), k);
    }
  }

  lemma UnlinkPasses(s: State, key: Key, k: Key)
    ensures Passes(s, Unlink(s, key), k)
  {
    PassesSelf(s, Unlink(s, key), k);
  }

  lemma {:induction false} DropLinksPass(s: State, keys: seq<Key>, k: Key)
    ensures Passes(s, DropLinks(s, keys), k)
    decreases |keys|
  {
    hide FlushAndDrop, Passes, Unlink;
    if keys == [] {
      PassesSelf(s, s, k);
    } else {
      var front, last := DropLinks(s, keys[..|keys| - 1]), keys[|keys| - 1];
      DropLinksPass(s, keys[..|keys| - 1], k);
      FlushPasses(front, last, k);
      UnlinkPasses(FlushAndDrop(front, last), last, k);
      PassesOn(s, front, FlushAndDrop(front, last), k);
      PassesOn(s, FlushAndDrop(front, last), DropLinks(s, keys), k);
    }
  }

  lemma DisconnectPasses(s: State, key: Key, cookie: Cookie, k: Key)
    ensures Passes(s, Disconnect(s, key, cookie), k)
  {
    hide FlushAndDrop, Passes;
    FlushPasses(s, key, k);
    PassesSelf(FlushAndDrop(s, key), Disconnect(s, key, cookie), k);
    PassesOn(s, FlushAndDrop(s, key), Disconnect(s, key, cookie), k);
  }

  lemma ConnectPasses(s: State, e: EvtConnect, k: Key)
    ensures Passes(s, OnConnect(s, e), k)
  {
    hide Disconnect, EvictOver, ConnStamps, StaleLink, ConnOf, Passes;
    var s1 := if StaleLink(s, e).Some? then Disconnect(s, StaleLink(s, e).value, e.cookie) else s;
    PassesSelf(s, s, k);
    if StaleLink(s, e).Some? {
      DisconnectPasses(s, StaleLink(s, e).value, e.cookie, k);
    }
    PassesSelf(s1, OnConnect(s, e), k);
    PassesOn(s, s1, OnConnect(s, e), k);
  }

  lemma CloseSlotPasses(s: State, e: EvtClose, pick: Option<Key>, k: Key)
    ensures Passes(s, CloseSlot(s, e, pick), k)
  {
    hide Disconnect, FlushAndDrop, OwnLink, Passes;
    PassesSelf(s, s, k);
    if OwnLink(s, e).Some? {
      DisconnectPasses(s, OwnLink(s, e).value, e.cookie, k);
    } else if pick.Some? {
      FlushPasses(s, pick.value, k);
    }
  }

  lemma ClosePasses(s: State, e: EvtClose, pick: Option<Key>, k: Key)
    ensures Passes(s, OnClose(s, e, pick), k)
  {
    hide CloseSlot, Passes;
    var s1 := CloseSlot(s, e, pick);
    CloseSlotPasses(s, e, pick, k);
    PassesSelf(s1, OnClose(s, e, pick), k);
    PassesOn(s, s1, OnClose(s, e, pick), k);
  }

  lemma RelinkPasses(s: State, key: Key, link: FdLink, k: Key)
    ensures Passes(s, Relink(s, key, link), k)
  {
    hide FlushAndDrop, Displaced, Unclaimed, Passes;
    var s1, other := Bind(s, key, link), Displaced(s, key, link.cookie);
    PassesSelf(s, s1, k);
    if other.Some? {
      var t := FlushAndDrop(s1, other.value);
      FlushPasses(s1, other.value, k);
      PassesOn(s, s1, t, k);
      PassesSelf(t, Relink(s, key, link), k);
      PassesOn(s, t, Relink(s, key, link), k);
    }
  }

  /** A conn_id clears the slot of its own key. */
  lemma ConnIdPasses(s: State, e: EvtConnId, k: Key)
    ensures Passes(s, OnConnId(s, e), k)
    ensures k == Key(e.tgid, e.fd) ==> k !in OnConnId(s, e).ops
  {
    hide FlushAndDrop, Relink, DropLinks, LinkVictims, Passes;
    var key := Key(e.tgid, e.fd);
    var s1 := if key in s.ops then FlushAndDrop(s, key) else s;
    var s2 := Relinked(s, e);
    var s' := OnConnId(s, e);
    PassesSelf(s, s, k);
    FlushPasses(s, key, k);
    RelinkPasses(s1, key, FdLink(e.cookie, e.ts), k);
    DropLinksPass(s2, LinkVictims(s2, key), k);
    PassesOn(s, s1, s2, k);
    PassesOn(s, s2, s', k);
    PassesOn(s1, s2, s', k);
    StaysGone(s1, s', k);
  }

  lemma StaysGone(s: State, s': State, k: Key)
    requires Passes(s, s', k)
    ensures k !in s.ops ==> k !in s'.ops
  {
  }

  /** A request opens on its slot, whatever the pass that follows evicts. */
  lemma WriteOpens(s: State, e: EvtTlsData, req: Http.RequestHead)
    requires Http.ParseRequest(e.data) == Some(req)
    ensures var key := Key(e.tgid, e.fd);
            key in OnTlsWrite(s, e).0.ops && OnTlsWrite(s, e).0.ops[key] == Opened(s, e, req).ops[key]
  {
    hide NewOp, SlotVictims, DropSlots, Interrupted, Http.ParseRequest, OpenedSlot, BioCookie;
    var s1, key := Opened(s, e, req), Key(e.tgid, e.fd);
    SlotCap(s1, key);
    DropSlotsFrame(s1, SlotVictims(s1, key));
  }

  lemma WriteSettles(s: State, e: EvtTlsData, req: Http.RequestHead, k: Key)
    requires Http.ParseRequest(e.data) == Some(req)
    ensures Passes(Opened(s, e, req), OnTlsWrite(s, e).0, k)
  {
    hide NewOp, SlotVictims, DropSlots, Interrupted, Http.ParseRequest, OpenedSlot, BioCookie, Passes;
    DropSlotsPass(Opened(s, e, req), SlotVictims(Opened(s, e, req), Key(e.tgid, e.fd)), k);
  }

  lemma OpenedPasses(s: State, e: EvtTlsData, req: Http.RequestHead, k: Key)
    requires k != Key(e.tgid, e.fd)
    ensures Passes(s, Opened(s, e, req), k)
  {
    hide NewOp, OpenedSlot, BioCookie, Passes;
    OtherPasses(s, Key(e.tgid, e.fd), Opened(s, e, req), k);
  }

  lemma WritePasses(s: State, e: EvtTlsData, k: Key)
    requires Http.ParseRequest(e.data).Some? ==> k != Key(e.tgid, e.fd)
    ensures Passes(s, OnTlsWrite(s, e).0, k)
  {
    hide Http.ParseRequest, Passes, OnTlsWrite, Opened;
    if Http.ParseRequest(e.data).Some? {
      var req := Http.ParseRequest(e.data).value;
      WriteSettles(s, e, req, k);
      OpenedPasses(s, e, req, k);
      PassesOn(s, Opened(s, e, req), OnTlsWrite(s, e).0, k);
    } else {
      RejectedWrite(s, e);
      PassesSelf(s, OnTlsWrite(s, e).0, k);
    }
  }

  lemma RejectedWrite(s: State, e: EvtTlsData)
    requires Http.ParseRequest(e.data).None?
    ensures OnTlsWrite(s, e).0.ops == s.ops && OnTlsWrite(s, e).0.flushed == s.flushed
  {
    hide Http.ParseRequest, NewOp, SlotVictims, DropSlots, Interrupted;
  }

  /** Setting one slot spares every other. */
  lemma OtherPasses(s: State, key: Key, s': State, k: Key)
    requires k != key && s'.flushed == s.flushed && key in s'.ops && s'.ops == s.ops[key := s'.ops[key]]
    ensures Passes(s, s', k)
  {
  }

  // ---------------------------------------------------------------------------------------
  // Reads
  // ---------------------------------------------------------------------------------------

  predicate IsRead(ev: Event) { ev.TlsRead? || ev.TlsBody? }

  function ReadKey(ev: Event): Key
    requires IsRead(ev)
  {
    if ev.TlsRead? then Key(ev.read.tgid, ev.read.fd) else Key(ev.body.tgid, ev.body.fd)
  }

  function ReadCookie(ev: Event): Cookie
    requires IsRead(ev)
  {
    if ev.TlsRead? then ev.read.cookie else ev.body.cookie
  }

  function ReadTs(ev: Event): nat
    requires IsRead(ev)
  {
    if ev.TlsRead? then ev.read.ts else ev.body.ts
  }

  function ReadLen(ev: Event): nat
    requires IsRead(ev)
  {
    if ev.TlsRead? then ev.read.len else ev.body.len
  }

  /** A read of the slot at `k` that is not another connection's. */
  predicate Accepts(s: State, ev: Event, k: Key) {
    IsRead(ev) && ReadKey(ev) == k && !Foreign(s, k, ReadCookie(ev))
  }

  predicate OpensOn(ev: Event, k: Key) { Opens(ev) && WriteKey(ev) == k }

  lemma TouchSlot(s: State, key: Key, ts: nat)
    ensures var t := Touch(s, key, ts);
            && t.flushed == s.flushed && (key in t.ops <==> key in s.ops)
            && (key in s.ops ==> t.ops == s.ops[key := s.ops[key].(lastTs := ts)])
            && (key !in s.ops ==> t == s)
  {
  }

  lemma SetOpenAt(s: State, k: Key, op: Option<OpenOp>)
    requires k in s.ops
    ensures OpenAt(SetOpen(s, k, op), k) == op
  {
  }

  lemma TouchPasses(s: State, key: Key, ts: nat, k: Key)
    requires k != key
    ensures Passes(s, Touch(s, key, ts), k)
  {
    TouchSlot(s, key, ts);
  }

  lemma SetOpenPasses(s: State, t: State, key: Key, op: Option<OpenOp>, k: Key)
    requires k != key && key in t.ops && Passes(s, t, k)
    ensures Passes(s, SetOpen(t, key, op), k)
  {
    hide Passes;
    OtherPasses(t, key, SetOpen(t, key, op), k);
    PassesOn(s, t, SetOpen(t, key, op), k);
  }

  /** A tally, and a response head, touch no slot but their own. */
  lemma TallyPasses(s: State, key: Key, ts: nat, len: nat, k: Key)
    requires k != key
    ensures Passes(s, Tally(s, key, ts, len).0, k)
  {
    hide BuildOp, Touch, Passes, SetOpen;
    TouchPasses(s, key, ts, k);
    var s1 := Touch(s, key, ts);
    var op := OpenAt(s1, key);
    if op.Some? && op.value.resp.Some? {
      var rs := op.value.resp.value;
      SetOpenPasses(s, s1, key, Some(op.value.(resp := Some(rs.(bodySeen := SatAdd(rs.bodySeen, len))))), k);
      SetOpenPasses(s, s1, key, None, k);
    }
  }

  lemma InterimPasses(s: State, key: Key, ts: nat, k: Key)
    requires k != key
    ensures Passes(s, Interim(s, key, ts), k)
  {
    hide Touch, Passes, SetOpen;
    TouchPasses(s, key, ts, k);
    var op := OpenAt(Touch(s, key, ts), key);
    if op.Some? {
      SetOpenPasses(s, Touch(s, key, ts), key, Some(op.value.(interimTs := op.value.interimTs.Or(Some(ts)))), k);
    }
  }

  lemma FinalPasses(s: State, key: Key, e: EvtTlsData, h: FinalHead, k: Key)
    requires k != key
    ensures Passes(s, Final(s, key, e, h).0, k)
  {
    hide BuildOp, Touch, FinalFacts, Http.SameIgnoringCase, Passes, SetOpen;
    TouchPasses(s, key, e.ts, k);
    var s1 := Touch(s, key, e.ts);
    var op := OpenAt(s1, key);
    if op.Some? {
      SetOpenPasses(s, s1, key, None, k);
      if ExpectsBody(op, h) {
        var rs := RespState(e.ts, h.status, h.requestId, e.len, h.truncated, h.contentLength.value, SatSub(e.len, h.headerEnd.value));
        SetOpenPasses(s, s1, key, Some(op.value.(resp := Some(rs))), k);
      }
    }
  }

  lemma ReadPasses(s: State, ev: Event, k: Key)
    requires IsRead(ev) && !Accepts(s, ev, k)
    ensures Passes(s, Fold(s, ev).0, k)
  {
    hide Tally, Final, Interim, HeadOf, Http.ParseStatus, Foreign, AwaitingBody, Passes;
    PassesSelf(s, s, k);
    var key := ReadKey(ev);
    if k != key {
      TallyPasses(s, key, ReadTs(ev), ReadLen(ev), k);
      if ev.TlsRead? {
        InterimPasses(s, key, ev.read.ts, k);
        if Http.ParseStatus(ev.read.data).Some? {
          FinalPasses(s, key, ev.read, HeadOf(ev.read, Http.ParseStatus(ev.read.data).value), k);
        }
      }
    }
  }

  lemma NamesPass(s: State, ev: Event, k: Key)
    requires Good(s) && NamesOnly(ev)
    ensures Passes(s, Fold(s, ev).0, k)
  {
    hide Fold, Good;
    NamesFrame(s, ev);
    PassesSelf(s, Fold(s, ev).0, k);
  }

  /**
    A slot changes only by a request on it, by a read that is its own, or by being reclaimed; and
    when it is reclaimed the op open on it is queued, aborted.
   */
  lemma FoldPasses(s: State, ev: Event, k: Key)
    requires Good(s) && !Accepts(s, ev, k) && !OpensOn(ev, k)
    ensures Spared(s, Fold(s, ev).0, k) || Reclaimed(s, Fold(s, ev).0, k)
  {
    if ev.TakeFlushed? {
      hide Reclaimed;
    } else {
      FoldKeepsLog(s, ev, k);
      hide Fold, Good, Accepts, OpensOn;
    }
  }

  lemma FoldKeepsLog(s: State, ev: Event, k: Key)
    requires Good(s) && !Accepts(s, ev, k) && !OpensOn(ev, k) && !ev.TakeFlushed?
    ensures Passes(s, Fold(s, ev).0, k)
  {
    if NamesOnly(ev) {
      hide Fold, Good, Accepts, OpensOn, Passes;
      NamesPass(s, ev, k);
    } else if IsRead(ev) {
      hide Fold, Good, Accepts, OpensOn, Passes;
      ReadPasses(s, ev, k);
    } else {
      hide OnConnect, OnClose, OnConnId, OnTlsWrite, OnTlsRead, OnTlsReadBody, DropSlots, Good, Http.ParseRequest,
        Passes;
      match ev
      case Connect(e) => ConnectPasses(s, e, k);
      case Close(e, pick) => ClosePasses(s, e, pick, k);
      case ConnId(e) => ConnIdPasses(s, e, k);
      case TlsWrite(e) => WritePasses(s, e, k);
      case FlushOpen(order) => DropSlotsPass(s, order, k);
    }
  }
}
