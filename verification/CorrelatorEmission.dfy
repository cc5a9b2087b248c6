/**
  The instant of emission. Whatever a fold tears down, opens or completes, each record it emits is
  the one built from the state ahead of the fold: joined before any link, slot or fact it changes.
 */
module CorrelatorEmission {
  import opened Wrappers
  import opened Eviction
  import opened CorrelatorState
  import opened CorrelatorAttribution
  import opened CorrelatorRuns
  import opened CorrelatorFacts
  import opened CorrelatorSlots
  import Http = HttpHead

  /** `r` is the record of the op open at `k` in `s`, with the response facts `f`. */
  predicate Built(s: State, r: Operation, k: Key, f: RespFacts, ambiguous: bool) {
    OpenAt(s, k).Some? && r == BuildOp(s, k, OpenAt(s, k).value.(ambiguous := ambiguous), f)
  }

  /** `r` is the record of an op open in `s`; `cut` tells whether its response head was cut short. */
  ghost predicate BuiltIn(s: State, r: Operation, cut: bool) {
    exists k, f, ambiguous :: Built(s, r, k, f, ambiguous) && f.truncated == cut
  }

  /** The fold of `ev` emits `r`: it returns it or queues it. */
  ghost predicate EmittedAt(s: State, ev: Event, r: Operation) {
    var (s', out) := Fold(s, ev);
    out == Some(r) || (exists i :: |s.flushed| <= i < |s'.flushed| && s'.flushed[i] == r)
  }

  /** The event is a final response head cut before its blank line. */
  predicate CutHead(s: State, ev: Event) {
    ev.TlsRead? && HeadTruncated(ev.read) && !AwaitingBody(s, Key(ev.read.tgid, ev.read.fd))
  }

  // ---------------------------------------------------------------------------------------
  // Teardown
  // ---------------------------------------------------------------------------------------

  /** The slot and the link of `k` are those of `s`. */
  predicate SameAt(s: State, t: State, k: Key) {
    k in s.ops && k in t.ops && t.ops[k] == s.ops[k] && Get(t.fdLinks, k) == Get(s.fdLinks, k)
  }

  ghost predicate SlotsSame(s: State, t: State, recent: set<Key>) {
    forall k :: k in t.ops && k !in recent ==> SameAt(s, t, k)
  }

  ghost predicate QueueBuilt(s: State, t: State) {
    s.flushed <= t.flushed && forall i :: |s.flushed| <= i < |t.flushed| ==> BuiltIn(s, t.flushed[i], false)
  }

  /**
    Part way through a fold that started in `s`: the facts are as they were, every slot left but the
    `recent` ones is as it was with its link, and what was queued so far was built from `s`.
   */
  ghost predicate Draining(s: State, t: State, recent: set<Key>) {
    FactsKept(s, t) && SlotsSame(s, t, recent) && QueueBuilt(s, t)
  }

  lemma BuildSame(s: State, t: State, k: Key, op: OpenOp, f: RespFacts)
    requires FactsKept(s, t) && Get(t.fdLinks, k) == Get(s.fdLinks, k)
    ensures BuildOp(t, k, op, f) == BuildOp(s, k, op, f)
  {
    hide Elapsed, EndpointIp;
  }

  lemma FlushNotCut(s: State, k: Key)
    requires SlotsOk(s.ops) && OpenAt(s, k).Some?
    ensures !FactsOnFlush(OpenAt(s, k).value).truncated
  {
    assert SlotOk(k, s.ops[k]);
  }

  /** What the teardown of a slot still as it was adds to the queue. */
  lemma FlushBuilt(s: State, t: State, k: Key)
    requires FactsKept(s, t) && SlotsOk(s.ops) && k in t.ops && SameAt(s, t, k) && OpenAt(t, k).Some?
    ensures BuiltIn(s, BuildOp(t, k, OpenAt(t, k).value, FactsOnFlush(OpenAt(t, k).value)), false)
  {
    hide BuildOp, FactsOnFlush, SlotsOk, FactsKept;
    var op := OpenAt(t, k).value;
    BuildSame(s, t, k, op, FactsOnFlush(op));
    FlushNotCut(s, k);
    assert op.(ambiguous := op.ambiguous) == op;
    assert Built(s, BuildOp(t, k, op, FactsOnFlush(op)), k, FactsOnFlush(op), op.ambiguous);
  }

  lemma FlushDraining(s: State, t: State, k: Key, recent: set<Key>)
    requires Draining(s, t, recent) && SlotsOk(s.ops) && k !in recent
    ensures Draining(s, FlushAndDrop(t, k), recent)
  {
    hide BuildOp, FactsOnFlush, SlotsOk, BuiltIn;
    if OpenAt(t, k).Some? {
      FlushBuilt(s, t, k);
    }
  }

  lemma {:induction false} DropSlotsDraining(s: State, t: State, keys: seq<Key>, recent: set<Key>)
    requires Draining(s, t, recent) && SlotsOk(s.ops) && AsSet(keys) !! recent
    ensures Draining(s, DropSlots(t, keys), recent)
  {
    hide FlushAndDrop, Draining, SlotsOk;
    if keys != [] {
      AsSetLast(keys);
      assert keys[|keys| - 1] in AsSet(keys);
      DropSlotsDraining(s, t, keys[..|keys| - 1], recent);
      FlushDraining(s, DropSlots(t, keys[..|keys| - 1]), keys[|keys| - 1], recent);
    }
  }

  /** Links of keys without a slot may go, or change. */
  lemma LinksDraining(s: State, t: State, u: State, recent: set<Key>)
    requires Draining(s, t, recent)
    requires u == t.(fdLinks := u.fdLinks, fdRev := u.fdRev)
    requires forall k :: k in t.ops ==> Get(u.fdLinks, k) == Get(t.fdLinks, k)
    ensures Draining(s, u, recent)
  {
    hide BuiltIn;
  }

  lemma UnlinkDraining(s: State, t: State, k: Key, recent: set<Key>)
    requires Draining(s, t, recent) && k !in t.ops
    ensures Draining(s, Unlink(t, k), recent)
  {
    hide Draining;
    LinksDraining(s, t, Unlink(t, k), recent);
  }

  lemma FlushDrops(t: State, k: Key)
    ensures k !in FlushAndDrop(t, k).ops && FlushAndDrop(t, k).fdLinks == t.fdLinks && FlushAndDrop(t, k).fdRev == t.fdRev
    ensures forall j :: j in FlushAndDrop(t, k).ops ==> j in t.ops && j != k
  {
    hide FlushedWith;
  }

  lemma {:induction false} DropLinksDraining(s: State, t: State, keys: seq<Key>, recent: set<Key>)
    requires Draining(s, t, recent) && SlotsOk(s.ops) && AsSet(keys) !! recent
    ensures Draining(s, DropLinks(t, keys), recent)
  {
    hide FlushAndDrop, Draining, SlotsOk, Unlink;
    if keys != [] {
      var front, k := DropLinks(t, keys[..|keys| - 1]), keys[|keys| - 1];
      AsSetLast(keys);
      assert k in AsSet(keys);
      DropLinksDraining(s, t, keys[..|keys| - 1], recent);
      FlushDraining(s, front, k, recent);
      FlushDrops(front, k);
      UnlinkDraining(s, FlushAndDrop(front, k), k, recent);
    }
  }

  lemma Starting(s: State)
    ensures Draining(s, s, {})
  {
    hide BuiltIn;
  }

  lemma DisconnectDraining(s: State, k: Key, cookie: Cookie)
    requires SlotsOk(s.ops)
    ensures Draining(s, Disconnect(s, k, cookie), {})
  {
    hide FlushAndDrop, Draining, SlotsOk;
    Starting(s);
    FlushDraining(s, s, k, {});
    FlushDrops(s, k);
    LinksDraining(s, FlushAndDrop(s, k), Disconnect(s, k, cookie), {});
  }

  lemma RelinkDraining(s: State, t: State, key: Key, link: FdLink)
    requires Draining(s, t, {}) && SlotsOk(s.ops) && key !in t.ops
    ensures Draining(s, Relink(t, key, link), {})
  {
    hide FlushAndDrop, Draining, SlotsOk, Displaced, Unclaimed;
    var t1, other := Bind(t, key, link), Displaced(t, key, link.cookie);
    LinksDraining(s, t, t1, {});
    if other.Some? {
      FlushDraining(s, t1, other.value, {});
      FlushDrops(t1, other.value);
      LinksDraining(s, FlushAndDrop(t1, other.value), Relink(t, key, link), {});
    }
  }

  lemma ConnIdDraining(s: State, e: EvtConnId)
    requires Good(s)
    ensures Draining(s, OnConnId(s, e), {})
  {
    hide FlushAndDrop, Draining, SlotsOk, Relink, LinkVictims, DropLinks, Inverse, Caps;
    var key := Key(e.tgid, e.fd);
    var s1 := if key in s.ops then FlushAndDrop(s, key) else s;
    Starting(s);
    FlushDraining(s, s, key, {});
    FlushDrops(s, key);
    RelinkDraining(s, s1, key, FdLink(e.cookie, e.ts));
    DropLinksDraining(s, Relinked(s, e), LinkVictims(Relinked(s, e), key), {});
  }

  // ---------------------------------------------------------------------------------------
  // Each event
  // ---------------------------------------------------------------------------------------

  /** A fold emits nothing that was not built from the state ahead of it. */
  ghost predicate Builds(s: State, s': State, out: Option<Operation>, cut: bool) {
    && (s'.flushed == [] || s.flushed <= s'.flushed)
    && (out.Some? ==> BuiltIn(s, out.value, cut))
    && (forall i :: |s.flushed| <= i < |s'.flushed| ==> BuiltIn(s, s'.flushed[i], cut))
  }

  lemma QuietBuilds(s: State, s': State, cut: bool)
    requires s'.flushed == [] || s'.flushed == s.flushed
    ensures Builds(s, s', None, cut)
  {
    hide BuiltIn;
  }

  lemma QueueBuilds(s: State, t: State, s': State, recent: set<Key>)
    requires Draining(s, t, recent) && s'.flushed == t.flushed
    ensures Builds(s, s', None, false)
  {
    hide BuiltIn;
  }

  lemma ConnectBuilds(s: State, e: EvtConnect)
    requires SlotsOk(s.ops)
    ensures Builds(s, OnConnect(s, e), None, false)
  {
    hide Disconnect, EvictOver, ConnStamps, StaleLink, ConnOf, Draining, Builds, SlotsOk;
    var stale := StaleLink(s, e);
    if stale.Some? {
      DisconnectDraining(s, stale.value, e.cookie);
      QueueBuilds(s, Disconnect(s, stale.value, e.cookie), OnConnect(s, e), {});
    } else {
      QuietBuilds(s, OnConnect(s, e), false);
    }
  }

  lemma CloseBuilds(s: State, e: EvtClose, pick: Option<Key>)
    requires SlotsOk(s.ops)
    ensures Builds(s, OnClose(s, e, pick), None, false)
  {
    hide Disconnect, FlushAndDrop, OwnLink, Draining, Builds, SlotsOk;
    var own := OwnLink(s, e);
    if own.Some? {
      DisconnectDraining(s, own.value, e.cookie);
      QueueBuilds(s, CloseSlot(s, e, pick), OnClose(s, e, pick), {});
    } else if e.cookie !in s.fdRev && pick.Some? {
      Starting(s);
      FlushDraining(s, s, pick.value, {});
      QueueBuilds(s, CloseSlot(s, e, pick), OnClose(s, e, pick), {});
    } else {
      QuietBuilds(s, OnClose(s, e, pick), false);
    }
  }

  lemma FlushOpenBuilds(s: State, order: seq<Key>)
    requires SlotsOk(s.ops)
    ensures Builds(s, DropSlots(s, order), None, false)
  {
    hide DropSlots, Draining, Builds, SlotsOk;
    Starting(s);
    DropSlotsDraining(s, s, order, {});
    QueueBuilds(s, DropSlots(s, order), DropSlots(s, order), {});
  }

  lemma OpenedDraining(s: State, e: EvtTlsData, req: Http.RequestHead)
    ensures Draining(s, Opened(s, e, req), {Key(e.tgid, e.fd)})
  {
    hide NewOp, OpenedSlot, BioCookie, BuiltIn;
  }

  lemma InterruptedBuilt(s: State, key: Key, bio: Option<Cookie>)
    requires SlotsOk(s.ops) && Interrupted(s, key, bio).Some?
    ensures BuiltIn(s, Interrupted(s, key, bio).value, false)
  {
    hide BuildOp, SlotsOk, BioChanged;
    var r, p := Interrupted(s, key, bio).value, SlotAt(s, key).open.value;
    FlushNotCut(s, key);
    assert p.(ambiguous := p.ambiguous) == p;
    if p.resp.Some? {
      assert Built(s, r, key, FactsOf(p.resp.value, None), p.ambiguous);
    } else if BioChanged(SlotAt(s, key), bio) {
      assert Built(s, r, key, NO_FACTS, p.ambiguous);
    } else {
      assert Built(s, r, key, NO_FACTS, true);
    }
  }

  lemma WriteBuilds(s: State, e: EvtTlsData, req: Http.RequestHead)
    requires SlotsOk(s.ops) && Http.ParseRequest(e.data) == Some(req)
    ensures Builds(s, OnTlsWrite(s, e).0, OnTlsWrite(s, e).1, false)
  {
    hide NewOp, SlotVictims, DropSlots, Interrupted, Http.ParseRequest, OpenedSlot, BioCookie, Draining, SlotsOk,
      BuiltIn;
    var s1, key := Opened(s, e, req), Key(e.tgid, e.fd);
    OpenedDraining(s, e, req);
    SlotCap(s1, key);
    DropSlotsDraining(s, s1, SlotVictims(s1, key), {key});
    QueueBuilds(s, OnTlsWrite(s, e).0, OnTlsWrite(s, e).0, {key});
    if Interrupted(s, key, BioCookie(e)).Some? {
      InterruptedBuilt(s, key, BioCookie(e));
    }
  }

  lemma RejectedBuilds(s: State, e: EvtTlsData)
    requires Http.ParseRequest(e.data).None?
    ensures Builds(s, OnTlsWrite(s, e).0, OnTlsWrite(s, e).1, false)
  {
    hide Http.ParseRequest, NewOp, SlotVictims, DropSlots, Interrupted, Builds;
    QuietBuilds(s, OnTlsWrite(s, e).0, false);
  }

  /** A touched slot builds the same records. */
  lemma TouchBuilt(s: State, key: Key, ts: nat, f: RespFacts)
    requires OpenAt(s, key).Some?
    ensures OpenAt(Touch(s, key, ts), key) == OpenAt(s, key)
    ensures BuiltIn(s, BuildOp(Touch(s, key, ts), key, OpenAt(s, key).value, f), f.truncated)
  {
    hide BuildOp;
    var op := OpenAt(s, key).value;
    BuildSame(s, Touch(s, key, ts), key, op, f);
    assert op.(ambiguous := op.ambiguous) == op;
    assert Built(s, BuildOp(s, key, op, f), key, f, op.ambiguous);
  }

  lemma SetOpenQuiet(s: State, key: Key, ts: nat, op: Option<OpenOp>)
    ensures Touch(s, key, ts).flushed == s.flushed
    ensures key in Touch(s, key, ts).ops ==> SetOpen(Touch(s, key, ts), key, op).flushed == s.flushed
  {
  }

  lemma TallyBuilds(s: State, key: Key, ts: nat, len: nat)
    requires SlotsOk(s.ops)
    ensures Builds(s, Tally(s, key, ts, len).0, Tally(s, key, ts, len).1, false)
  {
    hide BuildOp, SlotsOk, BuiltIn, SatAdd, Touch, SetOpen;
    var op := OpenAt(s, key);
    SetOpenQuiet(s, key, ts, None);
    TouchSlot(s, key, ts);
    if op.Some? && op.value.resp.Some? {
      var rs := op.value.resp.value;
      FlushNotCut(s, key);
      TouchBuilt(s, key, ts, FactsOf(rs, Some(ts)));
      SetOpenQuiet(s, key, ts, Some(op.value.(resp := Some(rs.(bodySeen := SatAdd(rs.bodySeen, len))))));
    }
  }

  lemma FinalBuilds(s: State, key: Key, e: EvtTlsData, h: FinalHead)
    ensures Builds(s, Final(s, key, e, h).0, Final(s, key, e, h).1, h.truncated)
  {
    hide BuildOp, BuiltIn, Http.SameIgnoringCase, Touch, SetOpen;
    var op := OpenAt(s, key);
    SetOpenQuiet(s, key, e.ts, None);
    TouchSlot(s, key, e.ts);
    if op.Some? {
      TouchBuilt(s, key, e.ts, FinalFacts(e, h, if ExpectsBody(op, h) then Some(e.ts) else None));
      if ExpectsBody(op, h) {
        SetOpenQuiet(s, key, e.ts, Some(op.value.(resp := Some(
          RespState(e.ts, h.status, h.requestId, e.len, h.truncated, h.contentLength.value, SatSub(e.len, h.headerEnd.value))))));
      }
    }
  }

  lemma InterimQuiet(s: State, key: Key, ts: nat)
    ensures Interim(s, key, ts).flushed == s.flushed
  {
    hide Touch, SetOpen;
    var op := OpenAt(Touch(s, key, ts), key);
    SetOpenQuiet(s, key, ts, None);
    if op.Some? {
      SetOpenQuiet(s, key, ts, Some(op.value.(interimTs := op.value.interimTs.Or(Some(ts)))));
    }
  }

  lemma ReadBuilds(s: State, ev: Event)
    requires SlotsOk(s.ops) && ev.TlsRead?
    ensures Builds(s, OnTlsRead(s, ev.read).0, OnTlsRead(s, ev.read).1, CutHead(s, ev))
  {
    hide Tally, Final, Interim, HeadOf, Http.ParseStatus, SlotsOk, Builds, Foreign, AwaitingBody, HeadTruncated;
    var e, key := ev.read, Key(ev.read.tgid, ev.read.fd);
    QuietBuilds(s, s, CutHead(s, ev));
    TallyBuilds(s, key, e.ts, e.len);
    if Http.ParseStatus(e.data).Some? {
      var status := Http.ParseStatus(e.data).value;
      InterimQuiet(s, key, e.ts);
      QuietBuilds(s, Interim(s, key, e.ts), CutHead(s, ev));
      FinalBuilds(s, key, e, HeadOf(e, status));
      HeadCut(e, status);
    }
  }

  lemma HeadCut(e: EvtTlsData, status: nat)
    ensures HeadOf(e, status).truncated == HeadTruncated(e)
  {
  }

  lemma BodyBuilds(s: State, e: EvtTlsBody)
    requires SlotsOk(s.ops)
    ensures Builds(s, OnTlsReadBody(s, e).0, OnTlsReadBody(s, e).1, false)
  {
    hide Tally, SlotsOk, Builds, Foreign;
    QuietBuilds(s, s, false);
    TallyBuilds(s, Key(e.tgid, e.fd), e.ts, e.len);
  }

  lemma ConnIdBuilds(s: State, e: EvtConnId)
    requires Good(s)
    ensures Builds(s, OnConnId(s, e), None, false)
  {
    hide OnConnId, Good, Draining, Builds;
    ConnIdDraining(s, e);
    QueueBuilds(s, OnConnId(s, e), OnConnId(s, e), {});
  }

  lemma NamesBuild(s: State, ev: Event)
    requires Good(s) && NamesOnly(ev)
    ensures Builds(s, Fold(s, ev).0, Fold(s, ev).1, false)
  {
    hide Fold, Good, Builds;
    NamesFrame(s, ev);
    QuietBuilds(s, Fold(s, ev).0, false);
  }

  /**
    Any fold emits each of its records as `build_op` has it on the state ahead of the fold: with the
    link, the connection and the names known then. It is marked cut short when the event is a response
    head that was.
   */
  lemma FoldBuilds(s: State, ev: Event)
    requires Good(s)
    ensures Builds(s, Fold(s, ev).0, Fold(s, ev).1, CutHead(s, ev))
  {
    if NamesOnly(ev) {
      hide Fold, Good, Builds;
      NamesBuild(s, ev);
    } else {
      hide OnConnect, OnClose, OnConnId, OnTlsWrite, OnTlsRead, OnTlsReadBody, DropSlots, Http.ParseRequest,
        HeadTruncated,
        AwaitingBody, Inverse, Caps, SlotsOk, Builds;
      match ev
      case Connect(e) => ConnectBuilds(s, e);
      case Close(e, pick) => CloseBuilds(s, e, pick);
      case ConnId(e) => ConnIdBuilds(s, e);
      case TlsWrite(e) =>
        if Opens(ev) {
          WriteBuilds(s, e, Http.ParseRequest(e.data).value);
        } else {
          RejectedBuilds(s, e);
        }
      case TlsRead(e) => ReadBuilds(s, ev);
      case TlsBody(e) => BodyBuilds(s, e);
      case FlushOpen(order) => FlushOpenBuilds(s, order);
      case TakeFlushed => QuietBuilds(s, s.(flushed := []), false);
    }
  }

  // ---------------------------------------------------------------------------------------
  // Whole runs
  // ---------------------------------------------------------------------------------------

  lemma QueueGrowsOrEmpties(s: State, ev: Event)
    requires Good(s)
    ensures Fold(s, ev).0.flushed == [] || s.flushed <= Fold(s, ev).0.flushed
  {
    hide Fold, Good, BuiltIn, CutHead;
    FoldBuilds(s, ev);
  }

  lemma InQueue(log: seq<Operation>, log': seq<Operation>, r: Operation)
    requires (log' == [] || log <= log') && r in log' && r !in log
    ensures exists i :: |log| <= i < |log'| && log'[i] == r
  {
    var i :| 0 <= i < |log'| && log'[i] == r;
    assert i >= |log|;
  }

  lemma EmissionStep(w: World, ev: Event, at: nat, r: Operation)
    requires Good(w.s) && Emitted(Advance(w, ev, at), r)
    ensures Emitted(w, r) || EmittedAt(w.s, ev, r)
  {
    QueueGrowsOrEmpties(w.s, ev);
    hide Fold, Good, Origins, LastConn;
    if !Emitted(w, r) && r in Fold(w.s, ev).0.flushed {
      InQueue(w.s.flushed, Fold(w.s, ev).0.flushed, r);
    }
  }

  /** Every record of a run was emitted by one of its folds. */
  lemma {:induction false} EmittedSomewhere(w: World, evs: seq<Event>, r: Operation) returns (n: nat)
    requires Good(w.s) && Emitted(After(w, evs), r)
    ensures Emitted(w, r) || (n < |evs| && EmittedAt(After(w, evs[..n]).s, evs[n], r))
  {
    hide Good, Advance, Emitted, EmittedAt;
    n := 0;
    if evs != [] {
      var front := evs[..|evs| - 1];
      GoodRun(w, front);
      EmissionStep(After(w, front), evs[|evs| - 1], |evs| - 1, r);
      if Emitted(After(w, front), r) {
        n := EmittedSomewhere(w, front, r);
        assert n < |front| ==> front[..n] == evs[..n];
      } else {
        n := |front|;
      }
    }
  }

  lemma EmittedBuilt(s: State, ev: Event, r: Operation)
    requires Good(s) && EmittedAt(s, ev, r)
    ensures BuiltIn(s, r, CutHead(s, ev))
  {
    hide Fold, Good, BuiltIn, CutHead;
    FoldBuilds(s, ev);
  }
}
