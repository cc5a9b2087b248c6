/** Exactly-once emission: no handler loses an operation or emits one twice. */
module CorrelatorLedger {
  import opened Wrappers
  import opened Eviction
  import opened CorrelatorState
  import opened CorrelatorRuns
  import Http = HttpHead

  /** How many records in `log` carry `id`. */
  function Times(log: seq<Operation>, id: nat): nat {
    if log == [] then 0 else Times(log[..|log| - 1], id) + (if log[|log| - 1].id == id then 1 else 0)
  }

  lemma {:induction false} TimesConcat(a: seq<Operation>, b: seq<Operation>, id: nat)
    ensures Times(a + b, id) == Times(a, id) + Times(b, id)
  {
    if b == [] {
      assert a + b == a;
    } else {
      var front := b[..|b| - 1];
      assert (a + b)[..|a + b| - 1] == a + front;
      TimesConcat(a, front, id);
    }
  }

  /** The slots whose open op is `id`. */
  function Holders(ops: map<Key, Slot>, id: nat): set<Key> {
    set k | k in ops && ops[k].open.Some? && ops[k].open.value.id == id
  }

  function HeldBy(ops: map<Key, Slot>, k: Key, id: nat): nat {
    if k in ops && ops[k].open.Some? && ops[k].open.value.id == id then 1 else 0
  }

  lemma HoldersSplit(ops: map<Key, Slot>, k: Key, id: nat)
    ensures |Holders(ops, id)| == |Holders(ops - {k}, id)| + HeldBy(ops, k, id)
  {
    if HeldBy(ops, k, id) == 1 {
      assert Holders(ops, id) == Holders(ops - {k}, id) + {k};
    } else {
      assert Holders(ops, id) == Holders(ops - {k}, id);
    }
  }

  lemma HoldersUpdate(ops: map<Key, Slot>, k: Key, slot: Slot, id: nat)
    ensures |Holders(ops[k := slot], id)| + HeldBy(ops, k, id) == |Holders(ops, id)| + HeldBy(ops[k := slot], k, id)
  {
    HoldersSplit(ops, k, id);
    HoldersSplit(ops[k := slot], k, id);
    assert ops[k := slot] - {k} == ops - {k};
  }

  /** Where `id` is inside the correlator: queued, or open. */
  function Weight(ops: map<Key, Slot>, flushed: seq<Operation>, id: nat): nat {
    Times(flushed, id) + |Holders(ops, id)|
  }

  function Inside(s: State, id: nat): nat { Weight(s.ops, s.flushed, id) }

  lemma BuildKeepsId(s: State, key: Key, op: OpenOp, f: RespFacts)
    ensures BuildOp(s, key, op, f).id == op.id
  {
  }

  lemma FlushKeeps(s: State, key: Key, id: nat)
    ensures Inside(FlushAndDrop(s, key), id) == Inside(s, id)
  {
    hide BuildOp;
    HoldersSplit(s.ops, key, id);
    var op := OpenAt(s, key);
    if op.Some? {
      BuildKeepsId(s, key, op.value, FactsOnFlush(op.value));
      TimesConcat(s.flushed, [BuildOp(s, key, op.value, FactsOnFlush(op.value))], id);
      OneRecord(BuildOp(s, key, op.value, FactsOnFlush(op.value)), id);
    }
  }

  lemma OneRecord(r: Operation, id: nat)
    ensures Times([r], id) == if r.id == id then 1 else 0
  {
    assert [r][..0] == [];
  }

  lemma {:induction false} DropSlotsKeeps(s: State, keys: seq<Key>, id: nat)
    ensures Inside(DropSlots(s, keys), id) == Inside(s, id)
  {
    hide FlushAndDrop, Weight;
    if keys != [] {
      DropSlotsKeeps(s, keys[..|keys| - 1], id);
      FlushKeeps(DropSlots(s, keys[..|keys| - 1]), keys[|keys| - 1], id);
    }
  }

  lemma UnlinkKeeps(s: State, key: Key)
    ensures Unlink(s, key).ops == s.ops && Unlink(s, key).flushed == s.flushed
  {
  }

  lemma {:induction false} DropLinksKeeps(s: State, keys: seq<Key>, id: nat)
    ensures Inside(DropLinks(s, keys), id) == Inside(s, id)
  {
    hide FlushAndDrop, Weight, Unlink;
    if keys != [] {
      var front, last := DropLinks(s, keys[..|keys| - 1]), keys[|keys| - 1];
      DropLinksKeeps(s, keys[..|keys| - 1], id);
      FlushKeeps(front, last, id);
      UnlinkKeeps(FlushAndDrop(front, last), last);
    }
  }

  lemma ConnectKeeps(s: State, e: EvtConnect, id: nat)
    ensures Inside(OnConnect(s, e), id) == Inside(s, id)
  {
    hide FlushAndDrop, Weight, EvictOver, ConnStamps, ConnOf, StaleLink;
    if StaleLink(s, e).Some? {
      FlushKeeps(s, StaleLink(s, e).value, id);
    }
  }

  lemma CloseKeeps(s: State, e: EvtClose, pick: Option<Key>, id: nat)
    ensures Inside(OnClose(s, e, pick), id) == Inside(s, id)
  {
    hide FlushAndDrop, Weight, OwnLink;
    if OwnLink(s, e).Some? {
      FlushKeeps(s, OwnLink(s, e).value, id);
    } else if pick.Some? {
      FlushKeeps(s, pick.value, id);
    }
  }

  lemma RelinkKeeps(s: State, key: Key, link: FdLink, id: nat)
    ensures Inside(Relink(s, key, link), id) == Inside(s, id)
  {
    hide FlushAndDrop, Weight, Displaced, Unclaimed;
    if Displaced(s, key, link.cookie).Some? {
      FlushKeeps(Bind(s, key, link), Displaced(s, key, link.cookie).value, id);
    }
  }

  lemma ConnIdKeeps(s: State, e: EvtConnId, id: nat)
    ensures Inside(OnConnId(s, e), id) == Inside(s, id)
  {
    hide FlushAndDrop, Weight, Relink, DropLinks, LinkVictims;
    var key := Key(e.tgid, e.fd);
    var s1 := if key in s.ops then FlushAndDrop(s, key) else s;
    FlushKeeps(s, key, id);
    RelinkKeeps(s1, key, FdLink(e.cookie, e.ts), id);
    DropLinksKeeps(Relinked(s, e), LinkVictims(Relinked(s, e), key), id);
  }

  /** What one fold does to `id`: it stays inside, or leaves in the returned record, or a request creates it. */
  ghost predicate Conserves(s: State, s': State, out: Option<Operation>, born: bool, id: nat) {
    && s'.opCounter == s.opCounter + (if born then 1 else 0)
    && Inside(s', id) + Times(Listed(out), id) == Inside(s, id) + (if born && id == s.opCounter + 1 then 1 else 0)
  }

  lemma OpenConserves(s: State, e: EvtTlsData, req: Http.RequestHead, id: nat)
    ensures var (key, bio) := (Key(e.tgid, e.fd), BioCookie(e));
            Conserves(s, Opened(s, e, req), Interrupted(s, key, bio), true, id)
  {
    hide NewOp, BioCookie, Interrupted;
    var key, bio := Key(e.tgid, e.fd), BioCookie(e);
    var out := Interrupted(s, key, bio);
    NewOpId(s, e, req);
    HoldersUpdate(s.ops, key, OpenedSlot(SlotAt(s, key), NewOp(s, e, req), bio), id);
    InterruptedId(s, key, bio);
    if out.Some? {
      OneRecord(out.value, id);
    }
  }

  lemma NewOpId(s: State, e: EvtTlsData, req: Http.RequestHead)
    ensures NewOp(s, e, req).id == s.opCounter + 1
  {
    hide ResolveRequest, HeadTruncated;
  }

  lemma InterruptedId(s: State, key: Key, bio: Option<Cookie>)
    ensures var out := Interrupted(s, key, bio);
            && (out.Some? <==> OpenAt(s, key).Some?)
            && (out.Some? ==> out.value.id == OpenAt(s, key).value.id)
  {
    hide BuildOp, BioChanged;
    var slot := SlotAt(s, key);
    if slot.open.Some? {
      var p := slot.open.value;
      if p.resp.Some? {
        BuildKeepsId(s, key, p, FactsOf(p.resp.value, None));
      } else {
        BuildKeepsId(s, key, if BioChanged(slot, bio) then p else p.(ambiguous := true), NO_FACTS);
      }
    }
  }

  lemma WriteConserves(s: State, e: EvtTlsData, id: nat)
    ensures Conserves(s, OnTlsWrite(s, e).0, OnTlsWrite(s, e).1, Http.ParseRequest(e.data).Some?, id)
  {
    hide NewOp, SlotVictims, DropSlots, Interrupted, Http.ParseRequest, OpenedSlot, BioCookie, Weight;
    if Http.ParseRequest(e.data).Some? {
      var req := Http.ParseRequest(e.data).value;
      var s1, key := Opened(s, e, req), Key(e.tgid, e.fd);
      OpenConserves(s, e, req, id);
      DropSlotsKeeps(s1, SlotVictims(s1, key), id);
      DropSlotsFrame(s1, SlotVictims(s1, key));
    }
  }

  lemma SetOpenConserves(s: State, key: Key, op: Option<OpenOp>, out: Option<Operation>, id: nat)
    requires key in s.ops && s.ops[key].open.Some?
    requires op.Some? <==> out.None?
    requires op.Some? ==> op.value.id == s.ops[key].open.value.id
    requires out.Some? ==> out.value.id == s.ops[key].open.value.id
    ensures Conserves(s, SetOpen(s, key, op), out, false, id)
  {
    HoldersUpdate(s.ops, key, s.ops[key].(open := op), id);
    if out.Some? {
      OneRecord(out.value, id);
    }
  }

  lemma TouchKeeps(s: State, key: Key, ts: nat, id: nat)
    ensures var s1 := Touch(s, key, ts);
            Inside(s1, id) == Inside(s, id) && s1.opCounter == s.opCounter && OpenAt(s1, key) == OpenAt(s, key)
            && (key in s1.ops <==> key in s.ops)
  {
    if key in s.ops {
      HoldersUpdate(s.ops, key, s.ops[key].(lastTs := ts), id);
    }
  }

  lemma TallyConserves(s: State, key: Key, ts: nat, len: nat, id: nat)
    ensures var (s', out) := Tally(s, key, ts, len); Conserves(s, s', out, false, id)
  {
    hide BuildOp, Touch, SetOpen, Weight;
    TouchKeeps(s, key, ts, id);
    var s1 := Touch(s, key, ts);
    var op := OpenAt(s1, key);
    if op.Some? && op.value.resp.Some? {
      var rs := op.value.resp.value;
      var seen := SatAdd(rs.bodySeen, len);
      if seen < rs.bodyTarget {
        SetOpenConserves(s1, key, Some(op.value.(resp := Some(rs.(bodySeen := seen)))), None, id);
      } else {
        BuildKeepsId(s1, key, op.value, FactsOf(rs, Some(ts)));
        SetOpenConserves(s1, key, None, Some(BuildOp(s1, key, op.value, FactsOf(rs, Some(ts)))), id);
      }
    }
  }

  lemma FinalConserves(s: State, key: Key, e: EvtTlsData, h: FinalHead, id: nat)
    ensures var (s', out) := Final(s, key, e, h); Conserves(s, s', out, false, id)
  {
    hide BuildOp, Touch, SetOpen, Weight, FinalFacts, Http.SameIgnoringCase;
    TouchKeeps(s, key, e.ts, id);
    var s1 := Touch(s, key, e.ts);
    var op := OpenAt(s1, key);
    if op.Some? {
      if ExpectsBody(op, h) && SatSub(e.len, h.headerEnd.value) < h.contentLength.value {
        var rs := RespState(e.ts, h.status, h.requestId, e.len, h.truncated, h.contentLength.value, SatSub(e.len, h.headerEnd.value));
        SetOpenConserves(s1, key, Some(op.value.(resp := Some(rs))), None, id);
      } else {
        var complete := if ExpectsBody(op, h) then Some(e.ts) else None;
        BuildKeepsId(s1, key, op.value, FinalFacts(e, h, complete));
        SetOpenConserves(s1, key, None, Some(BuildOp(s1, key, op.value, FinalFacts(e, h, complete))), id);
      }
    }
  }

  lemma InterimConserves(s: State, key: Key, ts: nat, id: nat)
    ensures Conserves(s, Interim(s, key, ts), None, false, id)
  {
    hide Touch, SetOpen, Weight;
    TouchKeeps(s, key, ts, id);
    var s1 := Touch(s, key, ts);
    var op := OpenAt(s1, key);
    if op.Some? {
      SetOpenConserves(s1, key, Some(op.value.(interimTs := op.value.interimTs.Or(Some(ts)))), None, id);
    }
  }

  lemma IdleConserves(s: State, s': State, id: nat)
    requires s'.ops == s.ops && s'.flushed == s.flushed && s'.opCounter == s.opCounter
    ensures Conserves(s, s', None, false, id)
  {
  }

  lemma ReadConserves(s: State, e: EvtTlsData, id: nat)
    ensures Conserves(s, OnTlsRead(s, e).0, OnTlsRead(s, e).1, false, id)
  {
    hide Tally, Final, Interim, HeadOf, Http.ParseStatus, Conserves, Foreign, AwaitingBody;
    var key := Key(e.tgid, e.fd);
    IdleConserves(s, s, id);
    if Foreign(s, key, e.cookie) {
      assert OnTlsRead(s, e) == (s, None);
    } else if AwaitingBody(s, key) {
      TallyConserves(s, key, e.ts, e.len, id);
    } else if Http.ParseStatus(e.data).Some? {
      var status := Http.ParseStatus(e.data).value;
      InterimConserves(s, key, e.ts, id);
      FinalConserves(s, key, e, HeadOf(e, status), id);
      assert OnTlsRead(s, e) == if status <= 199 then (Interim(s, key, e.ts), None) else Final(s, key, e, HeadOf(e, status));
    } else {
      assert OnTlsRead(s, e) == (s, None);
    }
  }

  lemma BodyConserves(s: State, e: EvtTlsBody, id: nat)
    ensures Conserves(s, OnTlsReadBody(s, e).0, OnTlsReadBody(s, e).1, false, id)
  {
    hide Tally, Conserves, Foreign;
    var key := Key(e.tgid, e.fd);
    IdleConserves(s, s, id);
    TallyConserves(s, key, e.ts, e.len, id);
    if Foreign(s, key, e.cookie) {
      assert OnTlsReadBody(s, e) == (s, None);
    }
  }

  lemma NamesConserve(s: State, s': State, id: nat)
    requires NamesKept(s, s')
    ensures Conserves(s, s', None, false, id)
  {
    IdleConserves(s, s', id);
  }

  lemma CloseCounter(s: State, e: EvtClose, pick: Option<Key>)
    ensures OnClose(s, e, pick).opCounter == s.opCounter
  {
    hide CloseSlot;
    CloseFrame(s, e, pick);
  }

  lemma ConnectCounter(s: State, e: EvtConnect)
    ensures OnConnect(s, e).opCounter == s.opCounter
  {
    hide EvictOver, ConnStamps, StaleLink, ConnOf, FlushedWith;
  }

  lemma ConnIdCounter(s: State, e: EvtConnId)
    requires Good(s)
    ensures OnConnId(s, e).opCounter == s.opCounter
  {
    hide FlushAndDrop, Relink, DropLinks, LinkVictims, Inverse;
    RelinkedFrame(s, e);
    var s2 := Relinked(s, e);
    DropLinksFrame(s2, LinkVictims(s2, Key(e.tgid, e.fd)));
  }

  /** Every fold but a drain of the queue conserves every id. */
  lemma FoldConserves(s: State, ev: Event, id: nat)
    requires Good(s) && !ev.TakeFlushed?
    ensures Conserves(s, Fold(s, ev).0, Fold(s, ev).1, Opens(ev), id)
  {
    hide OnConnect, OnClose, OnConnId, OnTlsWrite, OnTlsRead, OnTlsHandshake, OnTlsServer, OnDnsQuery, OnDnsResponse,
      OnGetaddrinfo, OnTlsReadBody, DropSlots, Weight, Good, Http.ParseRequest, NamesKept;
    IdleConserves(s, s, id);
    match ev
    case Connect(e) => ConnectCounter(s, e); ConnectKeeps(s, e, id);
    case Close(e, pick) => CloseCounter(s, e, pick); CloseKeeps(s, e, pick, id);
    case ConnId(e) => ConnIdCounter(s, e); ConnIdKeeps(s, e, id);
    case TlsWrite(e) => WriteConserves(s, e, id);
    case TlsRead(e) => ReadConserves(s, e, id);
    case TlsBody(e) => BodyConserves(s, e, id);
    case FlushOpen(order) => DropSlotsFrame(s, order); DropSlotsKeeps(s, order, id);
    case _ =>
      NamesFrame(s, ev);
      NamesConserve(s, Fold(s, ev).0, id);
  }

  /** An id is given out by each request, and by nothing else. */
  lemma FoldCounts(s: State, ev: Event)
    requires Good(s)
    ensures Fold(s, ev).0.opCounter == s.opCounter + (if Opens(ev) then 1 else 0)
  {
    hide Good, Inside, Http.ParseRequest;
    if !ev.TakeFlushed? {
      hide Fold;
      FoldConserves(s, ev, 0);
    }
  }

  /** How often `id` was emitted or is still to be. */
  function Accounted(w: World, id: nat): nat {
    Times(w.returned, id) + Times(w.taken, id) + Inside(w.s, id)
  }

  lemma AdvanceConserves(w: World, ev: Event, at: nat, id: nat)
    requires Good(w.s)
    ensures var w' := Advance(w, ev, at);
            && w'.s.opCounter == w.s.opCounter + (if Opens(ev) then 1 else 0)
            && Accounted(w', id) == Accounted(w, id) + (if Opens(ev) && id == w.s.opCounter + 1 then 1 else 0)
  {
    hide Good, Http.ParseRequest, OpOf, LastConn, Origins;
    TimesConcat(w.returned, Listed(Fold(w.s, ev).1), id);
    if ev.TakeFlushed? {
      TimesConcat(w.taken, w.s.flushed, id);
    } else {
      hide Fold, Inside;
      FoldConserves(w.s, ev, id);
    }
  }

  /**
    Exactly once: of the ids given out so far each is in exactly one place, returned, taken from the
    queue, still queued, or open on one slot; and no other id is anywhere.
   */
  lemma {:induction false} ExactlyOnce(maxOpen: nat, endpoints: seq<string>, salt: string, evs: seq<Event>, id: nat)
    ensures var w := After(Start(maxOpen, endpoints, salt), evs);
            Times(w.returned, id) + Times(w.taken, id) + Times(w.s.flushed, id) + |Holders(w.s.ops, id)|
            == if 1 <= id <= w.s.opCounter then 1 else 0
  {
    var start := Start(maxOpen, endpoints, salt);
    if evs == [] {
      assert Holders(start.s.ops, id) == {};
    } else {
      hide Advance, Good, Start;
      var front := evs[..|evs| - 1];
      ExactlyOnce(maxOpen, endpoints, salt, front, id);
      GoodAlways(maxOpen, endpoints, salt, front);
      AdvanceConserves(After(start, front), evs[|evs| - 1], |evs| - 1, id);
    }
  }

  /** Once the open ops are flushed, every id given out has been emitted, once. */
  lemma NoneLeftOpen(maxOpen: nat, endpoints: seq<string>, salt: string, evs: seq<Event>, order: seq<Key>, id: nat)
    requires ListsSlots(After(Start(maxOpen, endpoints, salt), evs).s, order)
    ensures var w := After(Start(maxOpen, endpoints, salt), evs + [FlushOpen(order)]);
            && w.s.ops == map[]
            && Times(w.returned + w.taken + w.s.flushed, id) == if 1 <= id <= w.s.opCounter then 1 else 0
  {
    hide After, Start;
    var w0 := After(Start(maxOpen, endpoints, salt), evs);
    var all := evs + [FlushOpen(order)];
    var w := After(Start(maxOpen, endpoints, salt), all);
    LastStep(Start(maxOpen, endpoints, salt), evs, FlushOpen(order));
    SlotsGone(w0, order, |evs|);
    ExactlyOnce(maxOpen, endpoints, salt, all, id);
    assert Holders(w.s.ops, id) == {};
    TimesConcat(w.returned, w.taken, id);
    TimesConcat(w.returned + w.taken, w.s.flushed, id);
  }

  lemma SlotsGone(w: World, order: seq<Key>, at: nat)
    requires ListsSlots(w.s, order)
    ensures Advance(w, FlushOpen(order), at).s.ops == map[]
  {
    hide DropSlots;
    DropSlotsFrame(w.s, order);
    assert w.s.ops - AsSet(order) == map[];
  }
}
