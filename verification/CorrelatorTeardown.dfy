/**
  Whose event tears an operation down. A connect or a close that finds an op open under its address emits it
  as aborted. The program takes that op for a dead connection's; with both rings traced, this is when it is.
 */
module CorrelatorTeardown {
  import opened Wrappers
  import opened Eviction
  import opened CorrelatorState
  import opened CorrelatorRuns
  import opened CorrelatorAttribution
  import opened CorrelatorFacts
  import opened CorrelatorEmission
  import opened CorrelatorRings
  import opened CorrelatorLinks
  import opened CorrelatorJoins
  import opened CorrelatorSlots
  import Http = HttpHead

  predicate IsEnd(ev: Event) { ev.Connect? || ev.Close? }

  /** The address a connect or a close is of. */
  function EndCookie(ev: Event): Cookie
    requires IsEnd(ev)
  {
    if ev.Connect? then ev.connect.cookie else ev.close.cookie
  }

  /** The close reclaims a fallback slot: one with an op open for its address, or one last used by it. */
  predicate Reclaims(s: State, ev: Event, k: Key) {
    ev.Close? && (HoldsOpen(s, k, ev.close.cookie) || HoldsResidue(s, k, ev.close.cookie))
  }

  /** The event tears down what is open at `k`: by its link, or as a fallback slot. */
  predicate Tears(s: State, ev: Event, k: Key) {
    (k in s.fdLinks && Severs(ev, k, s.fdLinks[k])) || Reclaims(s, ev, k)
  }

  // ---------------------------------------------------------------------------------------
  // One fold
  // ---------------------------------------------------------------------------------------

  /** `r` is what is open at `k`, as a teardown emits it. */
  predicate Torn(s: State, r: Operation, k: Key) {
    OpenAt(s, k).Some? && r == BuildOp(s, k, OpenAt(s, k).value, FactsOnFlush(OpenAt(s, k).value))
  }

  lemma FlushedIs(s: State, s': State, k: Key, r: Operation, i: nat)
    requires s'.flushed == FlushedWith(s, k) && |s.flushed| <= i < |s'.flushed| && s'.flushed[i] == r
    ensures Torn(s, r, k)
  {
    hide BuildOp, FactsOnFlush;
  }

  lemma ConnectTears(s: State, e: EvtConnect, r: Operation) returns (k: Key)
    requires Inverse(s.fdLinks, s.fdRev) && EmittedAt(s, Connect(e), r)
    ensures Tears(s, Connect(e), k) && Torn(s, r, k)
  {
    hide EvictOver, ConnStamps, ConnOf, StrictTotal, FlushedWith, Torn;
    var s' := OnConnect(s, e);
    var i :| |s.flushed| <= i < |s'.flushed| && s'.flushed[i] == r;
    k := StaleLink(s, e).value;
    FlushedIs(s, s', k, r, i);
  }

  lemma CloseFlushes(s: State, e: EvtClose, pick: Option<Key>)
    ensures var own, out := OwnLink(s, e), OnClose(s, e, pick).flushed;
            if own.Some? then out == FlushedWith(s, own.value)
            else if e.cookie !in s.fdRev && pick.Some? then out == FlushedWith(s, pick.value)
            else out == s.flushed
  {
    hide FlushedWith, OwnLink;
  }

  lemma OwnSevered(s: State, e: EvtClose, pick: Option<Key>)
    requires Inverse(s.fdLinks, s.fdRev) && OwnLink(s, e).Some?
    ensures Tears(s, Close(e, pick), OwnLink(s, e).value)
  {
    hide HoldsOpen, HoldsResidue;
  }

  lemma PickReclaims(s: State, e: EvtClose, pick: Option<Key>)
    requires Legal(s, Close(e, pick)) && e.cookie !in s.fdRev && pick.Some?
    ensures Tears(s, Close(e, pick), pick.value)
  {
    hide HoldsOpen, HoldsResidue;
  }

  lemma CloseTears(s: State, e: EvtClose, pick: Option<Key>, r: Operation) returns (k: Key)
    requires Inverse(s.fdLinks, s.fdRev) && Legal(s, Close(e, pick)) && EmittedAt(s, Close(e, pick), r)
    ensures Tears(s, Close(e, pick), k) && Torn(s, r, k)
  {
    hide FlushedWith, Torn, Tears, OwnLink, OnClose, Legal, Inverse;
    var s' := OnClose(s, e, pick);
    var i :| |s.flushed| <= i < |s'.flushed| && s'.flushed[i] == r;
    CloseFlushes(s, e, pick);
    if OwnLink(s, e).Some? {
      k := OwnLink(s, e).value;
      OwnSevered(s, e, pick);
    } else {
      k := pick.value;
      PickReclaims(s, e, pick);
    }
    FlushedIs(s, s', k, r, i);
  }

  lemma EndTears(s: State, ev: Event, r: Operation) returns (k: Key)
    requires Good(s) && IsEnd(ev) && Legal(s, ev) && EmittedAt(s, ev, r)
    ensures Tears(s, ev, k) && Torn(s, r, k)
  {
    hide EmittedAt, Tears, Torn, Legal, Inverse, Caps, SlotsOk;
    if ev.Connect? {
      k := ConnectTears(s, ev.connect, r);
    } else {
      k := CloseTears(s, ev.close, ev.pick, r);
    }
  }

  lemma TornIsBuilt(s: State, r: Operation, k: Key)
    requires Torn(s, r, k)
    ensures OpenAt(s, k).Some?
    ensures Built(s, r, k, FactsOnFlush(OpenAt(s, k).value), OpenAt(s, k).value.ambiguous)
    ensures Aborted(r, OpenAt(s, k).value)
  {
    var op := OpenAt(s, k).value;
    BuildAborted(s, k, op);
    hide BuildOp, FactsOnFlush, Aborted;
    assert op.(ambiguous := op.ambiguous) == op;
  }

  // ---------------------------------------------------------------------------------------
  // Lives
  // ---------------------------------------------------------------------------------------

  /**
    Lives numbered in the order they held the address `c`: one holds it at a time, so the connects and closes
    of `c` are on the ring life by life, a life's connect first.
   */
  predicate InLifeOrder(log: seq<Traced>, c: Cookie) {
    forall x, y :: 0 <= x < y < |log| && Ends(log[x].ev, c) && Ends(log[y].ev, c) ==>
      log[x].life <= log[y].life && (Connects(log[y].ev, c) ==> log[x].life < log[y].life)
  }

  /** A life is closed, by the clock, before a later one on its address announces itself. */
  predicate ClosedBefore(tlsLog: seq<Traced>, log: seq<Traced>, c: Cookie) {
    forall x, y ::
      && 0 <= x < |log| && log[x].ev.Close? && log[x].ev.close.cookie == c
      && 0 <= y < |tlsLog| && tlsLog[y].ev.ConnId? && tlsLog[y].ev.connId.cookie == c
      && log[x].life < tlsLog[y].life
      ==> log[x].ev.close.ts < tlsLog[y].ev.connId.ts
  }

  /** A life's connect and its conn_id name one process. */
  predicate OneProcess(tlsLog: seq<Traced>, log: seq<Traced>, c: Cookie) {
    forall x, y ::
      && 0 <= x < |log| && Connects(log[x].ev, c)
      && 0 <= y < |tlsLog| && tlsLog[y].ev.ConnId? && tlsLog[y].ev.connId.cookie == c
      && log[x].life == tlsLog[y].life
      ==> log[x].ev.connect.tgid == tlsLog[y].ev.connId.tgid
  }

  lemma PlacesInOrder(evs: seq<Event>, log: seq<Traced>, ring: Ring, n: nat, p: nat)
    requires n < p < |evs| && OnRing(evs[n], ring) && Carries(log, Part(evs, ring))
    ensures |Part(evs[..n], ring)| < |Part(evs[..p], ring)|
  {
    assert evs[..p][..n + 1] == evs[..n + 1] && evs[..n + 1][..n] == evs[..n];
    PartPrefix(evs[..p], n + 1, ring);
  }

  lemma EndsRide(ev: Event, c: Cookie)
    ensures Ends(ev, c) ==> OnRing(ev, Events)
    ensures Connects(ev, c) ==> Ends(ev, c)
  {
  }

  /** Of two events that end lives of `c`, one of them a connect, the earlier life's is folded first. */
  lemma FoldedFirst(evs: seq<Event>, log: seq<Traced>, c: Cookie, n: nat, p: nat)
    requires Carries(log, Part(evs, Events)) && InLifeOrder(log, c)
    requires n < |evs| && p < |evs| && Ends(evs[n], c) && Connects(evs[p], c)
    ensures LifeOf(evs, log, Events, n) < LifeOf(evs, log, Events, p) <==> n < p
  {
    hide Part, Ends, Connects, OnRing;
    EndsRide(evs[n], c);
    EndsRide(evs[p], c);
    PlaceOnRing(evs, log, n, Events);
    PlaceOnRing(evs, log, p, Events);
    if n < p {
      PlacesInOrder(evs, log, Events, n, p);
    } else if p < n {
      PlacesInOrder(evs, log, Events, p, n);
    }
  }

  /** The op's descriptor, by its link, is of the address that ends. */
  lemma TornLink(start: World, evs: seq<Event>, n: nat, k: Key)
    requires Good(start.s) && start.s.fdLinks == map[]
    requires n < |evs| && IsEnd(evs[n]) && k.fd != 0 && Tears(Ahead(start, evs, n), evs[n], k)
    ensures var b := Linker(start, evs[..n], k);
            b.Some? && Severs(evs[n], k, LinkOf(evs[b.value].connId)) && evs[b.value].connId.cookie == EndCookie(evs[n])
  {
    hide Good, After;
    LinkStands(start, evs[..n], k);
  }

  /** Lives are told apart by the writer's own connect, wherever it is folded. */
  predicate WhoseEnd(evs: seq<Event>, log: seq<Traced>, n: nat, writer: nat)
    requires n < |evs| && IsEnd(evs[n]) && Carries(log, Part(evs, Events))
  {
    InLifeOrder(log, EndCookie(evs[n])) ==>
      forall p: nat :: p < |evs| && Connects(evs[p], EndCookie(evs[n])) && LifeOf(evs, log, Events, p) == writer ==>
        (LifeOf(evs, log, Events, n) < writer <==> n < p)
  }

  lemma WhoseEndIs(evs: seq<Event>, log: seq<Traced>, n: nat, writer: nat)
    requires n < |evs| && IsEnd(evs[n]) && Carries(log, Part(evs, Events))
    ensures WhoseEnd(evs, log, n, writer)
  {
    hide InLifeOrder, LifeOf, Part, Carries;
    var c := EndCookie(evs[n]);
    if InLifeOrder(log, c) {
      forall p: nat | p < |evs| && Connects(evs[p], c) && LifeOf(evs, log, Events, p) == writer
        ensures LifeOf(evs, log, Events, n) < writer <==> n < p
      {
        FoldedFirst(evs, log, c, n, p);
      }
    }
  }

  /** What a stamped close, and a connect, cannot be, if the conn_id whose link they sever is the writer's. */
  predicate GuardsHold(evs: seq<Event>, tlsLog: seq<Traced>, log: seq<Traced>, n: nat, b: nat, writer: nat)
    requires Carries(tlsLog, Part(evs, TlsEvents)) && Carries(log, Part(evs, Events))
    requires n < |evs| && b < |evs| && IsEnd(evs[n]) && evs[b].ConnId?
  {
    var c, life := EndCookie(evs[n]), LifeOf(evs, log, Events, n);
    LifeOf(evs, tlsLog, TlsEvents, b) == writer ==>
      && (evs[n].Close? && evs[n].close.ts != 0 && ClosedBefore(tlsLog, log, c) ==> writer <= life)
      && (evs[n].Connect? && OneProcess(tlsLog, log, c) ==> writer != life)
  }

  lemma Guards(evs: seq<Event>, tlsLog: seq<Traced>, log: seq<Traced>, n: nat, b: nat, k: Key, writer: nat)
    requires Carries(tlsLog, Part(evs, TlsEvents)) && Carries(log, Part(evs, Events))
    requires n < |evs| && b < |evs| && IsEnd(evs[n]) && Announces(evs[b], k)
    requires evs[b].connId.cookie == EndCookie(evs[n]) && Severs(evs[n], k, LinkOf(evs[b].connId))
    ensures GuardsHold(evs, tlsLog, log, n, b, writer)
  {
    PlaceOnRing(evs, log, n, Events);
    PlaceOnRing(evs, tlsLog, b, TlsEvents);
  }

  /** A torn op's own request. */
  lemma TornJoins(maxOpen: nat, endpoints: seq<string>, salt: string, evs: seq<Event>, n: nat, r: Operation, k: Key)
    returns (at: nat)
    requires n < |evs| && IsEnd(evs[n])
    requires EmittedAt(Ahead(Start(maxOpen, endpoints, salt), evs, n), evs[n], r)
    requires Torn(Ahead(Start(maxOpen, endpoints, salt), evs, n), r, k)
    ensures JoinsAt(Start(maxOpen, endpoints, salt), evs, r, at, n) && WriteKey(evs[at]) == k
  {
    hide Start, After, Attributed, OriginsTrue, EmittedAt, Torn, JoinsAt, Built, OpOf, Inverse, Caps, SlotsOk;
    var start := Start(maxOpen, endpoints, salt);
    var s := Ahead(start, evs, n);
    GoodAlways(maxOpen, endpoints, salt, evs[..n]);
    AlwaysAttributed(maxOpen, endpoints, salt, evs[..n]);
    AlwaysTrue(maxOpen, endpoints, salt, evs[..n]);
    NoneBound(maxOpen, endpoints, salt);
    TornIsBuilt(s, r, k);
    FlushNotCut(s, k);
    at := JoinsFrom(start, evs, r, n, k, FactsOnFlush(OpenAt(s, k).value), OpenAt(s, k).value.ambiguous);
  }

  lemma NoneBound(maxOpen: nat, endpoints: seq<string>, salt: string)
    ensures Start(maxOpen, endpoints, salt).lastConn == map[]
  {
  }

  /** `r` reports the request folded at `at`, whose op the event at `n` tears down. */
  ghost predicate TornAt(start: World, evs: seq<Event>, r: Operation, at: nat, n: nat)
    requires n < |evs|
  {
    && JoinsAt(start, evs, r, at, n)
    && Torn(Ahead(start, evs, n), r, WriteKey(evs[at]))
    && Tears(Ahead(start, evs, n), evs[n], WriteKey(evs[at]))
  }

  /** The link that stands at `k` ahead of the fold at `n` is of the conn_id at `b`. */
  ghost predicate LinkedBy(start: World, evs: seq<Event>, k: Key, b: nat, n: nat)
    requires n <= |evs|
  {
    Linker(start, evs[..n], k) == Some(b) && b < n && evs[b].ConnId?
  }

  /**
    An op torn down by a connect or a close, over any run of both rings. By the writer's own connect, folded
    anywhere in the run: the life that ended is an earlier one, and the op torn down was live, exactly when
    the event was folded ahead of that connect. On a descriptor the event is of the record's own cookie; and if
    the conn_id the link is of, at `b`, is the writer's, a stamped close is never of an earlier life, and a
    connect never the writer's own.
   */
  lemma TeardownLife(maxOpen: nat, endpoints: seq<string>, salt: string, evs: seq<Event>, tlsLog: seq<Traced>,
                     log: seq<Traced>,
                     n: nat, r: Operation)
    returns (at: nat, b: nat)
    requires Carries(tlsLog, Part(evs, TlsEvents)) && Carries(log, Part(evs, Events))
    requires n < |evs| && IsEnd(evs[n]) && Legal(Ahead(Start(maxOpen, endpoints, salt), evs, n), evs[n])
    requires EmittedAt(Ahead(Start(maxOpen, endpoints, salt), evs, n), evs[n], r)
    ensures TornAt(Start(maxOpen, endpoints, salt), evs, r, at, n)
    ensures WhoseEnd(evs, log, n, LifeOf(evs, tlsLog, TlsEvents, at))
    ensures WriteKey(evs[at]).fd != 0 ==>
              && r.sockCookie == EndCookie(evs[n])
              && LinkedBy(Start(maxOpen, endpoints, salt), evs, WriteKey(evs[at]), b, n)
              && GuardsHold(evs, tlsLog, log, n, b, LifeOf(evs, tlsLog, TlsEvents, at))
  {
    hide Start, After, Good, EmittedAt, Torn, Tears, Legal, CutHead, OpOf, LastBound, Joined, LinkIsLast, TellsOf,
      Severs, Part,
      WhoseEnd, GuardsHold, LifeOf;
    var start := Start(maxOpen, endpoints, salt);
    GoodAlways(maxOpen, endpoints, salt, evs[..n]);
    var k := EndTears(Ahead(start, evs, n), evs[n], r);
    at := TornJoins(maxOpen, endpoints, salt, evs, n, r, k);
    WhoseEndIs(evs, log, n, LifeOf(evs, tlsLog, TlsEvents, at));
    b := 0;
    if k.fd != 0 {
      Unlinked(maxOpen, endpoints, salt);
      TornLink(start, evs, n, k);
      LinkCarried(maxOpen, endpoints, salt, evs, r, at, n);
      b := Linker(start, evs[..n], k).value;
      Guards(evs, tlsLog, log, n, b, k, LifeOf(evs, tlsLog, TlsEvents, at));
    }
  }

  // ---------------------------------------------------------------------------------------
  // Where a teardown goes wrong
  // ---------------------------------------------------------------------------------------

  /** A request on the only slot there is, or on the first. */
  lemma SoleSlot(s: State, write: EvtTlsData, req: Http.RequestHead)
    requires Http.ParseRequest(write.data) == Some(req) && s.ops.Keys <= {Key(write.tgid, write.fd)}
    ensures var k, s' := Key(write.tgid, write.fd), OnTlsWrite(s, write).0;
            && s'.ops == map[k := OpenedSlot(SlotAt(s, k), NewOp(s, write, req), BioCookie(write))]
            && s'.fdLinks == s.fdLinks && s'.fdRev == s.fdRev && s'.opCounter == s.opCounter + 1
  {
    hide NewOp, SlotVictims, DropSlots, Interrupted, Http.ParseRequest, BioCookie, OpenedSlot;
    var k, s1 := Key(write.tgid, write.fd), Opened(s, write, req);
    WriteOpens(s, write, req);
    DropSlotsFrame(s1, SlotVictims(s1, k));
  }

  /** A connect of its cookie by another process tears a descriptor's open op down, and its link. */
  lemma ConnectAborts(s: State, e: EvtConnect, k: Key)
    requires Inverse(s.fdLinks, s.fdRev) && k in s.fdLinks && s.fdLinks[k].cookie == e.cookie && k.tgid != e.tgid
    requires OpenAt(s, k).Some?
    ensures var s', r := OnConnect(s, e), BuildOp(s, k, OpenAt(s, k).value, FactsOnFlush(OpenAt(s, k).value));
            EmittedAt(s, Connect(e), r) && k !in s'.ops && k !in s'.fdLinks
  {
    hide EvictOver, ConnStamps, ConnOf, StrictTotal, BuildOp, FactsOnFlush;
    var s', r := OnConnect(s, e), BuildOp(s, k, OpenAt(s, k).value, FactsOnFlush(OpenAt(s, k).value));
    assert s'.flushed == s.flushed + [r];
    assert s'.flushed[|s.flushed|] == r;
  }

  /** A close with no link of its own tears down the fallback slot picked for it. */
  lemma CloseAborts(s: State, e: EvtClose, k: Key)
    requires e.cookie !in s.fdRev && OpenAt(s, k).Some?
    ensures var s', r := OnClose(s, e, Some(k)), BuildOp(s, k, OpenAt(s, k).value, FactsOnFlush(OpenAt(s, k).value));
            EmittedAt(s, Close(e, Some(k)), r) && k !in s'.ops
  {
    hide BuildOp, FactsOnFlush;
    var s', r := OnClose(s, e, Some(k)), BuildOp(s, k, OpenAt(s, k).value, FactsOnFlush(OpenAt(s, k).value));
    assert s'.flushed == s.flushed + [r];
    assert s'.flushed[|s.flushed|] == r;
  }

  lemma PartNext(evs: seq<Event>, ev: Event, ring: Ring)
    ensures Part(evs + [ev], ring) == Part(evs, ring) + (if OnRing(ev, ring) then [ev] else [])
  {
    assert (evs + [ev])[..|evs|] == evs;
  }

  /** The state in which a descriptor has its link and its first request open. */
  lemma LinkedAndOpen(maxOpen: nat, endpoints: seq<string>, salt: string, id: EvtConnId, write: EvtTlsData)
    requires id.tgid == write.tgid && id.fd == write.fd && Http.ParseRequest(write.data).Some?
    ensures var k, s := Key(id.tgid, id.fd), After(Start(maxOpen, endpoints, salt), [ConnId(id), TlsWrite(write)]).s;
            k in s.fdLinks && s.fdLinks[k].cookie == id.cookie && OpenAt(s, k).Some?
  {
    hide OnConnId, OnTlsWrite, Good, Http.ParseRequest, After, NewOp;
    var start := Start(maxOpen, endpoints, salt);
    GoodInit(maxOpen, endpoints, salt);
    Nothing(start);
    assert [] + [ConnId(id)] == [ConnId(id)] && [ConnId(id)] + [TlsWrite(write)] == [ConnId(id), TlsWrite(write)];
    NextState(start, [], ConnId(id));
    ConnIdFirst(start.s, id);
    NextState(start, [ConnId(id)], TlsWrite(write));
    SoleSlot(After(start, [ConnId(id)]).s, write, Http.ParseRequest(write.data).value);
  }

  /**
    A late connect. The later life's conn_id and request are folded; the earlier life's connect, still
    behind in the other ring, is folded next, and then the later's own. The rings keep every guarantee of theirs,
    and the first connect aborts the live op and drops its link.
   */
  lemma LateConnect(maxOpen: nat, endpoints: seq<string>, salt: string, id: EvtConnId, write: EvtTlsData,
                    e: EvtConnect, own: EvtConnect,
                    earlier: nat, later: nat)
    returns (r: Operation)
    requires id.tgid == write.tgid == own.tgid && id.fd == write.fd && Http.ParseRequest(write.data).Some?
    requires id.cookie == e.cookie == own.cookie && e.tgid != id.tgid && earlier < later
    ensures var start, k := Start(maxOpen, endpoints, salt), Key(id.tgid, id.fd);
            var evs := [ConnId(id), TlsWrite(write), Connect(e), Connect(own)];
            && EmittedAt(Ahead(start, evs, 2), evs[2], r) && Torn(Ahead(start, evs, 2), r, k)
            && k !in Ahead(start, evs, 3).ops && k !in Ahead(start, evs, 3).fdLinks
    ensures var evs := [ConnId(id), TlsWrite(write), Connect(e), Connect(own)];
            var tlsLog := [Traced(ConnId(id), later), Traced(TlsWrite(write), later)];
            var log := [Traced(Connect(e), earlier), Traced(Connect(own), later)];
            && Carries(tlsLog, Part(evs, TlsEvents)) && Carries(log, Part(evs, Events))
            && InLifeOrder(log, id.cookie) && ClosedBefore(tlsLog, log, id.cookie) && OneProcess(tlsLog, log, id.cookie)
  {
    hide Start, After, BuildOp, FactsOnFlush, Http.ParseRequest, EmittedAt, OpenAt, Part, InLifeOrder, ClosedBefore,
      OneProcess;
    LateConnectAborts(maxOpen, endpoints, salt, id, write, e, own);
    LateConnectRings(id, write, e, own);
    LateConnectLives(id, write, e, own, earlier, later);
    var s := Ahead(Start(maxOpen, endpoints, salt), [ConnId(id), TlsWrite(write), Connect(e), Connect(own)], 2);
    var k := Key(id.tgid, id.fd);
    r := BuildOp(s, k, OpenAt(s, k).value, FactsOnFlush(OpenAt(s, k).value));
  }

  lemma LateConnectLives(id: EvtConnId, write: EvtTlsData, e: EvtConnect, own: EvtConnect, earlier: nat, later: nat)
    requires id.cookie == e.cookie == own.cookie && own.tgid == id.tgid && earlier < later
    ensures var tlsLog := [Traced(ConnId(id), later), Traced(TlsWrite(write), later)];
            var log := [Traced(Connect(e), earlier), Traced(Connect(own), later)];
            InLifeOrder(log, id.cookie) && ClosedBefore(tlsLog, log, id.cookie) && OneProcess(tlsLog, log, id.cookie)
  {
  }

  lemma LateConnectAborts(maxOpen: nat, endpoints: seq<string>, salt: string, id: EvtConnId, write: EvtTlsData,
                          e: EvtConnect, own: EvtConnect)
    requires id.tgid == write.tgid && id.fd == write.fd && Http.ParseRequest(write.data).Some?
    requires id.cookie == e.cookie && e.tgid != id.tgid
    ensures var start, k := Start(maxOpen, endpoints, salt), Key(id.tgid, id.fd);
            var evs := [ConnId(id), TlsWrite(write), Connect(e), Connect(own)];
            var s := Ahead(start, evs, 2);
            && OpenAt(s, k).Some?
            && EmittedAt(s, evs[2], BuildOp(s, k, OpenAt(s, k).value, FactsOnFlush(OpenAt(s, k).value)))
            && k !in Ahead(start, evs, 3).ops && k !in Ahead(start, evs, 3).fdLinks
  {
    hide Start, After, OnConnect, BuildOp, FactsOnFlush, Http.ParseRequest, EmittedAt;
    var start, two := Start(maxOpen, endpoints, salt), [ConnId(id), TlsWrite(write)];
    var evs := [ConnId(id), TlsWrite(write), Connect(e), Connect(own)];
    assert evs[..2] == two && evs[..3] == two + [Connect(e)];
    LinkedAndOpen(maxOpen, endpoints, salt, id, write);
    GoodAlways(maxOpen, endpoints, salt, two);
    ConnectAborts(After(start, two).s, e, Key(id.tgid, id.fd));
    NextState(start, two, Connect(e));
  }

  lemma LateConnectRings(id: EvtConnId, write: EvtTlsData, e: EvtConnect, own: EvtConnect)
    ensures var evs := [ConnId(id), TlsWrite(write), Connect(e), Connect(own)];
            Part(evs, TlsEvents) == [ConnId(id), TlsWrite(write)] && Part(evs, Events) == [Connect(e), Connect(own)]
  {
    var one, two := [ConnId(id)], [ConnId(id), TlsWrite(write)];
    var three := two + [Connect(e)];
    assert [] + [ConnId(id)] == one && one + [TlsWrite(write)] == two;
    assert three + [Connect(own)] == [ConnId(id), TlsWrite(write), Connect(e), Connect(own)];
    forall ring: Ring ensures Part([ConnId(id), TlsWrite(write), Connect(e), Connect(own)], ring)
                              == if ring == TlsEvents then [ConnId(id), TlsWrite(write)] else [Connect(e), Connect(own)]
    {
      PartNext([], ConnId(id), ring);
      PartNext(one, TlsWrite(write), ring);
      PartNext(two, Connect(e), ring);
      PartNext(three, Connect(own), ring);
    }
  }

  /**
    A late close. A fallback op of a later life is open under the address; the earlier life's close, however stamped,
    is folded next and aborts it.
   */
  lemma LateClose(maxOpen: nat, endpoints: seq<string>, salt: string, write: EvtTlsData, e: EvtClose)
    returns (r: Operation)
    requires write.fd == 0 && write.cookie == e.cookie != 0 && Http.ParseRequest(write.data).Some?
    ensures var start, k := Start(maxOpen, endpoints, salt), Key(write.tgid, 0);
            var s := After(start, [TlsWrite(write)]).s;
            && Legal(s, Close(e, Some(k))) && EmittedAt(s, Close(e, Some(k)), r) && Torn(s, r, k) && r.sockCookie == e.cookie
  {
    hide OnTlsWrite, Http.ParseRequest, After, ResolveRequest, HeadTruncated, BuildOp, FactsOnFlush, EmittedAt;
    var start, k := Start(maxOpen, endpoints, salt), Key(write.tgid, 0);
    Nothing(start);
    assert [] + [TlsWrite(write)] == [TlsWrite(write)];
    NextState(start, [], TlsWrite(write));
    SoleSlot(start.s, write, Http.ParseRequest(write.data).value);
    var s := After(start, [TlsWrite(write)]).s;
    assert HoldsOpen(s, k, e.cookie);
    CloseAborts(s, e, k);
    r := BuildOp(s, k, OpenAt(s, k).value, FactsOnFlush(OpenAt(s, k).value));
    BuildIsJoined(s, k, OpenAt(s, k).value, FactsOnFlush(OpenAt(s, k).value));
  }

  /** Two requests on the fallback slot, the second without a cookie: it is open, and the slot is the first's still. */
  lemma TwoRequests(maxOpen: nat, endpoints: seq<string>, salt: string, first: EvtTlsData, second: EvtTlsData)
    requires first.fd == second.fd == 0 && first.tgid == second.tgid && first.cookie != 0 && second.cookie == 0
    requires Http.ParseRequest(first.data).Some? && Http.ParseRequest(second.data).Some?
    ensures var k, s := Key(first.tgid, 0), After(Start(maxOpen, endpoints, salt), [TlsWrite(first), TlsWrite(second)]).s;
            && s.fdRev == map[] && s.fdLinks == map[] && s.ops.Keys == {k}
            && OpenAt(s, k).Some? && OpenAt(s, k).value.id == 2 && OpenAt(s, k).value.cookie == None
            && s.ops[k].lastBio == Some(first.cookie)
  {
    hide OnTlsWrite, Http.ParseRequest, After, ResolveRequest, HeadTruncated;
    var start, k := Start(maxOpen, endpoints, salt), Key(first.tgid, 0);
    Nothing(start);
    assert [] + [TlsWrite(first)] == [TlsWrite(first)];
    assert [TlsWrite(first)] + [TlsWrite(second)] == [TlsWrite(first), TlsWrite(second)];
    NextState(start, [], TlsWrite(first));
    SoleSlot(start.s, first, Http.ParseRequest(first.data).value);
    NextState(start, [TlsWrite(first)], TlsWrite(second));
    SoleSlot(After(start, [TlsWrite(first)]).s, second, Http.ParseRequest(second.data).value);
  }

  /**
    The second pass of a close is meant for slots with nothing open. But a request whose cookie could not be
    inferred leaves the slot's last owner as it was, so a close of that owner's address aborts it.
   */
  lemma ResidueAborts(maxOpen: nat, endpoints: seq<string>, salt: string, first: EvtTlsData, second: EvtTlsData,
                      e: EvtClose)
    returns (r: Operation)
    requires first.fd == second.fd == 0 && first.tgid == second.tgid && first.cookie == e.cookie != 0 && second.cookie == 0
    requires Http.ParseRequest(first.data).Some? && Http.ParseRequest(second.data).Some?
    ensures var start, k := Start(maxOpen, endpoints, salt), Key(first.tgid, 0);
            var s := After(start, [TlsWrite(first), TlsWrite(second)]).s;
            && Legal(s, Close(e, Some(k))) && EmittedAt(s, Close(e, Some(k)), r) && Torn(s, r, k)
            && r.id == 2 && r.sockCookie == 0
  {
    hide Start, After, Http.ParseRequest, BuildOp, FactsOnFlush, EmittedAt;
    var k, s := Key(first.tgid, 0), After(Start(maxOpen, endpoints, salt), [TlsWrite(first), TlsWrite(second)]).s;
    TwoRequests(maxOpen, endpoints, salt, first, second);
    assert HoldsResidue(s, k, e.cookie) && forall j :: j in s.ops ==> j == k;
    CloseAborts(s, e, k);
    r := BuildOp(s, k, OpenAt(s, k).value, FactsOnFlush(OpenAt(s, k).value));
    BuildIsJoined(s, k, OpenAt(s, k).value, FactsOnFlush(OpenAt(s, k).value));
    BuildId(s, k, OpenAt(s, k).value, FactsOnFlush(OpenAt(s, k).value));
  }
}
