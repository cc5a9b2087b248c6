/**
  The decide-once socket scope of the in-kernel probe. Whether a connection is in scope is judged
  once, in the connecting task's own context, and remembered by the socket's address; everything that
  fires later, often in a context that says nothing about the owner, goes by that memory alone. Both
  maps are LRU: any entry can vanish at any time.
 */
module SockScope {
  import opened Wrappers

  type Cookie = nat

  datatype TcpState = Closed | SynSent | SynRecv | Established | Listen | Closing

  /** What is kept per socket; 0 for an instant not observed. */
  datatype Track = Track(synTs: nat, estTs: nat, pid: nat, scoped: bool)

  datatype Out =
    | ConnectOut(cookie: Cookie, pid: nat, ts: nat, latency: nat, failed: bool)
    | CloseOut(cookie: Cookie, pid: nat, lifetime: nat)

  datatype Kernel = Kernel(allowlist: bool, dropLoopback: bool, sockTs: map<Cookie, Track>, tracked: set<Cookie>)

  /** A state change of a TCP socket; `member` says whether the current task is on the allowlist. */
  datatype SetState = SetState(cookie: Cookie, prior: TcpState, next: TcpState, now: nat, pid: nat, member: bool, loopback: bool)

  predicate InScope(k: Kernel, member: bool) { !k.allowlist || member }

  predicate SockInScope(k: Kernel, cookie: Cookie) { !k.allowlist || cookie in k.tracked }

  function Mark(k: Kernel, cookie: Cookie): Kernel {
    if k.allowlist then k.(tracked := k.tracked + {cookie}) else k
  }

  function Unmark(k: Kernel, cookie: Cookie): Kernel { k.(tracked := k.tracked - {cookie}) }

  function OnSynSent(k: Kernel, e: SetState): Kernel {
    if !InScope(k, e.member) then (if k.allowlist then Unmark(k, e.cookie) else k)
    else Mark(k.(sockTs := k.sockTs[e.cookie := Track(e.now, 0, e.pid, k.allowlist)]), e.cookie)
  }

  function OnEstablished(k: Kernel, e: SetState): (Kernel, seq<Out>) {
    if !SockInScope(k, e.cookie) then (k, [])
    else
      var t := if e.cookie in k.sockTs then k.sockTs[e.cookie] else Track(0, 0, 0, false);
      (k.(sockTs := k.sockTs[e.cookie := t.(estTs := e.now)]),
       [ConnectOut(e.cookie, t.pid, e.now, if t.synTs != 0 then SatSub(e.now, t.synTs) else 0, false)])
  }

  /** Out of this probe's hands: neither tracked nor opened under the allowlist. */
  predicate Ignored(k: Kernel, cookie: Cookie) {
    k.allowlist && cookie !in k.tracked && !(cookie in k.sockTs && k.sockTs[cookie].scoped)
  }

  /** A connect that sent its SYN and never came up. */
  predicate NeverUp(k: Kernel, e: SetState) {
    e.cookie in k.sockTs && e.prior == SynSent && k.sockTs[e.cookie].estTs == 0
  }

  function OnClose(k: Kernel, e: SetState): (Kernel, seq<Out>) {
    if e.prior == Listen then (k, [])
    else if Ignored(k, e.cookie) then (Unmark(k, e.cookie), [])
    else
      var gone := Unmark(k.(sockTs := k.sockTs - {e.cookie}), e.cookie);
      if e.cookie !in k.sockTs then (gone, [CloseOut(e.cookie, 0, 0)])
      else
        var t := k.sockTs[e.cookie];
        var birth := if NeverUp(k, e) || t.estTs == 0 then t.synTs else t.estTs;
        var close := CloseOut(e.cookie, t.pid, if birth != 0 then SatSub(e.now, birth) else 0);
        (gone, if NeverUp(k, e) then [ConnectOut(e.cookie, t.pid, t.synTs, 0, true), close] else [close])
  }

  /** What one state change does to the maps, and what it emits. */
  function Handle(k: Kernel, e: SetState): (Kernel, seq<Out>) {
    if k.dropLoopback && e.loopback then (k, [])
    else
      match e.next
      case SynSent => (OnSynSent(k, e), [])
      case Established => OnEstablished(k, e)
      case Closed => OnClose(k, e)
      case _ => (k, [])
  }

  /** The probe, over its two maps. */
  class Probe {
    var allowlist: bool
    const dropLoopback: bool
    var sockTs: map<Cookie, Track>
    var trackedSocks: set<Cookie>

    function Maps(): Kernel
      reads this
    {
      Kernel(allowlist, dropLoopback, sockTs, trackedSocks)
    }

    constructor (dropLoopback: bool)
      ensures Maps() == Kernel(false, dropLoopback, map[], {})
    {
      allowlist := false;
      this.dropLoopback := dropLoopback;
      sockTs, trackedSocks := map[], {};
    }

    method HandleSetState(e: SetState) returns (outs: seq<Out>)
      modifies this
      ensures (Maps(), outs) == Handle(old(Maps()), e)
    {
      outs := [];
      if dropLoopback {
        if e.loopback { return; }
      }
      var cookie := e.cookie;
      if e.next == SynSent {
        if !(!allowlist || e.member) {
          if allowlist { trackedSocks := trackedSocks - {cookie}; }
          return;
        }
        sockTs := sockTs[cookie := Track(e.now, 0, e.pid, allowlist)];
        if allowlist { trackedSocks := trackedSocks + {cookie}; }
        return;
      }
      if e.next == Established {
        if !(!allowlist || cookie in trackedSocks) { return; }
        var synTs, pid := 0, 0;
        if cookie in sockTs { synTs, pid := sockTs[cookie].synTs, sockTs[cookie].pid; }
        var latency := if synTs != 0 && e.now >= synTs then e.now - synTs else 0;
        outs := [ConnectOut(cookie, pid, e.now, latency, false)];
        if cookie in sockTs {
          sockTs := sockTs[cookie := sockTs[cookie].(estTs := e.now)];
        } else {
          sockTs := sockTs[cookie := Track(0, e.now, 0, false)];
        }
        return;
      }
      if e.next == Closed {
        if e.prior == Listen { return; }
        var t := Get(sockTs, cookie);
        if allowlist && !(!allowlist || cookie in trackedSocks) && !(t.Some? && t.value.scoped) {
          trackedSocks := trackedSocks - {cookie};
          return;
        }
        var birth := 0;
        if t.Some? {
          if e.prior == SynSent && t.value.estTs == 0 {
            outs := [ConnectOut(cookie, t.value.pid, t.value.synTs, 0, true)];
            birth := t.value.synTs;
          } else {
            birth := if t.value.estTs != 0 then t.value.estTs else t.value.synTs;
          }
        }
        var close := CloseOut(cookie, if t.Some? then t.value.pid else 0, if birth != 0 && e.now >= birth then e.now - birth else 0);
        outs := outs + [close];
        assert outs == OnClose(Maps(), e).1;
        sockTs := sockTs - {cookie};
        trackedSocks := trackedSocks - {cookie};
      }
    }

    /** A DNS query leaving a UDP socket: marked or unmarked by the sender's scope. */
    method HandleUdpSend(cookie: Cookie, member: bool)
      modifies this`trackedSocks
      ensures Maps() == UdpSend(old(Maps()), cookie, member)
    {
      if !(!allowlist || member) {
        if allowlist { trackedSocks := trackedSocks - {cookie}; }
        return;
      }
      if allowlist { trackedSocks := trackedSocks + {cookie}; }
    }
  }

  function UdpSend(k: Kernel, cookie: Cookie, member: bool): Kernel {
    if InScope(k, member) then Mark(k, cookie) else Unmark(k, cookie)
  }

  // ---------------------------------------------------------------------------------------
  // Runs
  // ---------------------------------------------------------------------------------------

  /** One atomic step of the probe, or of the kernel's LRU, or the switch to the allowlist. */
  datatype Event =
    | Change(e: SetState)
    | UdpQuery(cookie: Cookie, member: bool)
    | Flip
    | EvictTs(cookie: Cookie)
    | EvictTracked(cookie: Cookie)

  function Step(k: Kernel, ev: Event): (Kernel, seq<Out>) {
    match ev
    case Change(e) => Handle(k, e)
    case UdpQuery(c, member) => (UdpSend(k, c, member), [])
    case Flip => (k.(allowlist := true), [])
    case EvictTs(c) => (k.(sockTs := k.sockTs - {c}), [])
    case EvictTracked(c) => (Unmark(k, c), [])
  }

  /** The maps after a run, and all it emitted. */
  function Run(k: Kernel, evs: seq<Event>): (Kernel, seq<Out>) {
    if evs == [] then (k, [])
    else
      var before := Run(k, evs[..|evs| - 1]);
      var step := Step(before.0, evs[|evs| - 1]);
      (step.0, before.1 + step.1)
  }

  predicate Of(ev: Event, c: Cookie) { ev.Change? && ev.e.cookie == c }

  /** The last state a socket was seen to enter; none if this run never saw it change. */
  function StateOf(evs: seq<Event>, c: Cookie): Option<TcpState> {
    if evs == [] then None
    else if Of(evs[|evs| - 1], c) then Some(evs[|evs| - 1].e.next)
    else StateOf(evs[..|evs| - 1], c)
  }

  /** Whether the socket's current life was opened on loopback; lives start at SYN_SENT. */
  function LifeLoopback(evs: seq<Event>, c: Cookie): Option<bool> {
    if evs == [] then None
    else
      var ev := evs[|evs| - 1];
      if !Of(ev, c) then LifeLoopback(evs[..|evs| - 1], c)
      else if ev.e.next == SynSent then Some(ev.e.loopback)
      else if ev.e.next == Closed then None
      else LifeLoopback(evs[..|evs| - 1], c)
  }

  /** A socket spawned by a listener, on an address last seen closed: its own first change starts from LISTEN. */
  predicate PassiveChild(evs: seq<Event>, e: SetState) {
    StateOf(evs, e.cookie) == Some(Closed) && e.prior == Listen && e.next == SynRecv
  }

  /**
    What TCP and the allocator guarantee: a change starts from the state the socket is in, but for
    a listener's child on a reused address; an active open only from CLOSE (an address is reused only
    after it), both ends stay what they were for a life, and no UDP socket shares an address with a TCP one.
   */
  predicate LegalChange(evs: seq<Event>, e: SetState) {
    && (StateOf(evs, e.cookie).Some? ==> e.prior == StateOf(evs, e.cookie).value || PassiveChild(evs, e))
    && (e.next == SynSent || e.next == Listen ==> e.prior == Closed)
    && (e.next != SynSent && LifeLoopback(evs, e.cookie).Some? ==> e.loopback == LifeLoopback(evs, e.cookie).value)
    && e.now > 0
  }

  ghost predicate LegalRun(evs: seq<Event>, tcp: iset<Cookie>) {
    evs == [] ||
    var front, ev := evs[..|evs| - 1], evs[|evs| - 1];
    && LegalRun(front, tcp)
    && (ev.Change? ==> ev.e.cookie in tcp && LegalChange(front, ev.e))
    && (ev.UdpQuery? ==> ev.cookie !in tcp)
  }

  function Boot(dropLoopback: bool): Kernel { Kernel(false, dropLoopback, map[], {}) }

  /**
    The current life of `c` was judged in scope, under the allowlist, when it sent its SYN: no CLOSE
    of `c` since.
   */
  function Judged(k: Kernel, evs: seq<Event>, c: Cookie): bool {
    if evs == [] then false
    else
      var front, ev := evs[..|evs| - 1], evs[|evs| - 1];
      if !Of(ev, c) then Judged(k, front, c)
      else if ev.e.next == SynSent then
        Run(k, front).0.allowlist && ev.e.member && !(k.dropLoopback && ev.e.loopback)
      else if ev.e.next == Closed then false
      else Judged(k, front, c)
  }

  lemma {:induction false} SameBoot(k: Kernel, evs: seq<Event>)
    ensures Run(k, evs).0.dropLoopback == k.dropLoopback
    ensures k.allowlist ==> Run(k, evs).0.allowlist
  {
    if evs != [] {
      SameBoot(k, evs[..|evs| - 1]);
      StepKeepsBoot(Run(k, evs[..|evs| - 1]).0, evs[|evs| - 1]);
    }
  }

  lemma StepKeepsBoot(k: Kernel, ev: Event)
    ensures Step(k, ev).0.dropLoopback == k.dropLoopback
    ensures Step(k, ev).0.allowlist == (k.allowlist || ev.Flip?)
  {
  }

  /** What the maps remember of `c` is of a life judged in scope. */
  predicate Remembers(k: Kernel, c: Cookie) {
    c in k.tracked || (c in k.sockTs && k.sockTs[c].scoped)
  }

  /** The safety invariant of one socket: the maps remember it only within a life judged in scope. */
  predicate Sound(k: Kernel, c: Cookie, judged: bool, state: Option<TcpState>, loopback: Option<bool>) {
    && (Remembers(k, c) ==> judged)
    && (judged ==>
          && k.allowlist
          && state.Some? && state.value != Closed && state.value != Listen
          && loopback.Some? && !(k.dropLoopback && loopback.value))
  }

  lemma OthersKeepSound(k: Kernel, ev: Event, c: Cookie, judged: bool, state: Option<TcpState>, loopback: Option<bool>)
    requires Sound(k, c, judged, state, loopback) && !Of(ev, c) && (ev.UdpQuery? ==> ev.cookie != c)
    ensures Sound(Step(k, ev).0, c, judged, state, loopback)
  {
  }

  lemma ChangeKeepsSound(k: Kernel, evs: seq<Event>, e: SetState, judged: bool)
    requires LegalChange(evs, e)
    requires Sound(k, e.cookie, judged, StateOf(evs, e.cookie), LifeLoopback(evs, e.cookie))
    ensures var judged' := if e.next == SynSent then k.allowlist && e.member && !(k.dropLoopback && e.loopback)
                           else if e.next == Closed then false
                           else judged;
            var loopback' := if e.next == SynSent then Some(e.loopback)
                             else if e.next == Closed then None
                             else LifeLoopback(evs, e.cookie);
            Sound(Handle(k, e).0, e.cookie, judged', Some(e.next), loopback')
  {
    hide LifeLoopback, StateOf;
  }

  lemma {:induction false} AlwaysSound(drop: bool, evs: seq<Event>, tcp: iset<Cookie>, c: Cookie)
    requires LegalRun(evs, tcp) && c in tcp
    ensures Sound(Run(Boot(drop), evs).0, c, Judged(Boot(drop), evs, c), StateOf(evs, c), LifeLoopback(evs, c))
  {
    if evs != [] {
      hide Sound, Step, LegalChange;
      var front, ev := evs[..|evs| - 1], evs[|evs| - 1];
      AlwaysSound(drop, front, tcp, c);
      SameBoot(Boot(drop), front);
      var k := Run(Boot(drop), front).0;
      if Of(ev, c) {
        ChangeKeepsSound(k, front, ev.e, Judged(Boot(drop), front, c));
        ChangeIsHandled(k, ev);
      } else {
        OthersKeepSound(k, ev, c, Judged(Boot(drop), front, c), StateOf(front, c), LifeLoopback(front, c));
      }
    } else {
      StartsSound(drop, c);
    }
  }

  lemma ChangeIsHandled(k: Kernel, ev: Event)
    requires ev.Change?
    ensures Step(k, ev) == Handle(k, ev.e)
  {
  }

  lemma StartsSound(drop: bool, c: Cookie)
    ensures Sound(Boot(drop), c, false, None, None)
  {
  }

  /**
    Safety: once the switch to the allowlist is made, whatever is emitted, connect or close, is of a
    life of that very socket that was judged in scope, under the allowlist, when it sent its SYN: not of
    a life opened before the switch, out of scope, or missed; whatever entries the LRU maps lost.
   */
  lemma OnlyJudgedEmit(drop: bool, evs: seq<Event>, ev: Event, tcp: iset<Cookie>)
    requires LegalRun(evs + [ev], tcp) && Run(Boot(drop), evs).0.allowlist
    ensures var outs := Step(Run(Boot(drop), evs).0, ev).1;
            outs != [] ==> ev.Change? && Judged(Boot(drop), evs, ev.e.cookie)
    ensures forall out :: out in Step(Run(Boot(drop), evs).0, ev).1 ==> ev.Change? && out.cookie == ev.e.cookie
  {
    assert (evs + [ev])[..|evs|] == evs;
    if ev.Change? {
      AlwaysSound(drop, evs, tcp, ev.e.cookie);
      hide Run, Judged, StateOf, LifeLoopback, LegalRun, LegalChange;
    }
  }

  // ---------------------------------------------------------------------------------------
  // One life
  // ---------------------------------------------------------------------------------------

  function OutsOf(outs: seq<Out>, c: Cookie): seq<Out> {
    if outs == [] then []
    else OutsOf(outs[..|outs| - 1], c) + (if outs[|outs| - 1].cookie == c then [outs[|outs| - 1]] else [])
  }

  lemma {:induction false} OutsConcat(a: seq<Out>, b: seq<Out>, c: Cookie)
    ensures OutsOf(a + b, c) == OutsOf(a, c) + OutsOf(b, c)
  {
    if b == [] {
      assert a + b == a;
    } else {
      assert (a + b)[..|a + b| - 1] == a + b[..|b| - 1];
      OutsConcat(a, b[..|b| - 1], c);
    }
  }

  predicate Dropped(k: Kernel, e: SetState) { k.dropLoopback && e.loopback }

  /** An event in the middle of a life of `c`: no switch, no loss of its entries, neither end of it. */
  predicate Within(k: Kernel, ev: Event, c: Cookie) {
    match ev
    case Change(e) => e.cookie == c ==> e.next != SynSent && e.next != Closed && !Dropped(k, e) && e.now > 0
    case UdpQuery(d, _) => d != c
    case Flip => false
    case EvictTs(d) => d != c
    case EvictTracked(d) => d != c
  }

  predicate Ups(ev: Event, c: Cookie) { Of(ev, c) && ev.e.next == Established }

  /** When the life came up; 0 if it did not. */
  function UpAt(mid: seq<Event>, c: Cookie): nat {
    if mid == [] then 0
    else if Ups(mid[|mid| - 1], c) then mid[|mid| - 1].e.now
    else UpAt(mid[..|mid| - 1], c)
  }

  /** TCP enters ESTABLISHED at most once in a life. */
  predicate UpOnce(mid: seq<Event>, c: Cookie) {
    forall i, j :: 0 <= i < j < |mid| ==> !(Ups(mid[i], c) && Ups(mid[j], c))
  }

  /** What has been emitted of a life so far. */
  function SoFar(syn: SetState, up: nat): seq<Out> {
    if up == 0 then [] else [ConnectOut(syn.cookie, syn.pid, up, SatSub(up, syn.now), false)]
  }

  /** The probe holds the life that `syn` opened, up since `up` if at all. */
  predicate Holds(k: Kernel, syn: SetState, up: nat) {
    && syn.cookie in k.sockTs && k.sockTs[syn.cookie] == Track(syn.now, up, syn.pid, k.allowlist)
    && (k.allowlist ==> syn.cookie in k.tracked)
  }

  /** An event that is not the life's own tells nothing of it. */
  lemma OthersHold(k: Kernel, ev: Event, syn: SetState, up: nat)
    requires Holds(k, syn, up) && Within(k, ev, syn.cookie) && !Of(ev, syn.cookie)
    ensures var (k', outs) := Step(k, ev);
            && Holds(k', syn, up) && k'.allowlist == k.allowlist && k'.dropLoopback == k.dropLoopback
            && forall i :: 0 <= i < |outs| ==> outs[i].cookie != syn.cookie
  {
  }

  lemma OwnHolds(k: Kernel, e: SetState, syn: SetState, up: nat)
    requires Holds(k, syn, up) && Within(k, Change(e), syn.cookie) && e.cookie == syn.cookie && syn.now > 0
    ensures var (k', outs) := Handle(k, e);
            var up' := if e.next == Established then e.now else up;
            && Holds(k', syn, up') && k'.allowlist == k.allowlist && k'.dropLoopback == k.dropLoopback
            && outs == if e.next == Established then SoFar(syn, up') else []
  {
  }

  lemma WithinHolds(k: Kernel, ev: Event, syn: SetState, up: nat)
    requires Holds(k, syn, up) && Within(k, ev, syn.cookie) && syn.now > 0
    ensures var (k', outs) := Step(k, ev);
            var up' := if Ups(ev, syn.cookie) then ev.e.now else up;
            && Holds(k', syn, up') && k'.allowlist == k.allowlist && k'.dropLoopback == k.dropLoopback
            && OutsOf(outs, syn.cookie) == if Ups(ev, syn.cookie) then SoFar(syn, up') else []
  {
    hide Holds, Within, OutsOf, Handle;
    if Of(ev, syn.cookie) {
      OwnHolds(k, ev.e, syn, up);
      Tells(syn.cookie);
    } else {
      OthersHold(k, ev, syn, up);
      NoneOf(Step(k, ev).1, syn.cookie);
    }
  }

  lemma {:induction false} NoneOf(outs: seq<Out>, c: Cookie)
    requires forall i :: 0 <= i < |outs| ==> outs[i].cookie != c
    ensures OutsOf(outs, c) == []
  {
    if outs != [] {
      NoneOf(outs[..|outs| - 1], c);
    }
  }

  /** At most two records, each of its own cookie. */
  lemma Tells(c: Cookie)
    ensures OutsOf([], c) == []
    ensures forall o: Out :: OutsOf([o], c) == if o.cookie == c then [o] else []
    ensures forall o: Out, p: Out :: OutsOf([o, p], c) == OutsOf([o], c) + OutsOf([p], c)
  {
    forall o: Out ensures OutsOf([o], c) == if o.cookie == c then [o] else [] {
      assert [o][..0] == [];
    }
    forall o: Out, p: Out ensures OutsOf([o, p], c) == OutsOf([o], c) + OutsOf([p], c) {
      assert [o, p] == [o] + [p];
      OutsConcat([o], [p], c);
    }
  }

  lemma {:induction false} MiddleHolds(k: Kernel, mid: seq<Event>, syn: SetState)
    requires Holds(k, syn, 0) && syn.now > 0 && UpOnce(mid, syn.cookie)
    requires forall i :: 0 <= i < |mid| ==> Within(k, mid[i], syn.cookie)
    ensures var (k', outs) := Run(k, mid);
            && Holds(k', syn, UpAt(mid, syn.cookie)) && k'.allowlist == k.allowlist && k'.dropLoopback == k.dropLoopback
            && OutsOf(outs, syn.cookie) == SoFar(syn, UpAt(mid, syn.cookie))
  {
    hide Holds, Step, Within;
    var c := syn.cookie;
    if mid == [] {
      Tells(c);
    } else {
      var front, ev := mid[..|mid| - 1], mid[|mid| - 1];
      MiddleHolds(k, front, syn);
      NotUpTwice(mid, c);
      SameWithin(k, Run(k, front).0, ev, c);
      WithinHolds(Run(k, front).0, ev, syn, UpAt(front, c));
      OutsConcat(Run(k, front).1, Step(Run(k, front).0, ev).1, c);
    }
  }

  lemma {:induction false} NeverUps(mid: seq<Event>, c: Cookie)
    requires forall i :: 0 <= i < |mid| ==> !Ups(mid[i], c)
    ensures UpAt(mid, c) == 0
  {
    if mid != [] {
      NeverUps(mid[..|mid| - 1], c);
    }
  }

  lemma NotUpTwice(mid: seq<Event>, c: Cookie)
    requires mid != [] && UpOnce(mid, c)
    ensures UpOnce(mid[..|mid| - 1], c)
    ensures Ups(mid[|mid| - 1], c) ==> UpAt(mid[..|mid| - 1], c) == 0
  {
    hide Ups;
    var front := mid[..|mid| - 1];
    if Ups(mid[|mid| - 1], c) {
      forall i | 0 <= i < |front| ensures !Ups(front[i], c) {
        assert front[i] == mid[i];
      }
      NeverUps(front, c);
    }
  }

  /**
    Liveness: with no entry of its own lost and no switch in between, a life opened in scope emits
    one connect and then one close. The connect is a success, timed from the SYN, if the life came up;
    a failure, stamped at the SYN, if it closed straight out of SYN_SENT. (A simultaneous open that
    never comes up emits its close alone.)
   */
  lemma OneConnectOneClose(k: Kernel, syn: SetState, mid: seq<Event>, end: SetState)
    requires syn.next == SynSent && InScope(k, syn.member) && !Dropped(k, syn) && syn.now > 0
    requires UpOnce(mid, syn.cookie) && forall i :: 0 <= i < |mid| ==> Within(k, mid[i], syn.cookie)
    requires end.cookie == syn.cookie && end.next == Closed && end.prior != Listen && !Dropped(k, end)
    requires UpAt(mid, syn.cookie) != 0 ==> end.prior != SynSent
    ensures var up := UpAt(mid, syn.cookie);
            var close := CloseOut(syn.cookie, syn.pid, SatSub(end.now, if up != 0 then up else syn.now));
            OutsOf(Run(k, [Change(syn)] + mid + [Change(end)]).1, syn.cookie)
            == if up != 0 then [ConnectOut(syn.cookie, syn.pid, up, SatSub(up, syn.now), false), close]
               else if end.prior == SynSent then [ConnectOut(syn.cookie, syn.pid, syn.now, 0, true), close]
               else [close]
  {
    hide Run, OutsOf, Handle, UpAt, Within, UpOnce, Holds;
    var c := syn.cookie;
    var k1 := Handle(k, syn).0;
    LifeStarts(k, syn);
    forall i | 0 <= i < |mid| ensures Within(k1, mid[i], c) {
      SameWithin(k, k1, mid[i], c);
    }
    MiddleHolds(k1, mid, syn);
    var (k2, outs) := Run(k1, mid);
    var last := Step(k2, Change(end)).1;
    WholeLife(k, Change(syn), mid, Change(end));
    OutsConcat(outs, last, c);
    LifeEnds(k2, syn, end, UpAt(mid, c));
  }

  lemma SameWithin(k: Kernel, k': Kernel, ev: Event, c: Cookie)
    requires k.dropLoopback == k'.dropLoopback
    ensures Within(k, ev, c) <==> Within(k', ev, c)
  {
  }

  lemma LifeStarts(k: Kernel, syn: SetState)
    requires syn.next == SynSent && InScope(k, syn.member) && !Dropped(k, syn)
    ensures Holds(Handle(k, syn).0, syn, 0) && Step(k, Change(syn)) == (Handle(k, syn).0, [])
    ensures Handle(k, syn).0.dropLoopback == k.dropLoopback
  {
  }

  lemma WholeLife(k: Kernel, first: Event, mid: seq<Event>, last: Event)
    requires Step(k, first).1 == []
    ensures var k1 := Step(k, first).0;
            Run(k, [first] + mid + [last]).1 == Run(k1, mid).1 + Step(Run(k1, mid).0, last).1
  {
    hide Step, Run;
    RunOne(k, first);
    RunSplits(k, [first], mid);
    RunSplits(k, [first] + mid, [last]);
    RunOne(Run(k, [first] + mid).0, last);
    assert [] + Run(Step(k, first).0, mid).1 == Run(Step(k, first).0, mid).1;
  }

  lemma LifeEnds(k: Kernel, syn: SetState, end: SetState, up: nat)
    requires Holds(k, syn, up) && syn.now > 0 && (up != 0 ==> end.prior != SynSent)
    requires end.cookie == syn.cookie && end.next == Closed && end.prior != Listen && !Dropped(k, end)
    ensures OutsOf(Step(k, Change(end)).1, syn.cookie)
         == (if up == 0 && end.prior == SynSent then [ConnectOut(syn.cookie, syn.pid, syn.now, 0, true)] else [])
            + [CloseOut(syn.cookie, syn.pid, SatSub(end.now, if up != 0 then up else syn.now))]
  {
    Tells(syn.cookie);
  }

  lemma RunOne(k: Kernel, ev: Event)
    ensures Run(k, [ev]).0 == Step(k, ev).0 && Run(k, [ev]).1 == Step(k, ev).1
  {
    hide Step;
    assert [ev][..0] == [];
    assert [] + Step(k, ev).1 == Step(k, ev).1;
  }

  lemma {:induction false} RunSplits(k: Kernel, a: seq<Event>, b: seq<Event>)
    ensures Run(k, a + b).0 == Run(Run(k, a).0, b).0
    ensures Run(k, a + b).1 == Run(k, a).1 + Run(Run(k, a).0, b).1
  {
    hide Step;
    if b == [] {
      assert a + b == a;
    } else {
      assert (a + b)[..|a + b| - 1] == a + b[..|b| - 1];
      RunSplits(k, a, b[..|b| - 1]);
    }
  }

  // ---------------------------------------------------------------------------------------
  // A life whose SYN went unseen, and UDP sockets
  // ---------------------------------------------------------------------------------------

  /** The probe holds a life it first saw come up, at `up`: no process, no SYN. */
  predicate HoldsLate(k: Kernel, c: Cookie, up: nat) {
    c in k.sockTs && k.sockTs[c] == Track(0, up, 0, false) && (k.allowlist ==> c in k.tracked)
  }

  lemma LateStep(k: Kernel, ev: Event, c: Cookie, up: nat)
    requires HoldsLate(k, c, up) && Within(k, ev, c) && !Ups(ev, c)
    ensures var (k', outs) := Step(k, ev);
            && HoldsLate(k', c, up) && k'.allowlist == k.allowlist && k'.dropLoopback == k.dropLoopback
            && forall i :: 0 <= i < |outs| ==> outs[i].cookie != c
  {
  }

  lemma {:induction false} LateMiddle(k: Kernel, mid: seq<Event>, c: Cookie, up: nat)
    requires HoldsLate(k, c, up) && forall i :: 0 <= i < |mid| ==> Within(k, mid[i], c) && !Ups(mid[i], c)
    ensures var (k', outs) := Run(k, mid);
            && HoldsLate(k', c, up) && k'.allowlist == k.allowlist && k'.dropLoopback == k.dropLoopback
            && OutsOf(outs, c) == []
  {
    hide HoldsLate, Step, Within, OutsOf;
    if mid == [] {
      Tells(c);
    } else {
      var front, ev := mid[..|mid| - 1], mid[|mid| - 1];
      LateMiddle(k, front, c, up);
      var k1 := Run(k, front).0;
      SameWithin(k, k1, ev, c);
      LateStep(k1, ev, c, up);
      NoneOf(Step(k1, ev).1, c);
      OutsConcat(Run(k, front).1, Step(k1, ev).1, c);
      assert [] + OutsOf(Step(k1, ev).1, c) == [];
    }
  }

  /**
    A life accepted from a listener, or one whose SYN was before the probes: in scope and with no entry lost, it emits one
    connect, of no process and no latency, and one close timed from when it came up.
   */
  lemma LateLife(k: Kernel, up: SetState, mid: seq<Event>, end: SetState)
    requires up.next == Established && SockInScope(k, up.cookie) && !Dropped(k, up) && up.now > 0 && up.cookie !in k.sockTs
    requires forall i :: 0 <= i < |mid| ==> Within(k, mid[i], up.cookie) && !Ups(mid[i], up.cookie)
    requires end.cookie == up.cookie && end.next == Closed && end.prior != Listen && !Dropped(k, end)
    ensures var (k1, first) := Step(k, Change(up));
            var (k2, quiet) := Run(k1, mid);
            && first == [ConnectOut(up.cookie, 0, up.now, 0, false)] && OutsOf(quiet, up.cookie) == []
            && Step(k2, Change(end)).1 == [CloseOut(up.cookie, 0, if end.now > up.now then end.now - up.now else 0)]
  {
    hide Run, OutsOf, Within;
    var k1 := Step(k, Change(up)).0;
    forall i | 0 <= i < |mid| ensures Within(k1, mid[i], up.cookie) {
      SameWithin(k, k1, mid[i], up.cookie);
    }
    LateMiddle(k1, mid, up.cookie, up.now);
  }

  /** A close with nothing known of the life is reported bare, if its socket is in scope, and otherwise not at all. */
  lemma UnknownClose(k: Kernel, end: SetState)
    requires end.next == Closed && end.prior != Listen && !Dropped(k, end) && end.cookie !in k.sockTs
    ensures Step(k, Change(end)).1 == if !k.allowlist || end.cookie in k.tracked then [CloseOut(end.cookie, 0, 0)] else []
  {
  }

  /** The last sender on the UDP socket `c` was on the allowlist, and its mark has not been evicted. */
  predicate LastSenderIn(evs: seq<Event>, c: Cookie) {
    evs != [] &&
    var front, ev := evs[..|evs| - 1], evs[|evs| - 1];
    if ev.UdpQuery? && ev.cookie == c then ev.member && Flip in front
    else if ev == EvictTracked(c) then false
    else LastSenderIn(front, c)
  }

  /** Over every run, a UDP socket is marked by its last sender alone: a shared resolver socket follows whoever sends. */
  lemma {:induction false} UdpMarked(drop: bool, evs: seq<Event>, c: Cookie)
    requires forall i :: 0 <= i < |evs| ==> !Of(evs[i], c)
    ensures c in Run(Boot(drop), evs).0.tracked <==> LastSenderIn(evs, c)
  {
    if evs != [] {
      var front, ev := evs[..|evs| - 1], evs[|evs| - 1];
      UdpMarked(drop, front, c);
      LeftOverIs(drop, front, c);
      hide Run;
      assert evs[|evs| - 1] == ev;
      UdpStep(Run(Boot(drop), front).0, ev, c);
      LastStep(Boot(drop), front, ev);
      if LastSenderIn(front, c) {
        SenderAfterFlip(front, c);
      }
      assert evs == front + [ev];
    }
  }

  lemma {:induction false} SenderAfterFlip(evs: seq<Event>, c: Cookie)
    requires LastSenderIn(evs, c)
    ensures Flip in evs
  {
    if !(evs[|evs| - 1].UdpQuery? && evs[|evs| - 1].cookie == c) {
      SenderAfterFlip(evs[..|evs| - 1], c);
    }
  }

  lemma UdpStep(k: Kernel, ev: Event, c: Cookie)
    requires !Of(ev, c)
    ensures c in Step(k, ev).0.tracked <==>
            if ev.UdpQuery? && ev.cookie == c then (if k.allowlist then ev.member else c in k.tracked)
            else ev != EvictTracked(c) && c in k.tracked
  {
  }

  lemma LastStep(k: Kernel, front: seq<Event>, ev: Event)
    ensures Run(k, front + [ev]).0 == Step(Run(k, front).0, ev).0
  {
    assert (front + [ev])[..|front|] == front;
  }

  // ---------------------------------------------------------------------------------------
  // A CLOSE that went unseen
  // ---------------------------------------------------------------------------------------

  /** An event that neither opens nor closes a life of `c`, nor marks its address; it may well evict it. */
  predicate Between(ev: Event, c: Cookie) {
    && (Of(ev, c) ==> ev.e.next != SynSent && ev.e.next != Closed)
    && (ev.UdpQuery? ==> ev.cookie != c)
  }

  /** An entry left over from a life judged in scope. */
  predicate LeftOver(k: Kernel, c: Cookie) { c in k.sockTs && k.sockTs[c].scoped }

  /** What an out-of-scope life on `c` meets: no mark, and the old entry, if any, as it was. */
  lemma {:induction false} BetweenKeeps(k: Kernel, mid: seq<Event>, c: Cookie)
    requires k.allowlist && c !in k.tracked && forall i :: 0 <= i < |mid| ==> Between(mid[i], c)
    ensures var (k', outs) := Run(k, mid);
            && k'.allowlist && k'.dropLoopback == k.dropLoopback && c !in k'.tracked
            && (LeftOver(k', c) <==> LeftOver(k, c) && EvictTs(c) !in mid)
            && OutsOf(outs, c) == []
  {
    if mid != [] {
      hide Step, Between, OutsOf, LeftOver;
      var front, ev := mid[..|mid| - 1], mid[|mid| - 1];
      BetweenKeeps(k, front, c);
      var k1 := Run(k, front).0;
      BetweenStep(k1, ev, c);
      NoneOf(Step(k1, ev).1, c);
      OutsConcat(Run(k, front).1, Step(k1, ev).1, c);
      assert mid == front + [ev];
    } else {
      Tells(c);
    }
  }

  lemma BetweenStep(k: Kernel, ev: Event, c: Cookie)
    requires k.allowlist && c !in k.tracked && Between(ev, c)
    ensures var (k', outs) := Step(k, ev);
            && k'.allowlist && k'.dropLoopback == k.dropLoopback && c !in k'.tracked
            && (LeftOver(k', c) <==> LeftOver(k, c) && ev != EvictTs(c))
            && forall i :: 0 <= i < |outs| ==> outs[i].cookie != c
  {
  }

  /** A life out of scope from its SYN has something emitted exactly when an old entry outlasts it. */
  lemma StrayLife(k: Kernel, syn: SetState, mid: seq<Event>, end: SetState)
    requires k.allowlist && syn.next == SynSent && !syn.member && !Dropped(k, syn)
    requires forall i :: 0 <= i < |mid| ==> Between(mid[i], syn.cookie)
    requires end.cookie == syn.cookie && end.next == Closed && end.prior != Listen && !Dropped(k, end)
    ensures OutsOf(Run(k, [Change(syn)] + mid + [Change(end)]).1, syn.cookie) != []
       <==> LeftOver(k, syn.cookie) && EvictTs(syn.cookie) !in mid
  {
    hide Run, OutsOf, Handle, Between;
    var c := syn.cookie;
    var k1 := Handle(k, syn).0;
    OutOfScopeSyn(k, syn);
    BetweenKeeps(k1, mid, c);
    var (k2, outs) := Run(k1, mid);
    var last := Step(k2, Change(end)).1;
    WholeLife(k, Change(syn), mid, Change(end));
    OutsConcat(outs, last, c);
    LeftOverEnds(k2, end);
    assert [] + OutsOf(last, c) == OutsOf(last, c);
  }

  lemma OutOfScopeSyn(k: Kernel, syn: SetState)
    requires k.allowlist && syn.next == SynSent && !syn.member && !Dropped(k, syn)
    ensures Step(k, Change(syn)) == (Handle(k, syn).0, [])
    ensures var k1 := Handle(k, syn).0;
            && k1.allowlist && k1.dropLoopback == k.dropLoopback && syn.cookie !in k1.tracked
            && (LeftOver(k1, syn.cookie) <==> LeftOver(k, syn.cookie))
  {
  }

  lemma LeftOverEnds(k: Kernel, end: SetState)
    requires k.allowlist && end.cookie !in k.tracked && end.next == Closed && end.prior != Listen && !Dropped(k, end)
    ensures OutsOf(Step(k, Change(end)).1, end.cookie) != [] <==> LeftOver(k, end.cookie)
  {
    Tells(end.cookie);
  }

  /**
    The last word on `c` in the history is a SYN judged in scope, under the allowlist: no CLOSE of its life, no
    eviction.
   */
  predicate NeverEnded(drop: bool, evs: seq<Event>, c: Cookie) {
    evs != [] &&
    var front, ev := evs[..|evs| - 1], evs[|evs| - 1];
    if ev == EvictTs(c) then false
    else if !Of(ev, c) || (drop && ev.e.loopback) then NeverEnded(drop, front, c)
    else if ev.e.next == SynSent && (ev.e.member || Flip !in front) then Flip in front
    else if ev.e.next == Closed && ev.e.prior != Listen then false
    else NeverEnded(drop, front, c)
  }

  lemma LeftOverStep(k: Kernel, ev: Event, c: Cookie)
    ensures LeftOver(Step(k, ev).0, c)
       <==> if ev == EvictTs(c) then false
            else if !Of(ev, c) || Dropped(k, ev.e) then LeftOver(k, c)
            else if ev.e.next == SynSent && (ev.e.member || !k.allowlist) then k.allowlist
            else if ev.e.next == Closed && ev.e.prior != Listen then false
            else LeftOver(k, c)
    ensures Step(k, ev).0.allowlist == (k.allowlist || ev == Flip)
  {
  }

  /** When an entry is left over, from the history alone. */
  lemma {:induction false} LeftOverIs(drop: bool, evs: seq<Event>, c: Cookie)
    ensures LeftOver(Run(Boot(drop), evs).0, c) <==> NeverEnded(drop, evs, c)
    ensures Run(Boot(drop), evs).0.allowlist <==> Flip in evs
  {
    if evs != [] {
      hide Step, LeftOver;
      var front, ev := evs[..|evs| - 1], evs[|evs| - 1];
      LeftOverIs(drop, front, c);
      SameBoot(Boot(drop), front);
      LeftOverStep(Run(Boot(drop), front).0, ev, c);
      assert evs == front + [ev];
    }
  }

  /**
    The guarantee needs the CLOSE. After any run at all, a life out of scope from its SYN has something
    emitted exactly when the address was last heard of in a life judged in scope whose CLOSE went unseen,
    and no eviction took its entry then or since.
   */
  lemma UnseenCloseEmits(drop: bool, before: seq<Event>, syn: SetState, mid: seq<Event>, end: SetState)
    requires Flip in before && syn.next == SynSent && !syn.member && !(drop && syn.loopback)
    requires forall i :: 0 <= i < |mid| ==> Between(mid[i], syn.cookie)
    requires end.cookie == syn.cookie && end.next == Closed && end.prior != Listen && !(drop && end.loopback)
    ensures OutsOf(Run(Run(Boot(drop), before).0, [Change(syn)] + mid + [Change(end)]).1, syn.cookie) != []
       <==> NeverEnded(drop, before, syn.cookie) && EvictTs(syn.cookie) !in mid
  {
    hide Run, OutsOf, LeftOver, Between;
    LeftOverIs(drop, before, syn.cookie);
    SameBoot(Boot(drop), before);
    StrayLife(Run(Boot(drop), before).0, syn, mid, end);
  }

  /** A run that gets there: the switch, a life in scope, its CLOSE unseen, and an out-of-scope life after it. */
  lemma UnseenCloseRun(drop: bool, c: Cookie, t: nat, pid: nat)
    requires t > 0
    ensures var syn := SetState(c, Closed, SynSent, t, pid, true, false);
            var stray := SetState(c, Closed, SynSent, t + 1, pid + 1, false, false);
            var end := SetState(c, SynSent, Closed, t + 2, pid + 1, false, false);
            Run(Boot(drop), [Flip, Change(syn), Change(stray), Change(end)]).1
            == [ConnectOut(c, pid, t, 0, true), CloseOut(c, pid, 2)]
  {
    var syn := SetState(c, Closed, SynSent, t, pid, true, false);
    var stray := SetState(c, Closed, SynSent, t + 1, pid + 1, false, false);
    var end := SetState(c, SynSent, Closed, t + 2, pid + 1, false, false);
    var evs := [Flip, Change(syn), Change(stray), Change(end)];
    assert evs == [Flip] + [Change(syn)] + [Change(stray)] + [Change(end)];
    var k1 := Boot(drop).(allowlist := true);
    var k2 := OnSynSent(k1, syn);
    var k3 := Unmark(k2, c);
    RunOne(Boot(drop), Flip);
    RunOne(k1, Change(syn));
    RunOne(k2, Change(stray));
    RunOne(k3, Change(end));
    RunSplits(Boot(drop), [Flip], [Change(syn)]);
    RunSplits(Boot(drop), [Flip] + [Change(syn)], [Change(stray)]);
    RunSplits(Boot(drop), [Flip] + [Change(syn)] + [Change(stray)], [Change(end)]);
    hide Run;
  }
}
