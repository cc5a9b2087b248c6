/**
  Pairing a descriptor with the socket it connects. The connect() syscall entry knows the
  descriptor, the TCP connect inside it knows the socket, and a stash keyed by thread carries the one to
  the other. Some TCP connects never pass the syscall entry; none may pick up another call's stash.
 */
module ConnectPairing {
  import opened Wrappers

  datatype Thread = Thread(tgid: nat, tid: nat)

  datatype Stash = Stash(ts: nat, fd: nat)

  datatype ConnId = ConnId(ts: nat, tgid: nat, fd: nat, cookie: nat)

  const BACKSTOP_NS: nat := 10 * 1_000_000_000
  const MAX_NS: nat := 50 * 1_000_000

  /** The stash map, whether the exit probe has been seen to run, and the losses counted. */
  datatype Kernel = Kernel(stash: map<Thread, Stash>, exitLive: bool, drops: nat)

  function Enter(k: Kernel, t: Thread, fd: nat, now: nat, wanted: bool): Kernel {
    if wanted then k.(stash := k.stash[t := Stash(now, fd)]) else k
  }

  function Exit(k: Kernel, t: Thread): Kernel {
    k.(stash := k.stash - {t}, exitLive := true)
  }

  function MaxAge(k: Kernel): nat { if k.exitLive then BACKSTOP_NS else MAX_NS }

  predicate Fresh(k: Kernel, st: Stash, now: nat) {
    st.ts <= now && now - st.ts <= MaxAge(k)
  }

  /** A TCP connect of `cookie` on thread `t`; `room` says the ring can take an event. */
  function TcpConnect(k: Kernel, t: Thread, cookie: nat, now: nat, room: bool): (Kernel, Option<ConnId>) {
    if t !in k.stash then (k, None)
    else
      var st, rest := k.stash[t], k.(stash := k.stash - {t});
      if Fresh(k, st, now) && room then (rest, Some(ConnId(now, t.tgid, st.fd, cookie)))
      else (rest.(drops := k.drops + 1), None)
  }

  class Probe {
    const capture: bool
    var connectFd: map<Thread, Stash>
    var exitLive: bool
    var drops: nat

    function Maps(): Kernel
      reads this
    {
      Kernel(connectFd, exitLive, drops)
    }

    constructor (capture: bool)
      ensures Maps() == Kernel(map[], false, 0) && this.capture == capture
    {
      this.capture := capture;
      connectFd, exitLive, drops := map[], false, 0;
    }

    method HandleConnectEnter(t: Thread, fd: nat, now: nat, inScope: bool)
      modifies this
      ensures Maps() == Enter(old(Maps()), t, fd, now, capture && inScope)
    {
      if !capture { return; }
      if !inScope { return; }
      connectFd := connectFd[t := Stash(now, fd)];
    }

    method HandleConnectExit(t: Thread)
      modifies this
      ensures Maps() == Exit(old(Maps()), t)
    {
      exitLive := true;
      connectFd := connectFd - {t};
    }

    method EmitConnId(t: Thread, cookie: nat, now: nat, room: bool) returns (out: Option<ConnId>)
      modifies this
      ensures (Maps(), out) == TcpConnect(old(Maps()), t, cookie, now, room)
    {
      if t !in connectFd { return None; }
      var st := connectFd[t];
      var maxAge := if exitLive then BACKSTOP_NS else MAX_NS;
      if now < st.ts || now - st.ts > maxAge {
        drops := drops + 1;
        connectFd := connectFd - {t};
        return None;
      }
      if !room {
        drops := drops + 1;
        connectFd := connectFd - {t};
        return None;
      }
      out := Some(ConnId(now, t.tgid, st.fd, cookie));
      connectFd := connectFd - {t};
    }
  }

  // ---------------------------------------------------------------------------------------
  // Runs
  // ---------------------------------------------------------------------------------------

  /**
    What happens on the host: connect() calls of any family begin and end, TCP connects happen inside
    one or outside any, and the LRU map loses entries.
   */
  datatype Event =
    | Entered(t: Thread, fd: nat, now: nat, wanted: bool)
    | Exited(t: Thread)
    | TcpConnects(t: Thread, cookie: nat, now: nat, room: bool)
    | Evicted(t: Thread)

  function Step(k: Kernel, ev: Event): (Kernel, Option<ConnId>) {
    match ev
    case Entered(t, fd, now, wanted) => (Enter(k, t, fd, now, wanted), None)
    case Exited(t) => (Exit(k, t), None)
    case TcpConnects(t, cookie, now, room) => TcpConnect(k, t, cookie, now, room)
    case Evicted(t) => (k.(stash := k.stash - {t}), None)
  }

  function After(evs: seq<Event>): Kernel {
    if evs == [] then Kernel(map[], false, 0) else Step(After(evs[..|evs| - 1]), evs[|evs| - 1]).0
  }

  /** The descriptor of the connect() in flight on `t`, of the calls that began while the probes ran. */
  function InFlight(evs: seq<Event>, t: Thread): Option<nat> {
    if evs == [] then None
    else
      var ev := evs[|evs| - 1];
      if ev.Entered? && ev.t == t then Some(ev.fd)
      else if ev.Exited? && ev.t == t then None
      else InFlight(evs[..|evs| - 1], t)
  }

  /** A thread is in one call at a time; a call ends before the next begins. */
  predicate LegalRun(evs: seq<Event>) {
    evs == [] ||
    (LegalRun(evs[..|evs| - 1])
     && (evs[|evs| - 1].Entered? ==> InFlight(evs[..|evs| - 1], evs[|evs| - 1].t).None?))
  }

  /** The conn_ids emitted for `t` since its connect() in flight began. */
  function Emitted(evs: seq<Event>, t: Thread): nat {
    if evs == [] then 0
    else
      var front, ev := evs[..|evs| - 1], evs[|evs| - 1];
      if ev.Entered? && ev.t == t then 0
      else Emitted(front, t) + (if ev.TcpConnects? && ev.t == t && Step(After(front), ev).1.Some? then 1 else 0)
  }

  /** A stash belongs to the call in flight on its thread, which has not been announced yet. */
  lemma {:induction false} StashIsInFlight(evs: seq<Event>, t: Thread)
    requires LegalRun(evs) && t in After(evs).stash
    ensures InFlight(evs, t) == Some(After(evs).stash[t].fd)
    ensures Emitted(evs, t) == 0
  {
    if evs != [] {
      var front, ev := evs[..|evs| - 1], evs[|evs| - 1];
      if !(ev.Entered? && ev.t == t) || !ev.wanted {
        StashIsInFlight(front, t);
      }
    }
  }

  /**
    Every conn_id carries the descriptor of the connect() in flight on its thread: a connect that
    bypassed the syscall entry is announced with nobody's descriptor, whatever calls came before it.
   */
  lemma ConnIdIsInFlight(evs: seq<Event>, ev: Event)
    requires LegalRun(evs + [ev]) && Step(After(evs), ev).1.Some?
    ensures ev.TcpConnects?
    ensures var id := Step(After(evs), ev).1.value;
            InFlight(evs, ev.t) == Some(id.fd) && id.tgid == ev.t.tgid && id.cookie == ev.cookie
  {
    assert (evs + [ev])[..|evs|] == evs;
    StashIsInFlight(evs, ev.t);
  }

  /** One connect() is announced at most once. */
  lemma {:induction false} AnnouncedOnce(evs: seq<Event>, t: Thread)
    requires LegalRun(evs)
    ensures Emitted(evs, t) <= 1
    ensures Emitted(evs, t) == 1 ==> t !in After(evs).stash
  {
    if evs != [] {
      var front, ev := evs[..|evs| - 1], evs[|evs| - 1];
      AnnouncedOnce(front, t);
      if ev.TcpConnects? && ev.t == t && t in After(front).stash {
        StashIsInFlight(front, t);
      }
      if t in After(evs).stash {
        StashIsInFlight(evs, t);
      }
    }
  }

  /** Nothing of `t` but time passes in `evs`: no call of its begins, ends or connects, and its stash is not lost. */
  predicate Quiet(evs: seq<Event>, t: Thread) {
    forall i :: 0 <= i < |evs| ==> evs[i].t != t
  }

  lemma {:induction false} QuietKeeps(before: seq<Event>, evs: seq<Event>, t: Thread)
    requires Quiet(evs, t) && t in After(before).stash
    ensures t in After(before + evs).stash && After(before + evs).stash[t] == After(before).stash[t]
    ensures After(before).exitLive ==> After(before + evs).exitLive
  {
    if evs == [] {
      assert before + evs == before;
    } else {
      assert (before + evs)[..|before + evs| - 1] == before + evs[..|evs| - 1];
      QuietKeeps(before, evs[..|evs| - 1], t);
      assert evs[|evs| - 1].t != t;
    }
  }

  /** Some connect() has been seen to end: its exit probe is there and runs. */
  predicate ExitSeen(evs: seq<Event>) { exists i :: 0 <= i < |evs| && evs[i].Exited? }

  lemma {:induction false} ExitIsLive(evs: seq<Event>)
    ensures After(evs).exitLive <==> ExitSeen(evs)
  {
    if evs != [] {
      var front, ev := evs[..|evs| - 1], evs[|evs| - 1];
      ExitIsLive(front);
      if ExitSeen(evs) && !ev.Exited? {
        var i :| 0 <= i < |evs| && evs[i].Exited?;
        assert front[i].Exited?;
      }
    }
  }

  /**
    A wanted connect() whose stash survives until its TCP connect is announced with its own descriptor
    and socket, if it got there in time and the ring had room; else the loss is counted. In time is within 10 s
    where some call has been seen to end, for then every call's end clears its stash; within 50 ms where none has.
   */
  lemma ConnectAnnounced(before: seq<Event>, call: Event, mid: seq<Event>, tcp: Event)
    requires call.Entered? && call.wanted && tcp.TcpConnects? && tcp.t == call.t && Quiet(mid, call.t)
    ensures var evs := before + [call] + mid;
            var k, (k', out) := After(evs), Step(After(evs), tcp);
            if call.now <= tcp.now <= call.now + (if ExitSeen(evs) then 10_000_000_000 else 50_000_000) && tcp.room then
              out == Some(ConnId(tcp.now, call.t.tgid, call.fd, tcp.cookie)) && k'.drops == k.drops
            else out == None && k'.drops == k.drops + 1
  {
    assert (before + [call])[..|before|] == before;
    QuietKeeps(before + [call], mid, call.t);
    ExitIsLive(before + [call] + mid);
  }
}
