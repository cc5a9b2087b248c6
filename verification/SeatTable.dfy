/**
  The allowlist of processes and why each is on it. A seat given by name is withdrawn when the process
  execs away from the name; a seat given explicitly is meant to outlive any exec. The kernel copies a
  parent's seat to a forked child, userspace revises it at each exec, and a timer reaps and rescans.
 */
module SeatTable {
  import opened Wrappers

  type Pid = nat

  /** Admitted by an identity an exec cannot disprove, or by the name of the image. */
  datatype Tag = Explicit | ByName

  /** `pids` and `cgroups` as given; what `apps` and `exes` match is an input, process by process. */
  datatype Spec = Spec(pids: seq<Pid>, cgroups: seq<nat>)

  datatype Admission = Admit(tag: Tag) | Revoke | Leave

  const RESCAN_EVERY: nat := 6

  /** What one exec does to the seat its process holds. */
  function AdmissionFor(spec: Spec, pid: Pid, cgroup: nat, inScope: bool, current: Option<Tag>): Admission {
    if inScope then Admit(if pid in spec.pids || cgroup in spec.cgroups then Explicit else ByName)
    else if current == Some(ByName) then Revoke
    else Leave
  }

  type Seats = map<Pid, Tag>

  /** An insert: a key already there is overwritten, a new one needs room. */
  function Insert(seats: Seats, pid: Pid, tag: Tag, room: bool): Seats {
    if pid in seats || room then seats[pid := tag] else seats
  }

  function OnExec(spec: Spec, seats: Seats, pid: Pid, cgroup: nat, inScope: bool, room: bool): Seats {
    match AdmissionFor(spec, pid, cgroup, inScope, Get(seats, pid))
    case Admit(tag) => Insert(seats, pid, tag, room)
    case Revoke => seats - {pid}
    case Leave => seats
  }

  function OnFork(seats: Seats, parent: Pid, child: Pid, room: bool): Seats {
    if parent in seats then Insert(seats, child, seats[parent], room) else seats
  }

  /** Seats for the listed pids, then for every process whose image matched the scan. */
  function Engage(spec: Spec, scanned: seq<Pid>, room: set<Pid>): Seats {
    NameAll(Listed(spec.pids), scanned, room)
  }

  function Listed(pids: seq<Pid>): Seats { map p | p in pids :: Explicit }

  lemma ListedNext(pids: seq<Pid>, i: nat)
    requires i < |pids|
    ensures Listed(pids[..i + 1]) == Listed(pids[..i])[pids[i] := Explicit]
  {
    assert pids[..i + 1] == pids[..i] + [pids[i]];
  }

  function NameAll(seats: Seats, scanned: seq<Pid>, room: set<Pid>): Seats {
    if scanned == [] then seats
    else
      var last := scanned[|scanned| - 1];
      Insert(NameAll(seats, scanned[..|scanned| - 1], room), last, ByName, last in room)
  }

  /** A rescan seats only processes without a seat. */
  function Rescan(seats: Seats, scanned: seq<Pid>, room: set<Pid>): Seats {
    if scanned == [] then seats
    else
      var before := Rescan(seats, scanned[..|scanned| - 1], room);
      var last := scanned[|scanned| - 1];
      if last in before then before else Insert(before, last, ByName, last in room)
  }

  function Reap(seats: Seats, alive: set<Pid>): Seats {
    map p | p in seats && p in alive :: seats[p]
  }

  /** One tick of the timer: the table and the count of ticks since the last rescan. */
  function Tick(seats: Seats, since: nat, alive: set<Pid>, scanned: seq<Pid>, room: set<Pid>): (Seats, nat) {
    if since + 1 < RESCAN_EVERY then (Reap(seats, alive), since + 1)
    else (Rescan(Reap(seats, alive), scanned, room), 0)
  }

  class Filter {
    const spec: Spec
    var pids: Seats
    var sinceRescan: nat

    /** `engage_filter`: written before the mode is switched, so no event sees a half-filled table. */
    constructor (spec: Spec, scanned: seq<Pid>, room: set<Pid>)
      ensures this.spec == spec && sinceRescan == 0
      ensures pids == Engage(spec, scanned, room)
    {
      this.spec := spec;
      sinceRescan := 0;
      pids := map[];
      new;
      for i := 0 to |spec.pids|
        invariant pids == Listed(spec.pids[..i])
        invariant this.spec == spec && sinceRescan == 0
      {
        ListedNext(spec.pids, i);
        pids := pids[spec.pids[i] := Explicit];
      }
      assert spec.pids[..|spec.pids|] == spec.pids;
      ghost var listed := pids;
      for i := 0 to |scanned|
        invariant pids == NameAll(listed, scanned[..i], room)
        invariant this.spec == spec && sinceRescan == 0
      {
        assert scanned[..i + 1][..i] == scanned[..i];
        if scanned[i] in pids || scanned[i] in room {
          pids := pids[scanned[i] := ByName];
        }
      }
      assert scanned[..|scanned|] == scanned;
    }

    method HandleExec(pid: Pid, cgroup: nat, inScope: bool, room: bool)
      modifies this`pids
      ensures pids == OnExec(spec, old(pids), pid, cgroup, inScope, room)
    {
      var current := Get(pids, pid);
      match AdmissionFor(spec, pid, cgroup, inScope, current)
      case Admit(tag) =>
        if pid in pids || room { pids := pids[pid := tag]; }
      case Revoke =>
        pids := pids - {pid};
      case Leave =>
    }

    /** The fork tracepoint, on a thread-group leader. */
    method HandleFork(parent: Pid, child: Pid, room: bool)
      modifies this`pids
      ensures pids == OnFork(old(pids), parent, child, room)
    {
      if parent !in pids { return; }
      var inherited := pids[parent];
      if child in pids || room { pids := pids[child := inherited]; }
    }

    method ReapDead(alive: set<Pid>, scanned: seq<Pid>, room: set<Pid>)
      modifies this
      ensures (pids, sinceRescan) == Tick(old(pids), old(sinceRescan), alive, scanned, room)
    {
      hide Reap, Rescan;
      DropDead(alive);
      sinceRescan := sinceRescan + 1;
      if sinceRescan < RESCAN_EVERY { return; }
      sinceRescan := 0;
      Readmit(scanned, room);
    }

    method DropDead(alive: set<Pid>)
      modifies this`pids
      ensures pids == Reap(old(pids), alive)
    {
      var dead := pids.Keys - alive;
      ghost var gone: set<Pid> := {};
      while dead != {}
        invariant dead + gone == old(pids).Keys - alive
        invariant pids == old(pids) - gone
        decreases |dead|
      {
        var p :| p in dead;
        dead := dead - {p};
        gone := gone + {p};
        pids := pids - {p};
      }
    }

    method Readmit(scanned: seq<Pid>, room: set<Pid>)
      modifies this`pids
      ensures pids == Rescan(old(pids), scanned, room)
    {
      for i := 0 to |scanned|
        invariant pids == Rescan(old(pids), scanned[..i], room)
      {
        assert scanned[..i + 1][..i] == scanned[..i];
        if scanned[i] in pids { continue; }
        if scanned[i] in room { pids := pids[scanned[i] := ByName]; }
      }
      assert scanned[..|scanned|] == scanned;
    }
  }

  // ---------------------------------------------------------------------------------------
  // Runs
  // ---------------------------------------------------------------------------------------

  /** The live processes, and whether each one's current image is in the name scope. */
  datatype World = World(matching: map<Pid, bool>, seats: Seats, since: nat)

  /**
    An exec is seen and handled at once; `readable` says whether the image could be resolved, and one
    that could not is never in scope. A tick sees the processes in `scanned`, all live and matching.
   */
  datatype Event =
    | Exec(pid: Pid, matches: bool, readable: bool, cgroup: nat, fits: bool)
    | Fork(parent: Pid, child: Pid, fits: bool)
    | Gone(pid: Pid)
    | Timer(scanned: seq<Pid>, room: set<Pid>)

  predicate InScope(ev: Event)
    requires ev.Exec?
  {
    ev.readable && ev.matches
  }

  function Step(spec: Spec, w: World, ev: Event): World {
    match ev
    case Exec(pid, matches, readable, cgroup, fits) =>
      w.(matching := w.matching[pid := matches], seats := OnExec(spec, w.seats, pid, cgroup, InScope(ev), fits))
    case Fork(parent, child, fits) =>
      if parent in w.matching then
        w.(matching := w.matching[child := w.matching[parent]], seats := OnFork(w.seats, parent, child, fits))
      else w
    case Gone(pid) => w.(matching := w.matching - {pid})
    case Timer(scanned, room) =>
      var t := Tick(w.seats, w.since, w.matching.Keys, scanned, room);
      w.(seats := t.0, since := t.1)
  }

  /** A scan finds only live processes whose image matches. */
  predicate Truthful(matching: map<Pid, bool>, scanned: seq<Pid>) {
    forall p :: p in scanned ==> p in matching && matching[p]
  }

  /** Processes act while they live, and no pid is reused while a dead process's seat is unreaped. */
  predicate Legal(w: World, ev: Event) {
    match ev
    case Exec(pid, _, _, _, _) => pid in w.matching
    case Fork(parent, child, _) => parent in w.matching && child !in w.matching && child !in w.seats
    case Gone(pid) => pid in w.matching
    case Timer(scanned, _) => Truthful(w.matching, scanned)
  }

  function After(spec: Spec, w: World, evs: seq<Event>): World {
    if evs == [] then w else Step(spec, After(spec, w, evs[..|evs| - 1]), evs[|evs| - 1])
  }

  predicate LegalRun(spec: Spec, w: World, evs: seq<Event>) {
    evs == [] || (LegalRun(spec, w, evs[..|evs| - 1]) && Legal(After(spec, w, evs[..|evs| - 1]), evs[|evs| - 1]))
  }

  function Start(spec: Spec, matching: map<Pid, bool>, scanned: seq<Pid>, room: set<Pid>): World {
    World(matching, Engage(spec, scanned, room), 0)
  }

  /** The ticks of a run. */
  function Ticks(evs: seq<Event>): nat {
    if evs == [] then 0 else Ticks(evs[..|evs| - 1]) + (if evs[|evs| - 1].Timer? then 1 else 0)
  }

  lemma {:induction false} TicksCount(spec: Spec, w: World, evs: seq<Event>)
    requires w.since == 0
    ensures After(spec, w, evs).since == Ticks(evs) % 6
  {
    hide OnExec, OnFork, Reap, Rescan;
    if evs != [] {
      TicksCount(spec, w, evs[..|evs| - 1]);
    }
  }

  lemma {:induction false} RescanAdds(seats: Seats, scanned: seq<Pid>, room: set<Pid>, p: Pid)
    ensures Get(Rescan(seats, scanned, room), p) ==
            if p in seats then Some(seats[p]) else if p in scanned && p in room then Some(ByName) else None
  {
    if scanned != [] {
      var front, last := scanned[..|scanned| - 1], scanned[|scanned| - 1];
      RescanAdds(seats, front, room, p);
      RescanAdds(seats, front, room, last);
      assert scanned == front + [last];
    }
  }

  /**
    What a tick makes of any seat, in any run: the dead lose theirs, the living keep theirs, and at every sixth tick
    a process without one that the scan saw is seated by name, if there is room.
   */
  lemma TickIs(spec: Spec, w: World, evs: seq<Event>, scanned: seq<Pid>, room: set<Pid>, p: Pid)
    requires w.since == 0
    ensures var before, after := After(spec, w, evs), After(spec, w, evs + [Timer(scanned, room)]);
            Get(after.seats, p) ==
            if p in before.seats && p in before.matching then Some(before.seats[p])
            else if (Ticks(evs) + 1) % 6 == 0 && p in scanned && p in room then Some(ByName)
            else None
  {
    hide Tick;
    TicksCount(spec, w, evs);
    assert (evs + [Timer(scanned, room)])[..|evs|] == evs;
    var before := After(spec, w, evs);
    assert After(spec, w, evs + [Timer(scanned, room)]) == Step(spec, before, Timer(scanned, room));
    hide After;
    TickSeats(before.seats, before.since, before.matching.Keys, scanned, room, p);
  }

  lemma TickSeats(seats: Seats, since: nat, alive: set<Pid>, scanned: seq<Pid>, room: set<Pid>, p: Pid)
    requires since < 6
    ensures Get(Tick(seats, since, alive, scanned, room).0, p) ==
            if p in seats && p in alive then Some(seats[p])
            else if since == 5 && p in scanned && p in room then Some(ByName)
            else None
  {
    hide Rescan;
    RescanAdds(Reap(seats, alive), scanned, room, p);
  }

  // ---------------------------------------------------------------------------------------
  // Seats by name
  // ---------------------------------------------------------------------------------------

  /** A live process seated by name runs an image the name matches. */
  ghost predicate NamesMatch(w: World) {
    forall p :: p in w.seats && w.seats[p] == ByName && p in w.matching ==> w.matching[p]
  }

  lemma {:induction false} NameAllIs(seats: Seats, scanned: seq<Pid>, room: set<Pid>, p: Pid)
    ensures p !in scanned ==> Get(NameAll(seats, scanned, room), p) == Get(seats, p)
    ensures p in scanned && (p in seats || p in room) ==> Get(NameAll(seats, scanned, room), p) == Some(ByName)
    ensures p in scanned && p !in seats && p !in room ==> p !in NameAll(seats, scanned, room)
  {
    if scanned != [] {
      NameAllIs(seats, scanned[..|scanned| - 1], room, p);
      assert scanned == scanned[..|scanned| - 1] + [scanned[|scanned| - 1]];
    }
  }

  lemma {:induction false} RescanIs(seats: Seats, scanned: seq<Pid>, room: set<Pid>, p: Pid)
    ensures p in seats ==> Get(Rescan(seats, scanned, room), p) == Get(seats, p)
    ensures p !in seats && p in Rescan(seats, scanned, room) ==> p in scanned && Rescan(seats, scanned, room)[p] == ByName
  {
    if scanned != [] {
      RescanIs(seats, scanned[..|scanned| - 1], room, p);
      assert scanned == scanned[..|scanned| - 1] + [scanned[|scanned| - 1]];
    }
  }

  lemma StepNamesMatch(spec: Spec, w: World, ev: Event)
    requires NamesMatch(w) && Legal(w, ev)
    ensures NamesMatch(Step(spec, w, ev))
  {
    var w' := Step(spec, w, ev);
    forall p | p in w'.seats && w'.seats[p] == ByName && p in w'.matching ensures w'.matching[p] {
      if ev.Timer? {
        RescanIs(Reap(w.seats, w.matching.Keys), ev.scanned, ev.room, p);
      }
    }
  }

  /** Over every run: whoever holds a seat by name is running an image the name matches. */
  lemma {:induction false} SeatsByNameMatch(spec: Spec, matching: map<Pid, bool>, scanned: seq<Pid>, room: set<Pid>,
                                            evs: seq<Event>)
    requires Truthful(matching, scanned) && LegalRun(spec, Start(spec, matching, scanned, room), evs)
    ensures NamesMatch(After(spec, Start(spec, matching, scanned, room), evs))
  {
    var w := Start(spec, matching, scanned, room);
    if evs == [] {
      forall p | p in w.seats && w.seats[p] == ByName && p in w.matching ensures w.matching[p] {
        NameAllIs(Listed(spec.pids), scanned, room, p);
      }
    } else {
      hide NamesMatch, Step, Start, Truthful, Legal;
      SeatsByNameMatch(spec, matching, scanned, room, evs[..|evs| - 1]);
      StepNamesMatch(spec, After(spec, w, evs[..|evs| - 1]), evs[|evs| - 1]);
    }
  }

  /** After every tick only live processes are seated: a reused pid finds no seat waiting. */
  lemma TickLeavesLive(spec: Spec, w: World, ev: Event)
    requires ev.Timer? && Legal(w, ev)
    ensures forall p :: p in Step(spec, w, ev).seats ==> p in w.matching
  {
    forall p | p in Step(spec, w, ev).seats ensures p in w.matching {
      RescanIs(Reap(w.seats, w.matching.Keys), ev.scanned, ev.room, p);
    }
  }

  // ---------------------------------------------------------------------------------------
  // Explicit seats
  // ---------------------------------------------------------------------------------------

  predicate SeatedExplicit(w: World, p: Pid) { p in w.seats && w.seats[p] == Explicit }

  /** `p` has not exited; it stays the process it was. */
  predicate Lives(evs: seq<Event>, p: Pid) {
    forall i :: 0 <= i < |evs| ==> !(evs[i].Gone? && evs[i].pid == p)
  }

  /** A live process's seat changes only at its own execs. */
  lemma SeatKept(spec: Spec, w: World, ev: Event, p: Pid)
    requires p in w.matching && p in w.seats && Legal(w, ev)
    requires !(ev.Exec? && ev.pid == p) && !(ev.Gone? && ev.pid == p)
    ensures p in Step(spec, w, ev).matching && Get(Step(spec, w, ev).seats, p) == Some(w.seats[p])
  {
    if ev.Timer? {
      RescanIs(Reap(w.seats, w.matching.Keys), ev.scanned, ev.room, p);
    }
  }

  lemma {:induction false} ListedStays(spec: Spec, w: World, evs: seq<Event>, p: Pid)
    requires p in spec.pids && p in w.matching && SeatedExplicit(w, p)
    requires LegalRun(spec, w, evs) && Lives(evs, p)
    ensures p in After(spec, w, evs).matching && SeatedExplicit(After(spec, w, evs), p)
  {
    if evs != [] {
      var front, ev := evs[..|evs| - 1], evs[|evs| - 1];
      ListedStays(spec, w, front, p);
      if !(ev.Exec? && ev.pid == p) {
        SeatKept(spec, After(spec, w, front), ev, p);
      }
    }
  }

  /** Throughout every run in which the process lives, its seat is explicit. */
  ghost predicate AlwaysExplicit(spec: Spec, w: World, p: Pid) {
    forall evs :: LegalRun(spec, w, evs) && Lives(evs, p) ==> SeatedExplicit(After(spec, w, evs), p)
  }

  /**
    A listed process keeps an explicit seat for life exactly when the startup scan did not find it:
    the scan writes its seats over the listed ones.
   */
  lemma ListedKeepsSeat(spec: Spec, matching: map<Pid, bool>, scanned: seq<Pid>, room: set<Pid>, p: Pid)
    requires p in spec.pids && p in matching && Truthful(matching, scanned)
    ensures AlwaysExplicit(spec, Start(spec, matching, scanned, room), p) <==> p !in scanned
  {
    var w := Start(spec, matching, scanned, room);
    NameAllIs(Listed(spec.pids), scanned, room, p);
    if p in scanned {
      assert LegalRun(spec, w, []) && Lives([], p) && After(spec, w, []) == w;
    } else {
      forall evs | LegalRun(spec, w, evs) && Lives(evs, p) ensures SeatedExplicit(After(spec, w, evs), p) {
        ListedStays(spec, w, evs, p);
      }
    }
  }

  predicate OwnExec(ev: Event, p: Pid, inScope: bool) { ev.Exec? && ev.pid == p && InScope(ev) == inScope }

  predicate NoOwnExec(evs: seq<Event>, p: Pid) {
    forall i :: 0 <= i < |evs| ==> !(evs[i].Exec? && evs[i].pid == p)
  }

  /** `p` execs, and its first exec is out of the name scope. */
  predicate FirstExecOut(evs: seq<Event>, p: Pid) {
    exists i :: 0 <= i < |evs| && OwnExec(evs[i], p, false) && NoOwnExec(evs[..i], p)
  }

  lemma FirstExecNext(front: seq<Event>, ev: Event, p: Pid)
    ensures FirstExecOut(front + [ev], p) <==> FirstExecOut(front, p) || (NoOwnExec(front, p) && OwnExec(ev, p, false))
    ensures NoOwnExec(front + [ev], p) <==> NoOwnExec(front, p) && !(ev.Exec? && ev.pid == p)
  {
    hide OwnExec;
    var evs := front + [ev];
    if FirstExecOut(front, p) {
      var i :| 0 <= i < |front| && OwnExec(front[i], p, false) && NoOwnExec(front[..i], p);
      assert evs[i] == front[i] && evs[..i] == front[..i];
    }
    if NoOwnExec(front, p) && OwnExec(ev, p, false) {
      assert evs[|front|] == ev && evs[..|front|] == front;
    }
    if FirstExecOut(evs, p) {
      var i :| 0 <= i < |evs| && OwnExec(evs[i], p, false) && NoOwnExec(evs[..i], p);
      if i < |front| {
        assert evs[i] == front[i] && evs[..i] == front[..i];
      } else {
        assert evs[..i] == front;
      }
    }
    if NoOwnExec(evs, p) {
      forall i | 0 <= i < |front| ensures !(front[i].Exec? && front[i].pid == p) {
        assert front[i] == evs[i];
      }
      assert evs[|front|] == ev;
    }
  }

  /** A listed process seated by name: by name until its first exec, explicit from one into the scope on. */
  lemma {:induction false} OverwrittenSeat(spec: Spec, w: World, evs: seq<Event>, p: Pid)
    requires p in spec.pids && p in w.matching && Get(w.seats, p) == Some(ByName)
    requires LegalRun(spec, w, evs) && Lives(evs, p) && !FirstExecOut(evs, p)
    ensures var w' := After(spec, w, evs);
            p in w'.matching && Get(w'.seats, p) == Some(if NoOwnExec(evs, p) then ByName else Explicit)
  {
    if evs != [] {
      var front, ev := evs[..|evs| - 1], evs[|evs| - 1];
      assert evs == front + [ev];
      FirstExecNext(front, ev, p);
      hide FirstExecOut, NoOwnExec;
      OverwrittenSeat(spec, w, front, p);
      if !(ev.Exec? && ev.pid == p) {
        SeatKept(spec, After(spec, w, front), ev, p);
      }
    }
  }

  /** `p` is seated after each event of the run, and before the first. */
  predicate AlwaysSeated(spec: Spec, w: World, evs: seq<Event>, p: Pid) {
    p in After(spec, w, evs).seats && (evs == [] || AlwaysSeated(spec, w, evs[..|evs| - 1], p))
  }

  /**
    What the overwrite costs: a listed process the startup scan found loses its seat exactly when
    its first exec is to an image out of the name scope.
   */
  lemma {:induction false} ListedSeatWithdrawn(spec: Spec, matching: map<Pid, bool>, scanned: seq<Pid>, room: set<Pid>,
                                               evs: seq<Event>, p: Pid)
    requires p in spec.pids && p in matching && p in scanned
    requires LegalRun(spec, Start(spec, matching, scanned, room), evs) && Lives(evs, p)
    ensures AlwaysSeated(spec, Start(spec, matching, scanned, room), evs, p) <==> !FirstExecOut(evs, p)
  {
    var w := Start(spec, matching, scanned, room);
    NameAllIs(Listed(spec.pids), scanned, room, p);
    if evs != [] {
      var front, ev := evs[..|evs| - 1], evs[|evs| - 1];
      assert evs == front + [ev];
      ListedSeatWithdrawn(spec, matching, scanned, room, front, p);
      FirstExecNext(front, ev, p);
      hide FirstExecOut, NoOwnExec, Start;
      if !FirstExecOut(front, p) {
        OverwrittenSeat(spec, w, front, p);
        if !(ev.Exec? && ev.pid == p) {
          SeatKept(spec, After(spec, w, front), ev, p);
        }
      }
    }
  }

  // ---------------------------------------------------------------------------------------
  // Descendants of an explicit seat
  // ---------------------------------------------------------------------------------------

  /** An exec of `p` that no listing makes explicit. */
  predicate Unlisted(spec: Spec, ev: Event, p: Pid) {
    ev.Exec? && ev.pid == p ==> p !in spec.pids && ev.cgroup !in spec.cgroups
  }

  /** `p` execs into the name scope and, later, out of it. */
  ghost predicate InThenOut(evs: seq<Event>, p: Pid) {
    exists i, j :: 0 <= i < j < |evs| && OwnExec(evs[i], p, true) && OwnExec(evs[j], p, false)
  }

  ghost predicate EverIn(evs: seq<Event>, p: Pid) {
    exists i :: 0 <= i < |evs| && OwnExec(evs[i], p, true)
  }

  lemma EverInNext(front: seq<Event>, ev: Event, p: Pid)
    ensures EverIn(front + [ev], p) <==> EverIn(front, p) || OwnExec(ev, p, true)
    ensures InThenOut(front + [ev], p) <==> InThenOut(front, p) || (EverIn(front, p) && OwnExec(ev, p, false))
  {
    var evs := front + [ev];
    if EverIn(front, p) {
      var i :| 0 <= i < |front| && OwnExec(front[i], p, true);
      assert OwnExec(evs[i], p, true);
      if OwnExec(ev, p, false) {
        assert OwnExec(evs[|front|], p, false);
      }
    }
    if OwnExec(ev, p, true) {
      assert OwnExec(evs[|front|], p, true);
    }
    if InThenOut(front, p) {
      var i, j :| 0 <= i < j < |front| && OwnExec(front[i], p, true) && OwnExec(front[j], p, false);
      assert OwnExec(evs[i], p, true) && OwnExec(evs[j], p, false);
    }
  }

  /**
    The seat of a process that holds an explicit one it is not itself listed for, as long as it has
    not execed into the name scope and out again: explicit until it first execs into it, by name after.
   */
  lemma {:induction false} InheritedSeat(spec: Spec, w: World, evs: seq<Event>, p: Pid)
    requires p in w.matching && SeatedExplicit(w, p) && LegalRun(spec, w, evs) && Lives(evs, p)
    requires forall i :: 0 <= i < |evs| ==> Unlisted(spec, evs[i], p)
    requires !InThenOut(evs, p)
    ensures var w' := After(spec, w, evs);
            p in w'.matching && Get(w'.seats, p) == Some(if EverIn(evs, p) then ByName else Explicit)
  {
    if evs != [] {
      var front, ev := evs[..|evs| - 1], evs[|evs| - 1];
      assert evs == front + [ev];
      EverInNext(front, ev, p);
      hide InThenOut, EverIn;
      InheritedSeat(spec, w, front, p);
      if !(ev.Exec? && ev.pid == p) {
        SeatKept(spec, After(spec, w, front), ev, p);
      }
    }
  }

  /**
    A descendant of an explicit seat keeps its own exactly as long as it does not exec into the name
    scope and then out of it: the first such exec retags the seat, the next one withdraws it.
   */
  lemma {:induction false} DescendantKeepsSeat(spec: Spec, w: World, evs: seq<Event>, p: Pid)
    requires p in w.matching && SeatedExplicit(w, p) && LegalRun(spec, w, evs) && Lives(evs, p)
    requires forall i :: 0 <= i < |evs| ==> Unlisted(spec, evs[i], p)
    ensures AlwaysSeated(spec, w, evs, p) <==> !InThenOut(evs, p)
  {
    if evs != [] {
      var front, ev := evs[..|evs| - 1], evs[|evs| - 1];
      assert evs == front + [ev];
      DescendantKeepsSeat(spec, w, front, p);
      EverInNext(front, ev, p);
      hide InThenOut, EverIn;
      if !InThenOut(front, p) {
        InheritedSeat(spec, w, front, p);
        if !(ev.Exec? && ev.pid == p) {
          SeatKept(spec, After(spec, w, front), ev, p);
        }
      }
    }
  }

  /** Such a run, for any process with an inherited seat: in and out again, and the seat is gone. */
  lemma DescendantLosesSeat(spec: Spec, w: World, p: Pid, cgroup: nat)
    requires p in w.matching && SeatedExplicit(w, p) && p !in spec.pids && cgroup !in spec.cgroups
    ensures var evs := [Exec(p, true, true, cgroup, true), Exec(p, false, true, cgroup, true)];
            LegalRun(spec, w, evs) && Lives(evs, p) && p !in After(spec, w, evs).seats
  {
    var enter, leave := Exec(p, true, true, cgroup, true), Exec(p, false, true, cgroup, true);
    assert [enter, leave][..1] == [enter] && [enter][..0] == [];
    assert After(spec, w, [enter]) == Step(spec, w, enter);
  }

  // ---------------------------------------------------------------------------------------
  // Listed cgroups
  // ---------------------------------------------------------------------------------------

  /** An exec of `p` into the name scope is one some listing makes explicit. */
  predicate ListedExec(spec: Spec, ev: Event, p: Pid) {
    OwnExec(ev, p, true) ==> p in spec.pids || ev.cgroup in spec.cgroups
  }

  lemma {:induction false} ListedExecsKeep(spec: Spec, w: World, evs: seq<Event>, p: Pid)
    requires p in w.matching && SeatedExplicit(w, p) && LegalRun(spec, w, evs) && Lives(evs, p)
    requires forall i :: 0 <= i < |evs| ==> ListedExec(spec, evs[i], p)
    ensures p in After(spec, w, evs).matching && SeatedExplicit(After(spec, w, evs), p)
  {
    if evs != [] {
      var front, ev := evs[..|evs| - 1], evs[|evs| - 1];
      ListedExecsKeep(spec, w, front, p);
      if !(ev.Exec? && ev.pid == p) {
        SeatKept(spec, After(spec, w, front), ev, p);
      }
    }
  }

  /**
    One exec into the name scope from a listed cgroup, with room for the seat, and whatever the process was seated as
    before, it is explicit, and stays so for as long as its execs into the scope are all from listed cgroups.
   */
  lemma CgroupSeat(spec: Spec, w: World, ev: Event, evs: seq<Event>, p: Pid)
    requires Legal(w, ev) && OwnExec(ev, p, true) && ev.cgroup in spec.cgroups && (ev.fits || p in w.seats)
    requires LegalRun(spec, Step(spec, w, ev), evs) && Lives(evs, p)
    requires forall i :: 0 <= i < |evs| ==> OwnExec(evs[i], p, true) ==> evs[i].cgroup in spec.cgroups
    ensures SeatedExplicit(After(spec, Step(spec, w, ev), evs), p)
  {
    forall i | 0 <= i < |evs| ensures ListedExec(spec, evs[i], p) {
    }
    ListedExecsKeep(spec, Step(spec, w, ev), evs, p);
  }
}
