/** Latency: with the tls ring's timestamps in order, the phases of a completed op add up. */
module CorrelatorClock {
  import opened Wrappers
  import opened Eviction
  import opened CorrelatorState
  import opened CorrelatorRuns
  import opened CorrelatorSlots
  import Http = HttpHead

  /** The op's instants are in order, and none is later than `now`. */
  predicate InOrder(op: OpenOp, now: nat) {
    && op.ts <= now
    && (op.interimTs.Some? ==> op.ts <= op.interimTs.value <= now)
    && (op.resp.Some? ==> op.ts <= op.resp.value.headTs <= now)
    && (op.interimTs.Some? && op.resp.Some? ==> op.interimTs.value <= op.resp.value.headTs)
  }

  ghost predicate Timely(s: State, now: nat) {
    forall k :: k in s.ops && s.ops[k].open.Some? ==> InOrder(s.ops[k].open.value, now)
  }

  /** The instants of the events that carry one a slot keeps. */
  function Clock(ev: Event, now: nat): nat {
    if IsRead(ev) then ReadTs(ev) else if ev.TlsWrite? then ev.write.ts else now
  }

  function Now(evs: seq<Event>): nat {
    if evs == [] then 0 else Clock(evs[|evs| - 1], Now(evs[..|evs| - 1]))
  }

  /** Writes, reads and body lengths arrive with nondecreasing timestamps. */
  predicate Ordered(evs: seq<Event>) {
    evs == [] || (Ordered(evs[..|evs| - 1]) && Now(evs[..|evs| - 1]) <= Now(evs))
  }

  /**
    The phases of `r`, a record of `op` completed at `done`: the wait for the head, and the
    download after it, make up the whole; and the time to first byte is that wait, unless an
    interim response came first.
   */
  ghost predicate PhasesAdd(r: Operation, op: OpenOp, done: nat) {
    exists head: nat :: PhasesAddAt(r, op, done, head)
  }

  predicate PhasesAddAt(r: Operation, op: OpenOp, done: nat, head: nat) {
    && op.ts <= head <= done
    && r.downloadNs == Some(done - head)
    && r.totalNs == Some((head - op.ts) + (done - head))
    && (op.interimTs.None? ==> r.ttfbNs == NonZero(head - op.ts))
    && (op.interimTs.Some? ==> op.ts <= op.interimTs.value <= head && r.ttfbNs == NonZero(op.interimTs.value - op.ts))
  }

  lemma BuildPhases(s: State, k: Key, op: OpenOp, f: RespFacts, done: nat)
    requires InOrder(op, done) && f.bodyCompleteTs == Some(done) && f.ts.Some?
    requires op.ts <= f.ts.value <= done
    requires op.interimTs.Some? ==> op.interimTs.value <= f.ts.value
    ensures PhasesAdd(BuildOp(s, k, op, f), op, done)
  {
    hide DnsForIp, OpSniBucket, EndpointIp, OpConn, OpCookie;
    assert PhasesAddAt(BuildOp(s, k, op, f), op, done, f.ts.value);
  }

  lemma BuildNoDownload(s: State, k: Key, op: OpenOp, f: RespFacts)
    requires f.bodyCompleteTs.None?
    ensures BuildOp(s, k, op, f).downloadNs.None?
  {
    hide DnsForIp, OpSniBucket, EndpointIp, OpConn, OpCookie;
  }

  /** What an accepted read may do to the op open at `k`. */
  ghost predicate ReadOk(s: State, s': State, out: Option<Operation>, k: Key, ts: nat) {
    && (OpenAt(s', k).Some? ==> InOrder(OpenAt(s', k).value, ts))
    && (out.Some? && out.value.downloadNs.Some? ==> OpenAt(s, k).Some? && PhasesAdd(out.value, OpenAt(s, k).value, ts))
  }

  lemma TallyInOrder(s: State, k: Key, ts: nat, len: nat)
    requires OpenAt(s, k).Some? ==> InOrder(OpenAt(s, k).value, ts)
    ensures ReadOk(s, Tally(s, k, ts, len).0, Tally(s, k, ts, len).1, k, ts)
  {
    hide BuildOp, Touch, SetOpen, PhasesAdd;
    TouchSlot(s, k, ts);
    var s1, op := Touch(s, k, ts), OpenAt(s, k);
    if op.Some? && op.value.resp.Some? {
      var rs := op.value.resp.value;
      BuildPhases(s1, k, op.value, FactsOf(rs, Some(ts)), ts);
      SetOpenAt(s1, k, None);
      SetOpenAt(s1, k, Some(op.value.(resp := Some(rs.(bodySeen := SatAdd(rs.bodySeen, len))))));
    }
  }

  lemma InterimInOrder(s: State, k: Key, ts: nat)
    requires OpenAt(s, k).Some? ==> InOrder(OpenAt(s, k).value, ts) && OpenAt(s, k).value.resp.None?
    ensures ReadOk(s, Interim(s, k, ts), None, k, ts)
  {
    hide Touch, SetOpen, PhasesAdd;
    TouchSlot(s, k, ts);
    var s1, op := Touch(s, k, ts), OpenAt(s, k);
    if op.Some? {
      SetOpenAt(s1, k, Some(op.value.(interimTs := op.value.interimTs.Or(Some(ts)))));
    }
  }

  lemma FinalInOrder(s: State, k: Key, e: EvtTlsData, h: FinalHead)
    requires OpenAt(s, k).Some? ==> InOrder(OpenAt(s, k).value, e.ts) && OpenAt(s, k).value.resp.None?
    ensures ReadOk(s, Final(s, k, e, h).0, Final(s, k, e, h).1, k, e.ts)
  {
    hide BuildOp, Touch, SetOpen, PhasesAdd, Http.SameIgnoringCase;
    TouchSlot(s, k, e.ts);
    var s1, op := Touch(s, k, e.ts), OpenAt(s, k);
    if op.Some? {
      SetOpenAt(s1, k, None);
      if ExpectsBody(op, h) {
        BuildPhases(s1, k, op.value, FinalFacts(e, h, Some(e.ts)), e.ts);
        SetOpenAt(s1, k, Some(op.value.(resp := Some(
          RespState(e.ts, h.status, h.requestId, e.len, h.truncated, h.contentLength.value, SatSub(e.len, h.headerEnd.value))))));
      } else {
        BuildNoDownload(s1, k, op.value, FinalFacts(e, h, None));
      }
    }
  }

  /** An op with a response is always awaiting its body. */
  lemma RespAwaits(s: State, k: Key)
    requires Good(s) && OpenAt(s, k).Some? && OpenAt(s, k).value.resp.Some?
    ensures AwaitingBody(s, k)
  {
    hide Inverse, Caps;
    assert SlotOk(k, s.ops[k]);
  }

  lemma AcceptedInOrder(s: State, ev: Event, k: Key)
    requires Good(s) && Accepts(s, ev, k)
    requires OpenAt(s, k).Some? ==> InOrder(OpenAt(s, k).value, ReadTs(ev))
    ensures ReadOk(s, Fold(s, ev).0, Fold(s, ev).1, k, ReadTs(ev))
  {
    hide Good, Tally, Final, Interim, HeadOf, Http.ParseStatus, PhasesAdd, Foreign, InOrder;
    var ts := ReadTs(ev);
    TallyInOrder(s, k, ts, ReadLen(ev));
    if ev.TlsRead? && !AwaitingBody(s, k) {
      if OpenAt(s, k).Some? && OpenAt(s, k).value.resp.Some? {
        RespAwaits(s, k);
      }
      InterimInOrder(s, k, ts);
      if Http.ParseStatus(ev.read.data).Some? {
        FinalInOrder(s, k, ev.read, HeadOf(ev.read, Http.ParseStatus(ev.read.data).value));
      }
    }
  }

  /** A request opens its op at the instant it is written. */
  lemma OpenedInOrder(s: State, ev: Event)
    requires Opens(ev)
    ensures OpenAt(Fold(s, ev).0, WriteKey(ev)).Some?
    ensures InOrder(OpenAt(Fold(s, ev).0, WriteKey(ev)).value, ev.write.ts)
  {
    hide OnTlsWrite, ResolveRequest, HeadTruncated, Http.ParseRequest, BioChanged;
    WriteOpens(s, ev.write, Http.ParseRequest(ev.write.data).value);
  }

  lemma LaterInOrder(op: OpenOp, now: nat, then_: nat)
    requires InOrder(op, now) && now <= then_
    ensures InOrder(op, then_)
  {
  }

  lemma TimelyNext(s: State, ev: Event, now: nat)
    requires Good(s) && Timely(s, now) && now <= Clock(ev, now)
    ensures Timely(Fold(s, ev).0, Clock(ev, now))
  {
    var s', then_ := Fold(s, ev).0, Clock(ev, now);
    forall k | k in s'.ops && s'.ops[k].open.Some? ensures InOrder(s'.ops[k].open.value, then_) {
      SlotInOrder(s, ev, k, now);
    }
  }

  lemma SlotInOrder(s: State, ev: Event, k: Key, now: nat)
    requires Good(s) && Timely(s, now) && now <= Clock(ev, now)
    ensures OpenAt(Fold(s, ev).0, k).Some? ==> InOrder(OpenAt(Fold(s, ev).0, k).value, Clock(ev, now))
  {
    hide Good, Fold, InOrder, Http.ParseRequest, Foreign, PhasesAdd;
    if OpenAt(s, k).Some? {
      LaterInOrder(OpenAt(s, k).value, now, Clock(ev, now));
    }
    if OpensOn(ev, k) {
      OpenedInOrder(s, ev);
    } else if Accepts(s, ev, k) {
      AcceptedInOrder(s, ev, k);
    } else {
      FoldPasses(s, ev, k);
    }
  }

  lemma {:induction false} TimelyRun(w: World, evs: seq<Event>)
    requires Good(w.s) && w.s.ops == map[] && Ordered(evs)
    ensures Timely(After(w, evs).s, Now(evs))
  {
    hide Good, Fold, Clock;
    if evs != [] {
      TimelyRun(w, evs[..|evs| - 1]);
      GoodRun(w, evs[..|evs| - 1]);
      TimelyNext(After(w, evs[..|evs| - 1]).s, evs[|evs| - 1], Now(evs[..|evs| - 1]));
    }
  }

  /** Only an accepted read returns a record with a download time. */
  lemma OnlyReadsComplete(s: State, ev: Event)
    requires Fold(s, ev).1.Some? && Fold(s, ev).1.value.downloadNs.Some?
    ensures IsRead(ev) && Accepts(s, ev, ReadKey(ev))
  {
    if IsRead(ev) {
      hide Tally, Final, Interim, HeadOf, Http.ParseStatus, AwaitingBody, Foreign;
    } else {
      InterruptedNoDownload(s, ev);
    }
  }

  lemma InterruptedNoDownload(s: State, ev: Event)
    requires !IsRead(ev)
    ensures Fold(s, ev).1.Some? ==> Fold(s, ev).1.value.downloadNs.None?
  {
    hide DropSlots, SlotVictims, NewOp, Http.ParseRequest, BioCookie, BuildOp, BioChanged;
    if Opens(ev) {
      var k := WriteKey(ev);
      var open := SlotAt(s, k).open;
      if open.Some? {
        var p := open.value;
        BuildNoDownload(s, k, p, NO_FACTS);
        BuildNoDownload(s, k, p.(ambiguous := true), NO_FACTS);
        BuildNoDownload(s, k, p, FactsOnFlush(p));
      }
    }
  }

  /**
    Over a whole run with the ring's clock in order: whatever op an event completes, its request
    to head and head to last byte add up to its total.
   */
  lemma LatencyAdds(maxOpen: nat, endpoints: seq<string>, salt: string, evs: seq<Event>, ev: Event)
    requires Ordered(evs + [ev])
    ensures var s := After(Start(maxOpen, endpoints, salt), evs).s;
            var out := Fold(s, ev).1;
            out.Some? && out.value.downloadNs.Some? ==>
              && IsRead(ev) && OpenAt(s, ReadKey(ev)).Some?
              && PhasesAdd(out.value, OpenAt(s, ReadKey(ev)).value, ReadTs(ev))
  {
    hide After, Fold, Good, InOrder, PhasesAdd, Accepts;
    var start := Start(maxOpen, endpoints, salt);
    var s := After(start, evs).s;
    var out := Fold(s, ev).1;
    if out.Some? && out.value.downloadNs.Some? {
      assert (evs + [ev])[..|evs|] == evs;
      GoodAlways(maxOpen, endpoints, salt, []);
      GoodAlways(maxOpen, endpoints, salt, evs);
      FromStart(maxOpen, endpoints, salt);
      TimelyRun(start, evs);
      OnlyReadsComplete(s, ev);
      var k := ReadKey(ev);
      if OpenAt(s, k).Some? {
        LaterInOrder(OpenAt(s, k).value, Now(evs), ReadTs(ev));
      }
      AcceptedInOrder(s, ev, k);
    }
  }

  lemma FromStart(maxOpen: nat, endpoints: seq<string>, salt: string)
    ensures After(Start(maxOpen, endpoints, salt), []) == Start(maxOpen, endpoints, salt)
  {
    hide Advance;
  }
}
