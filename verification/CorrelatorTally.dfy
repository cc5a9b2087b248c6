/**
  The body tally: once a final head has declared a length, the op completes on the event that brings
  the bytes seen up to it, however the body was split, and whatever its bytes spell.
 */
module CorrelatorTally {
  import opened Wrappers
  import opened Eviction
  import opened CorrelatorState
  import opened CorrelatorRuns
  import opened CorrelatorSlots
  import Http = HttpHead

  /** The record of an op whose body was seen whole, ending at `ts`: everything else is its first head's. */
  predicate Completed(r: Operation, op: OpenOp, rs: RespState, ts: nat) {
    && r.id == op.id && r.httpStatus == Some(rs.status) && r.requestId == rs.requestId
    && r.contentLength == Some(rs.bodyTarget) && r.bytesRecv == rs.bytesRecv
    && r.downloadNs == Some(SatSub(ts, rs.headTs)) && r.totalNs == Some(SatSub(ts, op.ts))
  }

  /** The op with `n` body bytes seen. */
  function Seen(op: OpenOp, n: nat): OpenOp
    requires op.resp.Some?
  {
    op.(resp := Some(op.resp.value.(bodySeen := n)))
  }

  /** A body read is a length: with a response in hand, what a read spells is never looked at. */
  lemma ContentBlind(s: State, e: EvtTlsData)
    requires Good(s)
    requires OpenAt(s, Key(e.tgid, e.fd)).Some? && OpenAt(s, Key(e.tgid, e.fd)).value.resp.Some?
    ensures OnTlsRead(s, e) == OnTlsReadBody(s, EvtTlsBody(e.ts, e.tgid, e.cookie, e.fd, e.len))
  {
    hide Inverse, Caps, Tally, Final, Interim, HeadOf, Http.ParseStatus;
    var k := Key(e.tgid, e.fd);
    assert SlotOk(k, s.ops[k]);
  }

  lemma BuildCompleted(s: State, k: Key, op: OpenOp, ts: nat)
    requires op.resp.Some?
    ensures Completed(BuildOp(s, k, op, FactsOf(op.resp.value, Some(ts))), op, op.resp.value, ts)
  {
    hide DnsForIp, OpSniBucket, EndpointIp, OpConn, OpCookie;
  }

  /** A count that saturates has long reached any length a head can declare. */
  lemma Saturates(seen: nat, len: nat, target: nat)
    requires target <= Http.MAX_CONTENT_LENGTH
    ensures SatAdd(seen, len) < target <==> seen + len < target
    ensures seen + len < target ==> SatAdd(seen, len) == seen + len
  {
  }

  lemma TallyOpen(s: State, k: Key, ts: nat, len: nat, op: OpenOp)
    requires OpenAt(s, k) == Some(op) && op.resp.Some? && op.resp.value.bodyTarget <= Http.MAX_CONTENT_LENGTH
    ensures var (s', out) := Tally(s, k, ts, len);
            var seen := op.resp.value.bodySeen + len;
            if seen < op.resp.value.bodyTarget then OpenAt(s', k) == Some(Seen(op, seen)) && out == None
            else OpenAt(s', k) == None && out.Some? && Completed(out.value, op, op.resp.value, ts)
  {
    hide BuildOp, Completed, Touch, SetOpen, SatAdd;
    TouchSlot(s, k, ts);
    var s1, seen := Touch(s, k, ts), op.resp.value.bodySeen + len;
    BuildCompleted(s1, k, op, ts);
    SetOpenAt(s1, k, None);
    SetOpenAt(s1, k, Some(Seen(op, seen)));
    Saturates(op.resp.value.bodySeen, len, op.resp.value.bodyTarget);
  }

  /** A read of the op's own is a tally. */
  lemma AcceptedIsTally(s: State, ev: Event, k: Key)
    requires Good(s) && Accepts(s, ev, k) && OpenAt(s, k).Some? && OpenAt(s, k).value.resp.Some?
    ensures Fold(s, ev) == Tally(s, k, ReadTs(ev), ReadLen(ev))
    ensures OpenAt(s, k).value.resp.value.bodyTarget <= Http.MAX_CONTENT_LENGTH
  {
    hide Inverse, Caps, Tally, Final, Interim, HeadOf, Http.ParseStatus;
    assert SlotOk(k, s.ops[k]);
  }

  lemma InterruptedAborted(s: State, ev: Event, op: OpenOp)
    requires Opens(ev) && OpenAt(s, WriteKey(ev)) == Some(op)
    ensures Fold(s, ev).1.Some? && Aborted(Fold(s, ev).1.value, op)
  {
    hide DropSlots, SlotVictims, NewOp, Http.ParseRequest, BioCookie, Aborted, BuildOp, BioChanged;
    var k := WriteKey(ev);
    BuildAborted(s, k, op);
    BuildAborted(s, k, op.(ambiguous := true));
    Ambiguous(s, k, op);
  }

  lemma Ambiguous(s: State, k: Key, op: OpenOp)
    requires Aborted(BuildOp(s, k, op.(ambiguous := true), FactsOnFlush(op)), op.(ambiguous := true))
    ensures Aborted(BuildOp(s, k, op.(ambiguous := true), FactsOnFlush(op)), op)
  {
    hide BuildOp;
  }

  /** What one fold does to an op whose body is being tallied. */
  lemma TallyStep(s: State, ev: Event, k: Key, op: OpenOp)
    requires Good(s) && OpenAt(s, k) == Some(op) && op.resp.Some?
    ensures var rs := op.resp.value;
            var (s', out) := Fold(s, ev);
            if Accepts(s, ev, k) then
              var seen := rs.bodySeen + ReadLen(ev);
              if seen < rs.bodyTarget then OpenAt(s', k) == Some(Seen(op, seen)) && out == None
              else OpenAt(s', k) == None && out.Some? && Completed(out.value, op, rs, ReadTs(ev))
            else if OpensOn(ev, k) then out.Some? && Aborted(out.value, op)
            else OpenAt(s', k) == Some(op) || AbortedIn(s'.flushed, op)
  {
    hide Fold, Good, Tally, Completed, Aborted, AbortedIn, Opens, Foreign;
    if Accepts(s, ev, k) {
      AcceptedIsTally(s, ev, k);
      TallyOpen(s, k, ReadTs(ev), ReadLen(ev), op);
    } else if OpensOn(ev, k) {
      InterruptedAborted(s, ev, op);
    } else {
      FoldPasses(s, ev, k);
    }
  }

  /** The body bytes the run delivered to the op at `k`. */
  ghost function BodyBytes(w: World, evs: seq<Event>, k: Key): nat {
    if evs == [] then 0
    else
      var front, ev := evs[..|evs| - 1], evs[|evs| - 1];
      BodyBytes(w, front, k) + (if Accepts(After(w, front).s, ev, k) then ReadLen(ev) else 0)
  }

  /** The op is open still, every byte delivered counted, and its length not reached. */
  ghost predicate Tallying(w: World, evs: seq<Event>, k: Key, op: OpenOp)
    requires op.resp.Some?
  {
    var n := op.resp.value.bodySeen + BodyBytes(w, evs, k);
    n < op.resp.value.bodyTarget && OpenAt(After(w, evs).s, k) == Some(Seen(op, n))
  }

  /** At event `n` the declared length was reached, and the op was returned, complete. */
  ghost predicate CompletesAt(w: World, evs: seq<Event>, k: Key, op: OpenOp, n: nat)
    requires op.resp.Some? && n < |evs|
  {
    var s := After(w, evs[..n]).s;
    && Accepts(s, evs[n], k)
    && op.resp.value.bodySeen + BodyBytes(w, evs[..n], k) + ReadLen(evs[n]) >= op.resp.value.bodyTarget
    && Fold(s, evs[n]).1.Some?
    && Completed(Fold(s, evs[n]).1.value, op, op.resp.value, ReadTs(evs[n]))
  }

  /** At event `n`, no body byte of the op's, the op was emitted with what its head had said. */
  ghost predicate AbortsAt(w: World, evs: seq<Event>, k: Key, op: OpenOp, n: nat)
    requires n < |evs|
  {
    var s := After(w, evs[..n]).s;
    && !Accepts(s, evs[n], k)
    && ((Fold(s, evs[n]).1.Some? && Aborted(Fold(s, evs[n]).1.value, op)) || AbortedIn(Fold(s, evs[n]).0.flushed, op))
  }

  /**
    Over any run, with anything at all in between: an op with a response either is still open,
    short of its length with every delivered byte counted, or ended at one event of the run: it was
    returned as complete by the first read that reached the length, or emitted as aborted.
   */
  lemma {:induction false} TallyRun(w: World, evs: seq<Event>, k: Key, op: OpenOp) returns (n: nat)
    requires Good(w.s) && OpenAt(w.s, k) == Some(op) && op.resp.Some?
    ensures n <= |evs|
    ensures forall m :: 0 <= m <= n ==> Tallying(w, evs[..m], k, op)
    ensures n < |evs| ==> CompletesAt(w, evs, k, op, n) || AbortsAt(w, evs, k, op, n)
  {
    hide Good, Fold, Completed, Aborted, AbortedIn, Accepts, OpensOn, Tallying, CompletesAt, AbortsAt;
    if evs == [] {
      n := 0;
      StartsTallying(w, k, op);
      assert evs[..0] == [];
    } else {
      var front := evs[..|evs| - 1];
      n := TallyRun(w, front, k, op);
      forall m | 0 <= m <= n ensures Tallying(w, evs[..m], k, op) {
        assert evs[..m] == front[..m];
      }
      if n < |front| {
        assert evs[..n] == front[..n] && evs[n] == front[n];
        SameEnd(w, front, evs, k, op, n);
      } else {
        assert front[..n] == front;
        TallyNext(w, front, evs[|evs| - 1], k, op);
        assert evs == front + [evs[|evs| - 1]];
        if Tallying(w, evs, k, op) {
          n := |evs|;
          assert evs[..n] == evs;
          forall m | 0 <= m <= n ensures Tallying(w, evs[..m], k, op) {
            assert m < n ==> evs[..m] == front[..m];
          }
        }
      }
    }
  }

  lemma StartsTallying(w: World, k: Key, op: OpenOp)
    requires Good(w.s) && OpenAt(w.s, k) == Some(op) && op.resp.Some?
    ensures Tallying(w, [], k, op)
  {
    hide Inverse, Caps;
    assert SlotOk(k, w.s.ops[k]);
  }

  lemma SameEnd(w: World, front: seq<Event>, evs: seq<Event>, k: Key, op: OpenOp, n: nat)
    requires op.resp.Some? && n < |front| && n < |evs| && evs[..n] == front[..n] && evs[n] == front[n]
    ensures CompletesAt(w, front, k, op, n) <==> CompletesAt(w, evs, k, op, n)
    ensures AbortsAt(w, front, k, op, n) <==> AbortsAt(w, evs, k, op, n)
  {
    hide Fold, Completed, Aborted, AbortedIn, Accepts, After, BodyBytes;
  }

  lemma TallyNext(w: World, front: seq<Event>, ev: Event, k: Key, op: OpenOp)
    requires Good(w.s) && op.resp.Some? && Tallying(w, front, k, op)
    ensures Tallying(w, front + [ev], k, op) || CompletesAt(w, front + [ev], k, op, |front|) || AbortsAt(w, front + [ev], k, op, |front|)
  {
    var evs, s := front + [ev], After(w, front).s;
    hide Fold, Good, Completed, Aborted, AbortedIn, Foreign, OpensOn, After;
    assert evs[..|front|] == front && evs[..|evs| - 1] == front;
    GoodRun(w, front);
    NextState(w, front, ev);
    var n := op.resp.value.bodySeen + BodyBytes(w, front, k);
    TallyStep(s, ev, k, Seen(op, n));
    SeenEnds(op, n);
    assert BodyBytes(w, evs, k) == BodyBytes(w, front, k) + (if Accepts(s, ev, k) then ReadLen(ev) else 0);
  }

  /** The count of bytes seen shows in no record. */
  lemma SeenEnds(op: OpenOp, n: nat)
    requires op.resp.Some?
    ensures forall r, ts :: Completed(r, Seen(op, n), Seen(op, n).resp.value, ts) <==> Completed(r, op, op.resp.value, ts)
    ensures forall r :: Aborted(r, Seen(op, n)) <==> Aborted(r, op)
    ensures forall log :: AbortedIn(log, Seen(op, n)) <==> AbortedIn(log, op)
  {
  }

  // ---------------------------------------------------------------------------------------
  // Chunking
  // ---------------------------------------------------------------------------------------

  /** A read or body length of the op's own connection. */
  predicate OwnRead(ev: Event, k: Key, op: OpenOp) {
    && IsRead(ev) && ReadKey(ev) == k
    && (k.fd != 0 || ReadCookie(ev) == 0 || op.cookie.None? || op.cookie == Some(ReadCookie(ev)))
  }

  predicate Chunks(evs: seq<Event>, k: Key, op: OpenOp) {
    forall i :: 0 <= i < |evs| ==> OwnRead(evs[i], k, op)
  }

  /** The bytes of a body, chunk by chunk. */
  function Total(evs: seq<Event>): nat
    requires forall i :: 0 <= i < |evs| ==> IsRead(evs[i])
  {
    if evs == [] then 0 else Total(evs[..|evs| - 1]) + ReadLen(evs[|evs| - 1])
  }

  /** `s` with the op at `k` advanced to `n` body bytes. */
  function Counted(s: State, k: Key, op: OpenOp, n: nat, ts: nat): State
    requires k in s.ops && op.resp.Some?
  {
    SetSlot(s, k, s.ops[k].(open := Some(Seen(op, n)), lastTs := ts))
  }

  lemma OwnIsAccepted(s: State, ev: Event, k: Key, op: OpenOp)
    requires OwnRead(ev, k, op) && OpenAt(s, k).Some? && OpenAt(s, k).value.cookie == op.cookie
    ensures Accepts(s, ev, k)
  {
  }

  lemma CountNext(s: State, k: Key, op: OpenOp, n: nat, ts: nat, ts': nat, len: nat)
    requires k in s.ops && op.resp.Some? && op.resp.value.bodyTarget <= Http.MAX_CONTENT_LENGTH
    requires n + len < op.resp.value.bodyTarget
    ensures Tally(Counted(s, k, op, n, ts), k, ts', len) == (Counted(s, k, op, n + len, ts'), None)
  {
    hide BuildOp;
    Saturates(n, len, op.resp.value.bodyTarget);
    var t := Tally(Counted(s, k, op, n, ts), k, ts', len).0;
    assert t.ops == Counted(s, k, op, n + len, ts').ops;
  }

  /** A chunk short of the length is only counted. */
  lemma ChunkStep(s: State, k: Key, op: OpenOp, n: nat, ts: nat, ev: Event)
    requires k in s.ops && op.resp.Some? && op.resp.value.bodyTarget <= Http.MAX_CONTENT_LENGTH
    requires OwnRead(ev, k, op) && n + ReadLen(ev) < op.resp.value.bodyTarget && Good(Counted(s, k, op, n, ts))
    ensures Fold(Counted(s, k, op, n, ts), ev) == (Counted(s, k, op, n + ReadLen(ev), ReadTs(ev)), None)
  {
    hide Good, Fold, Accepts, Counted;
    CountedOpen(s, k, op, n, ts);
    OwnIsAccepted(Counted(s, k, op, n, ts), ev, k, op);
    AcceptedIsTally(Counted(s, k, op, n, ts), ev, k);
    CountNext(s, k, op, n, ts, ReadTs(ev), ReadLen(ev));
  }

  /** The chunk that reaches the length completes the op. */
  lemma LastChunk(s: State, k: Key, op: OpenOp, n: nat, ts: nat, ev: Event)
    requires k in s.ops && op.resp.Some? && op.resp.value.bodyTarget <= Http.MAX_CONTENT_LENGTH
    requires OwnRead(ev, k, op) && n + ReadLen(ev) >= op.resp.value.bodyTarget && Good(Counted(s, k, op, n, ts))
    ensures Fold(Counted(s, k, op, n, ts), ev).1 == Some(BuildOp(s, k, op, FactsOf(op.resp.value, Some(ReadTs(ev)))))
  {
    hide Good, Fold, Accepts, Counted, BuildOp;
    CountedOpen(s, k, op, n, ts);
    OwnIsAccepted(Counted(s, k, op, n, ts), ev, k, op);
    AcceptedIsTally(Counted(s, k, op, n, ts), ev, k);
    TallyEnds(Counted(s, k, op, n, ts), k, ReadTs(ev), ReadLen(ev), Seen(op, n));
    SameRecord(s, k, op, n, ts, ReadTs(ev));
  }

  lemma {:induction false} ChunkRun(w: World, evs: seq<Event>, k: Key, op: OpenOp) returns (ts: nat)
    requires Good(w.s) && OpenAt(w.s, k) == Some(op) && op.resp.Some? && Chunks(evs, k, op)
    requires op.resp.value.bodySeen + Total(evs) < op.resp.value.bodyTarget <= Http.MAX_CONTENT_LENGTH
    ensures After(w, evs).s == Counted(w.s, k, op, op.resp.value.bodySeen + Total(evs), ts)
    ensures After(w, evs).returned == w.returned
  {
    hide Good, Fold, Advance, Counted;
    if evs == [] {
      ts := w.s.ops[k].lastTs;
      CountedSelf(w.s, k, op);
    } else {
      var front, ev := evs[..|evs| - 1], evs[|evs| - 1];
      ts := ChunkRun(w, front, k, op);
      GoodRun(w, front);
      ChunkStep(w.s, k, op, op.resp.value.bodySeen + Total(front), ts, ev);
      NextState(w, front, ev);
      NextReturned(w, front, ev);
      assert evs == front + [ev];
      ts := ReadTs(ev);
    }
  }

  lemma CountedSelf(s: State, k: Key, op: OpenOp)
    requires OpenAt(s, k) == Some(op) && op.resp.Some?
    ensures s == Counted(s, k, op, op.resp.value.bodySeen, s.ops[k].lastTs)
  {
    assert s.ops == Counted(s, k, op, op.resp.value.bodySeen, s.ops[k].lastTs).ops;
  }

  lemma CountedOpen(s: State, k: Key, op: OpenOp, n: nat, ts: nat)
    requires k in s.ops && op.resp.Some?
    ensures OpenAt(Counted(s, k, op, n, ts), k) == Some(Seen(op, n))
  {
  }

  /** A record depends on the op's request and the names known, not on the count of bytes seen. */
  lemma SameRecord(s: State, k: Key, op: OpenOp, n: nat, ts: nat, ts': nat)
    requires k in s.ops && op.resp.Some?
    ensures BuildOp(Touch(Counted(s, k, op, n, ts), k, ts'), k, Seen(op, n), FactsOf(Seen(op, n).resp.value, Some(ts')))
         == BuildOp(s, k, op, FactsOf(op.resp.value, Some(ts')))
  {
    hide Elapsed;
    assert Seen(op, n).resp.value.bodyTarget == op.resp.value.bodyTarget;
  }

  /**
    Chunking invariance: whatever the chunks of the body before, the op completes on the read that
    takes the total to the declared length, in one and the same record.
   */
  lemma ChunkingInvariant(w: World, evs: seq<Event>, last: Event, k: Key, op: OpenOp)
    requires Good(w.s) && OpenAt(w.s, k) == Some(op) && op.resp.Some?
    requires Chunks(evs, k, op) && OwnRead(last, k, op)
    requires op.resp.value.bodySeen + Total(evs) < op.resp.value.bodyTarget <= op.resp.value.bodySeen + Total(evs) + ReadLen(last)
    ensures After(w, evs).returned == w.returned
    ensures After(w, evs + [last]).returned
         == w.returned + [BuildOp(w.s, k, op, FactsOf(op.resp.value, Some(ReadTs(last))))]
  {
    hide Good, Counted, BuildOp, After, Fold;
    TargetBound(w.s, k, op);
    var ts := ChunkRun(w, evs, k, op);
    GoodRun(w, evs);
    LastChunk(w.s, k, op, op.resp.value.bodySeen + Total(evs), ts, last);
    NextReturned(w, evs, last);
  }

  lemma TargetBound(s: State, k: Key, op: OpenOp)
    requires Good(s) && OpenAt(s, k) == Some(op) && op.resp.Some?
    ensures op.resp.value.bodyTarget <= Http.MAX_CONTENT_LENGTH
  {
    hide Inverse, Caps;
    assert SlotOk(k, s.ops[k]);
  }

  lemma TallyEnds(s: State, k: Key, ts: nat, len: nat, op: OpenOp)
    requires OpenAt(s, k) == Some(op) && op.resp.Some?
    requires op.resp.value.bodyTarget <= Http.MAX_CONTENT_LENGTH && op.resp.value.bodySeen + len >= op.resp.value.bodyTarget
    ensures Tally(s, k, ts, len).1 == Some(BuildOp(Touch(s, k, ts), k, op, FactsOf(op.resp.value, Some(ts))))
  {
    hide BuildOp, Touch, SetOpen;
    TouchSlot(s, k, ts);
  }

  /**
    A final head that announces a body starts the tally at the body bytes it brought along, or
    completes the op at once when it brought them all.
   */
  lemma HeadStarts(s: State, e: EvtTlsData, op: OpenOp)
    requires OpenAt(s, Key(e.tgid, e.fd)) == Some(op) && op.resp.None? && !Foreign(s, Key(e.tgid, e.fd), e.cookie)
    ensures var k, status, (s', out) := Key(e.tgid, e.fd), Http.ParseStatus(e.data).GetOr(0), OnTlsRead(s, e);
            status > 199 && ExpectsBody(Some(op), HeadOf(e, status)) ==>
              var h := HeadOf(e, status);
              var brought := SatSub(e.len, h.headerEnd.value);
              var rs := RespState(e.ts, status, h.requestId, e.len, h.truncated, h.contentLength.value, brought);
              if brought < h.contentLength.value then out == None && OpenAt(s', k) == Some(op.(resp := Some(rs)))
              else OpenAt(s', k) == None && out.Some? && Completed(out.value, op, rs, e.ts)
  {
    hide HeadOf, Touch, SetOpen, Foreign, Http.ParseStatus, Http.SameIgnoringCase, DnsForIp, OpSniBucket, EndpointIp,
      OpConn, OpCookie;
    var k, status := Key(e.tgid, e.fd), Http.ParseStatus(e.data).GetOr(0);
    TouchSlot(s, k, e.ts);
    var h, s1 := HeadOf(e, status), Touch(s, k, e.ts);
    if status > 199 && ExpectsBody(Some(op), h) {
      HeadStatus(e, status);
      SetOpenAt(s1, k, None);
      var rs := RespState(e.ts, status, h.requestId, e.len, h.truncated, h.contentLength.value, SatSub(e.len, h.headerEnd.value));
      SetOpenAt(s1, k, Some(op.(resp := Some(rs))));
    }
  }

  lemma HeadStatus(e: EvtTlsData, status: nat)
    ensures HeadOf(e, status).status == status
  {
  }

  /** Whether the read brings the final head of a response to `op` whose body is to be tallied. */
  predicate AnnouncesBody(op: OpenOp, e: EvtTlsData) {
    && Http.ParseStatus(e.data).Some? && Http.ParseStatus(e.data).value > 199
    && ExpectsBody(Some(op), HeadOf(e, Http.ParseStatus(e.data).value))
  }

  /** The tally such a head starts, at the body bytes it brought along. */
  function Tallied(op: OpenOp, e: EvtTlsData): RespState
    requires AnnouncesBody(op, e)
  {
    var status := Http.ParseStatus(e.data).value;
    var h := HeadOf(e, status);
    RespState(e.ts, status, h.requestId, e.len, h.truncated, h.contentLength.value, SatSub(e.len, h.headerEnd.value))
  }

  /** A fold's own effect does not depend on what was folded first. */
  lemma {:induction false} AfterSplits(w: World, a: seq<Event>, b: seq<Event>)
    ensures After(w, a + b).s == After(After(w, a), b).s
    ensures After(w, a + b).returned == After(After(w, a), b).returned
  {
    hide Fold, Advance;
    if b == [] {
      assert a + b == a;
    } else {
      var front, ev := b[..|b| - 1], b[|b| - 1];
      AfterSplits(w, a, front);
      NextState(w, a + front, ev);
      NextReturned(w, a + front, ev);
      NextState(After(w, a), front, ev);
      NextReturned(After(w, a), front, ev);
      assert a + b == a + front + [ev] && b == front + [ev];
    }
  }

  lemma HeadTallied(s: State, e: EvtTlsData, op: OpenOp)
    requires OpenAt(s, Key(e.tgid, e.fd)) == Some(op) && op.resp.None? && !Foreign(s, Key(e.tgid, e.fd), e.cookie)
    requires AnnouncesBody(op, e)
    ensures var rs, (s', out) := Tallied(op, e), OnTlsRead(s, e);
            if rs.bodySeen < rs.bodyTarget then out == None && OpenAt(s', Key(e.tgid, e.fd)) == Some(op.(resp := Some(rs)))
            else out.Some? && Completed(out.value, op, rs, e.ts)
  {
    hide OnTlsRead, ExpectsBody, HeadOf, Http.ParseStatus, Foreign, Completed;
    HeadStarts(s, e, op);
  }

  lemma HeadFolds(w: World, e: EvtTlsData, op: OpenOp)
    requires OpenAt(w.s, Key(e.tgid, e.fd)) == Some(op) && op.resp.None? && !Foreign(w.s, Key(e.tgid, e.fd), e.cookie)
    requires AnnouncesBody(op, e)
    ensures var rs, (s', out) := Tallied(op, e), OnTlsRead(w.s, e);
            && After(w, [TlsRead(e)]).s == s' && After(w, [TlsRead(e)]).returned == w.returned + Listed(out)
            && if rs.bodySeen < rs.bodyTarget then out == None && OpenAt(s', Key(e.tgid, e.fd)) == Some(op.(resp := Some(rs)))
               else out.Some? && Completed(out.value, op, rs, e.ts)
  {
    hide OnTlsRead, AnnouncesBody, Tallied, Foreign, Completed, Advance;
    HeadTallied(w.s, e, op);
    assert [] + [TlsRead(e)] == [TlsRead(e)];
    NextState(w, [], TlsRead(e));
    NextReturned(w, [], TlsRead(e));
  }

  lemma CompletedRequest(r: Operation, op: OpenOp, rs: RespState, ts: nat)
    ensures Completed(r, op.(resp := Some(rs)), rs, ts) <==> Completed(r, op, rs, ts)
  {
  }

  /**
    A whole response, from the read that brings its head to the record: however the head and the body are
    split, the op is returned once, complete, by the event that takes the body bytes to the
    declared length, be it the head's own read or the last of the chunks behind it.
   */
  lemma WholeResponse(w: World, head: EvtTlsData, chunks: seq<Event>, k: Key, op: OpenOp) returns (r: Operation)
    requires Good(w.s) && k == Key(head.tgid, head.fd) && OpenAt(w.s, k) == Some(op) && op.resp.None?
    requires !Foreign(w.s, k, head.cookie) && AnnouncesBody(op, head) && Chunks(chunks, k, op)
    requires Tallied(op, head).bodySeen + Total(chunks) >= Tallied(op, head).bodyTarget
    requires chunks != [] ==> Tallied(op, head).bodySeen + Total(chunks[..|chunks| - 1]) < Tallied(op, head).bodyTarget
    ensures chunks != [] ==> After(w, [TlsRead(head)] + chunks[..|chunks| - 1]).returned == w.returned
    ensures After(w, [TlsRead(head)] + chunks).returned == w.returned + [r]
    ensures Completed(r, op, Tallied(op, head), if chunks == [] then head.ts else ReadTs(chunks[|chunks| - 1]))
  {
    hide Good, After, Fold, OnTlsRead, BuildOp, Completed, AnnouncesBody, Tallied, Foreign;
    var rs := Tallied(op, head);
    HeadFolds(w, head, op);
    if chunks == [] {
      r := OnTlsRead(w.s, head).1.value;
      assert [TlsRead(head)] + chunks == [TlsRead(head)];
    } else {
      var front, last := chunks[..|chunks| - 1], chunks[|chunks| - 1];
      var next := op.(resp := Some(rs));
      var w1 := After(w, [TlsRead(head)]);
      GoodRun(w, [TlsRead(head)]);
      assert chunks == front + [last];
      TotalGrows(front, last);
      ChunkingInvariant(w1, front, last, k, next);
      r := BuildOp(w1.s, k, next, FactsOf(rs, Some(ReadTs(last))));
      BuildCompleted(w1.s, k, next, ReadTs(last));
      CompletedRequest(r, op, rs, ReadTs(last));
      AfterSplits(w, [TlsRead(head)], front);
      AfterSplits(w, [TlsRead(head)], chunks);
    }
  }

  lemma TotalGrows(front: seq<Event>, last: Event)
    requires IsRead(last) && forall i :: 0 <= i < |front| ==> IsRead(front[i])
    ensures Total(front + [last]) == Total(front) + ReadLen(last)
  {
    assert (front + [last])[..|front|] == front;
  }

  /**
    On the fallback slot, an op that came with a cookie is advanced, and completed, only by reads
    carrying that cookie or none: any other event leaves it as it is or emits it as aborted.
   */
  lemma BioGuard(s: State, ev: Event, k: Key, op: OpenOp)
    requires Good(s) && OpenAt(s, k) == Some(op) && k.fd == 0 && op.cookie.Some?
    requires !(IsRead(ev) && ReadKey(ev) == k && (ReadCookie(ev) == 0 || Some(ReadCookie(ev)) == op.cookie))
    ensures var (s', out) := Fold(s, ev);
            || OpenAt(s', k) == Some(op)
            || AbortedIn(s'.flushed, op)
            || (OpensOn(ev, k) && out.Some? && Aborted(out.value, op))
  {
    hide Fold, Good, Aborted, AbortedIn, Opens;
    if OpensOn(ev, k) {
      InterruptedAborted(s, ev, op);
    } else {
      FoldPasses(s, ev, k);
    }
  }
}
