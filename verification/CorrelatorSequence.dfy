/**
  Request sequence numbers: 0, 1, 2 and so on within one life of a slot, and 0 again after every
  conn_id for its key, every reclaim of the slot, and every change of connection on the fallback slot.
 */
module CorrelatorSequence {
  import opened Wrappers
  import opened Eviction
  import opened CorrelatorState
  import opened CorrelatorRuns
  import opened CorrelatorSlots
  import opened CorrelatorAttribution
  import Http = HttpHead

  /** The slot at `k`, if it is there after the fold, was there before, with the same sequence and cookie. */
  predicate Continued(s: State, s': State, k: Key) {
    k in s'.ops ==> k in s.ops && s'.ops[k].nextSeq == s.ops[k].nextSeq && s'.ops[k].lastBio == s.ops[k].lastBio
  }

  lemma TouchContinues(s: State, k: Key, ts: nat)
    ensures Continued(s, Touch(s, k, ts), k)
  {
  }

  lemma SetOpenContinues(s: State, t: State, k: Key, op: Option<OpenOp>)
    requires Continued(s, t, k) && k in t.ops
    ensures Continued(s, SetOpen(t, k, op), k)
  {
  }

  lemma TallyContinues(s: State, k: Key, ts: nat, len: nat)
    ensures Continued(s, Tally(s, k, ts, len).0, k)
  {
    hide BuildOp, Touch, SetOpen, Continued;
    TouchContinues(s, k, ts);
    var s1 := Touch(s, k, ts);
    var op := OpenAt(s1, k);
    if op.Some? && op.value.resp.Some? {
      var rs := op.value.resp.value;
      SetOpenContinues(s, s1, k, None);
      SetOpenContinues(s, s1, k, Some(op.value.(resp := Some(rs.(bodySeen := SatAdd(rs.bodySeen, len))))));
    }
  }

  lemma FinalContinues(s: State, k: Key, e: EvtTlsData, h: FinalHead)
    ensures Continued(s, Final(s, k, e, h).0, k)
  {
    hide BuildOp, Touch, SetOpen, Continued, FinalFacts, Http.SameIgnoringCase;
    TouchContinues(s, k, e.ts);
    var s1 := Touch(s, k, e.ts);
    var op := OpenAt(s1, k);
    if op.Some? {
      SetOpenContinues(s, s1, k, None);
      if ExpectsBody(op, h) {
        SetOpenContinues(s, s1, k, Some(op.value.(resp := Some(
          RespState(e.ts, h.status, h.requestId, e.len, h.truncated, h.contentLength.value, SatSub(e.len, h.headerEnd.value))))));
      }
    }
  }

  lemma InterimContinues(s: State, k: Key, ts: nat)
    ensures Continued(s, Interim(s, k, ts), k)
  {
    hide Touch, SetOpen, Continued;
    TouchContinues(s, k, ts);
    var op := OpenAt(Touch(s, k, ts), k);
    if op.Some? {
      SetOpenContinues(s, Touch(s, k, ts), k, Some(op.value.(interimTs := op.value.interimTs.Or(Some(ts)))));
    }
  }

  lemma AcceptedContinues(s: State, ev: Event, k: Key)
    requires Accepts(s, ev, k)
    ensures Continued(s, Fold(s, ev).0, k)
  {
    hide Tally, Final, Interim, HeadOf, Http.ParseStatus, AwaitingBody, Foreign, Continued;
    Stands(s, k);
    TallyContinues(s, k, ReadTs(ev), ReadLen(ev));
    if ev.TlsRead? {
      InterimContinues(s, k, ev.read.ts);
      if Http.ParseStatus(ev.read.data).Some? {
        FinalContinues(s, k, ev.read, HeadOf(ev.read, Http.ParseStatus(ev.read.data).value));
      }
    }
  }

  lemma Stands(s: State, k: Key)
    ensures Continued(s, s, k)
  {
  }

  lemma FoldContinues(s: State, ev: Event, k: Key)
    requires Good(s) && !OpensOn(ev, k)
    ensures Continued(s, Fold(s, ev).0, k)
  {
    hide Good, Fold, OpensOn, Foreign;
    if Accepts(s, ev, k) {
      AcceptedContinues(s, ev, k);
    } else {
      FoldPasses(s, ev, k);
    }
  }

  ghost predicate NoneOpensOn(evs: seq<Event>, k: Key, lo: nat, hi: nat) {
    forall m :: lo <= m < hi && m < |evs| ==> !OpensOn(evs[m], k)
  }

  /** Between two requests a slot still there has been there all along, unchanged in what numbers requests. */
  lemma {:induction false} SlotBetween(w: World, evs: seq<Event>, k: Key, n: nat)
    requires Good(w.s) && n <= |evs| && NoneOpensOn(evs, k, n, |evs|)
    ensures Continued(After(w, evs[..n]).s, After(w, evs).s, k)
    ensures k in After(w, evs).s.ops ==> forall m :: n <= m <= |evs| ==> k in After(w, evs[..m]).s.ops
    decreases |evs|
  {
    hide Good, Fold, After, OpensOn;
    if n == |evs| {
      assert evs[..n] == evs;
    } else {
      var front, ev := evs[..|evs| - 1], evs[|evs| - 1];
      assert front[..n] == evs[..n] && evs == front + [ev] && evs[..|evs|] == evs;
      SlotBetween(w, front, k, n);
      GoodRun(w, front);
      FoldContinues(After(w, front).s, ev, k);
      NextState(w, front, ev);
      forall m | n <= m <= |evs| && k in After(w, evs).s.ops ensures k in After(w, evs[..m]).s.ops {
        assert m < |evs| ==> evs[..m] == front[..m];
      }
    }
  }

  /** The number the request folded at `i` was given. */
  ghost function SeqAt(w: World, evs: seq<Event>, i: nat): nat
    requires i < |evs| && Opens(evs[i])
  {
    OpOf(After(w, evs[..i]).s, evs[i]).reqSeq
  }

  /** The request at `j` came on the connection the slot was last used by, as far as its cookie tells. */
  ghost predicate SameBio(w: World, evs: seq<Event>, j: nat, k: Key)
    requires j < |evs| && Opens(evs[j])
  {
    !BioChanged(SlotAt(After(w, evs[..j]).s, k), BioCookie(evs[j].write))
  }

  lemma OpenedSeq(s: State, ev: Event)
    requires Opens(ev)
    ensures var k, s' := WriteKey(ev), Fold(s, ev).0;
            && k in s'.ops && s'.ops[k].nextSeq == OpOf(s, ev).reqSeq + 1
            && OpOf(s, ev).reqSeq == NextSeq(SlotAt(s, k), BioCookie(ev.write))
  {
    hide OnTlsWrite, ResolveRequest, HeadTruncated, Http.ParseRequest, BioChanged;
    WriteOpens(s, ev.write, Http.ParseRequest(ev.write.data).value);
  }

  /**
    Of two requests on one key with none between, the second is numbered one up from the first if
    the slot lived on between them and its connection did not change, and 0 otherwise.
   */
  lemma SequenceStep(w: World, evs: seq<Event>, i: nat, j: nat, k: Key)
    requires Good(w.s) && i < j < |evs| && OpensOn(evs[i], k) && OpensOn(evs[j], k) && NoneOpensOn(evs, k, i + 1, j)
    ensures SeqAt(w, evs, j)
         == if (forall m :: i < m <= j ==> k in After(w, evs[..m]).s.ops) && SameBio(w, evs, j, k) then SeqAt(w, evs, i) + 1 else 0
  {
    hide Good, Fold, After, OpOf, Http.ParseRequest, BioChanged;
    var front := evs[..j];
    assert forall m :: 0 <= m <= j ==> front[..m] == evs[..m];
    assert evs[..i + 1] == evs[..i] + [evs[i]];
    NextState(w, evs[..i], evs[i]);
    OpenedSeq(After(w, evs[..i]).s, evs[i]);
    SlotBetween(w, front, k, i + 1);
    OpenedSeq(After(w, front).s, evs[j]);
    assert k in After(w, front).s.ops <==> (forall m :: i < m <= j ==> k in After(w, evs[..m]).s.ops);
  }

  /** The first request a key ever sees is number 0. */
  lemma FirstIsZero(maxOpen: nat, endpoints: seq<string>, salt: string, evs: seq<Event>, j: nat, k: Key)
    requires j < |evs| && OpensOn(evs[j], k) && NoneOpensOn(evs, k, 0, j)
    ensures SeqAt(Start(maxOpen, endpoints, salt), evs, j) == 0
  {
    hide Good, Fold, OpOf, Http.ParseRequest, BioChanged;
    var start, front := Start(maxOpen, endpoints, salt), evs[..j];
    GoodAlways(maxOpen, endpoints, salt, []);
    assert front[..0] == [];
    SlotBetween(start, front, k, 0);
    OpenedSeq(After(start, front).s, evs[j]);
  }

  /** A conn_id for the key always restarts it. */
  lemma ConnIdRestarts(w: World, evs: seq<Event>, i: nat, m: nat, j: nat, k: Key)
    requires Good(w.s) && i < m < j < |evs| && OpensOn(evs[i], k) && OpensOn(evs[j], k) && NoneOpensOn(evs, k, i + 1, j)
    requires evs[m].ConnId? && Key(evs[m].connId.tgid, evs[m].connId.fd) == k
    ensures SeqAt(w, evs, j) == 0
  {
    hide Good, After, OpOf, OnConnId, SeqAt, OpensOn, SameBio;
    assert evs[..m + 1] == evs[..m] + [evs[m]];
    NextState(w, evs[..m], evs[m]);
    ConnIdPasses(After(w, evs[..m]).s, evs[m].connId, k);
    assert k !in After(w, evs[..m + 1]).s.ops;
    SequenceStep(w, evs, i, j, k);
  }
}
