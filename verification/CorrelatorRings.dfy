/**
  The two rings. `tls_events` carries conn_ids, request writes, response reads and body lengths in
  order; the correlator's other inputs ride `events`, with no order between the two. Every entry is
  traced to the connection that really produced it, so that what is joined can be told from what ought
  to have been. However the rings interleave, a descriptor's record takes the cookie of its last delivered
  conn_id, and no response byte is credited across one.
 */
module CorrelatorRings {
  import opened Wrappers
  import opened CorrelatorState
  import opened CorrelatorRuns
  import opened CorrelatorAttribution
  import Http = HttpHead

  datatype Ring = TlsEvents | Events

  predicate OnRing(ev: Event, ring: Ring) {
    match ring
    case TlsEvents => ev.ConnId? || ev.TlsWrite? || ev.TlsRead? || ev.TlsBody?
    case Events =>
      ev.Connect? || ev.Close? || ev.Handshake? || ev.Server? || ev.DnsQuery? || ev.DnsResponse? || ev.Getaddrinfo?
  }

  /** The descriptor an event of the tls ring names. */
  function RingKey(ev: Event): Key
    requires OnRing(ev, TlsEvents)
  {
    match ev
    case ConnId(e) => Key(e.tgid, e.fd)
    case TlsWrite(e) => Key(e.tgid, e.fd)
    case TlsRead(e) => Key(e.tgid, e.fd)
    case TlsBody(e) => Key(e.tgid, e.fd)
  }

  /** What a ring delivered: the fold's events with everything that does not ride it left out. */
  function Part(evs: seq<Event>, ring: Ring): seq<Event> {
    if evs == [] then []
    else Part(evs[..|evs| - 1], ring) + (if OnRing(evs[|evs| - 1], ring) then [evs[|evs| - 1]] else [])
  }

  /** A ring entry with the connection that really produced it. */
  datatype Traced = Traced(ev: Event, life: nat)

  predicate Carries(log: seq<Traced>, evs: seq<Event>) {
    |log| == |evs| && forall i :: 0 <= i < |log| ==> log[i].ev == evs[i]
  }

  predicate Announces(ev: Event, k: Key) { ev.ConnId? && Key(ev.connId.tgid, ev.connId.fd) == k }

  /** The position of the last conn_id for `k`. */
  function LastConnect(log: seq<Traced>, k: Key): (c: Option<nat>)
    ensures c.Some? ==> c.value < |log| && Announces(log[c.value].ev, k)
  {
    if log == [] then None
    else if Announces(log[|log| - 1].ev, k) then Some(|log| - 1)
    else LastConnect(log[..|log| - 1], k)
  }

  /** `log[i]` is of the connection that the last conn_id for `k` ahead of it announced. */
  predicate FromLastConnect(log: seq<Traced>, i: nat, k: Key)
    requires i < |log|
  {
    var c := LastConnect(log[..i], k);
    c.Some? && log[c.value].life == log[i].life
  }

  /** The connection that produced `log[i]` announced itself for `k` on the ring, before, under this cookie. */
  ghost predicate AnnouncedAs(log: seq<Traced>, i: nat, k: Key, cookie: Cookie)
    requires i < |log|
  {
    exists j :: 0 <= j < i && Announces(log[j].ev, k) && log[j].life == log[i].life && log[j].ev.connId.cookie == cookie
  }

  /** A prefix of the fold delivered a prefix of the ring. */
  lemma {:induction false} PartPrefix(evs: seq<Event>, n: nat, ring: Ring)
    requires n <= |evs|
    ensures Part(evs[..n], ring) <= Part(evs, ring)
    decreases |evs|
  {
    if n < |evs| {
      PartPrefix(evs[..|evs| - 1], n, ring);
      assert evs[..|evs| - 1][..n] == evs[..n];
    } else {
      assert evs[..n] == evs;
    }
  }

  /** A ring event of the fold sits in the ring right after the prefix delivered before it. */
  lemma PlaceOnRing(evs: seq<Event>, log: seq<Traced>, at: nat, ring: Ring)
    requires at < |evs| && OnRing(evs[at], ring) && Carries(log, Part(evs, ring))
    ensures var i := |Part(evs[..at], ring)|;
            i < |log| && log[i].ev == evs[at] && Carries(log[..i], Part(evs[..at], ring))
  {
    PartPrefix(evs, at + 1, ring);
    PartPrefix(evs, at, ring);
    assert evs[..at + 1][..at] == evs[..at];
    assert Part(evs[..at + 1], ring) == Part(evs[..at], ring) + [evs[at]];
  }

  /** The fold's last conn_id for a key is the ring's. */
  lemma {:induction false} LastBoundOnRing(evs: seq<Event>, log: seq<Traced>, k: Key)
    requires Carries(log, Part(evs, TlsEvents))
    ensures match LastBound(evs, k)
            case None => LastConnect(log, k) == None
            case Some(b) =>
              && b.at < |evs|
              && LastConnect(log, k) == Some(|Part(evs[..b.at], TlsEvents)|)
              && log[LastConnect(log, k).value].ev.connId.cookie == b.cookie
    decreases |evs|
  {
    if evs != [] {
      var front, ev := evs[..|evs| - 1], evs[|evs| - 1];
      if OnRing(ev, TlsEvents) {
        assert log[|log| - 1].ev == ev;
        if Announces(ev, k) {
        } else {
          LastBoundOnRing(front, log[..|log| - 1], k);
          FrontPrefix(evs, k);
        }
      } else {
        LastBoundOnRing(front, log, k);
        FrontPrefix(evs, k);
      }
    }
  }

  lemma {:induction false} BoundInRange(evs: seq<Event>, k: Key)
    ensures LastBound(evs, k).Some? ==> LastBound(evs, k).value.at < |evs|
  {
    if evs != [] {
      BoundInRange(evs[..|evs| - 1], k);
    }
  }

  lemma FrontPrefix(evs: seq<Event>, k: Key)
    requires evs != []
    ensures var b := LastBound(evs[..|evs| - 1], k);
            b.Some? ==> b.value.at < |evs| && evs[..|evs| - 1][..b.value.at] == evs[..b.value.at]
  {
    BoundInRange(evs[..|evs| - 1], k);
  }

  /**
    However the two rings interleave, and whatever either lost, a record of a request written on a
    descriptor carries no cookie, or that of the descriptor's last conn_id delivered ahead of the request.
    So the cookie is one the connection that wrote the request announced, unless that conn_id
    was another connection's.
   */
  lemma NoForeignJoin(maxOpen: nat, endpoints: seq<string>, salt: string, evs: seq<Event>, log: seq<Traced>,
                      r: Operation)
    returns (at: nat, i: nat, c: Option<nat>)
    requires Carries(log, Part(evs, TlsEvents))
    requires Emitted(After(Start(maxOpen, endpoints, salt), evs), r)
    ensures Reports(Start(maxOpen, endpoints, salt), evs, r, at)
    ensures i < |log| && log[i].ev == evs[at] && c == LastConnect(log[..i], WriteKey(evs[at]))
    ensures WriteKey(evs[at]).fd != 0 && r.sockCookie != 0 ==>
              && c.Some? && log[c.value].ev.connId.cookie == r.sockCookie
              && (FromLastConnect(log, i, WriteKey(evs[at])) ==> AnnouncedAs(log, i, WriteKey(evs[at]), r.sockCookie))
  {
    hide Start, After;
    at := EveryRecordReports(maxOpen, endpoints, salt, evs, r);
    var start, k := Start(maxOpen, endpoints, salt), WriteKey(evs[at]);
    i := |Part(evs[..at], TlsEvents)|;
    PlaceOnRing(evs, log, at, TlsEvents);
    c := LastConnect(log[..i], k);
    LastBoundOnRing(evs[..at], log[..i], k);
    DescriptorOp(After(start, evs[..at]).s, evs[at]);
  }

  /** A request on a descriptor carries no cookie of its own. */
  lemma DescriptorOp(s: State, ev: Event)
    requires Opens(ev)
    ensures OpOf(s, ev).cookie.Some? ==> WriteKey(ev).fd == 0
  {
    hide ResolveRequest, HeadTruncated;
  }

  /**
    And no response byte is credited across a conn_id: when a read or a body length arrives for a
    descriptor with an op open, the last conn_id ahead of it is the one ahead of the op's request, the
    same entry or none for both. Each being of that entry's connection, they are of one connection.
   */
  lemma OwnResponses(maxOpen: nat, endpoints: seq<string>, salt: string, evs: seq<Event>, ev: Event, log: seq<Traced>)
    returns (at: nat, i: nat)
    requires ev.TlsRead? || ev.TlsBody?
    requires Carries(log, Part(evs + [ev], TlsEvents))
    ensures var start, k := Start(maxOpen, endpoints, salt), RingKey(ev);
            var open := OpenAt(After(start, evs).s, k);
            open.Some? ==>
              && at < |evs| && Opens(evs[at]) && WriteKey(evs[at]) == k
              && OpOf(After(start, evs[..at]).s, evs[at]).id == open.value.id
              && i < |log| - 1 && log[i].ev == evs[at] && log[|log| - 1].ev == ev
              && LastConnect(log[..|log| - 1], k) == LastConnect(log[..i], k)
              && (FromLastConnect(log, i, k) && FromLastConnect(log, |log| - 1, k) ==> log[i].life == log[|log| - 1].life)
  {
    hide Start, After, OpOf, Http.ParseRequest, LastBound, LastConnect, Carries;
    at, i := 0, 0;
    if OpenAt(After(Start(maxOpen, endpoints, salt), evs).s, RingKey(ev)).Some? {
      var o := OpenOrigin(maxOpen, endpoints, salt, evs, RingKey(ev));
      at := o.at;
      i := SameConnect(evs, ev, log, at);
    }
  }

  /** With no conn_id for its key since the write at `at`, a read is behind the same conn_id as the write. */
  lemma SameConnect(evs: seq<Event>, ev: Event, log: seq<Traced>, at: nat) returns (i: nat)
    requires ev.TlsRead? || ev.TlsBody?
    requires at < |evs| && evs[at].TlsWrite? && WriteKey(evs[at]) == RingKey(ev)
    requires LastBound(evs, RingKey(ev)) == LastBound(evs[..at], RingKey(ev))
    requires Carries(log, Part(evs + [ev], TlsEvents))
    ensures i < |log| - 1 && log[i].ev == evs[at] && log[|log| - 1].ev == ev
    ensures LastConnect(log[..|log| - 1], RingKey(ev)) == LastConnect(log[..i], RingKey(ev))
  {
    hide LastBound, LastConnect;
    var k := RingKey(ev);
    var front := log[..|log| - 1];
    assert (evs + [ev])[..|evs|] == evs;
    PlaceOnRing(evs + [ev], log, |evs|, TlsEvents);
    assert Part(evs + [ev], TlsEvents) == Part(evs, TlsEvents) + [ev];
    assert front == log[..|Part(evs, TlsEvents)|];
    PlaceOnRing(evs, front, at, TlsEvents);
    i := |Part(evs[..at], TlsEvents)|;
    assert front[..i] == log[..i];
    LastBoundOnRing(evs, front, k);
    LastBoundOnRing(evs[..at], log[..i], k);
    BoundPrefix(evs, at, k);
  }

  lemma BoundPrefix(evs: seq<Event>, at: nat, k: Key)
    requires at < |evs|
    ensures var b := LastBound(evs[..at], k); b.Some? ==> b.value.at < at && evs[..at][..b.value.at] == evs[..b.value.at]
  {
    BoundInRange(evs[..at], k);
  }

  /** The request an open op came from, with no conn_id for its key since. */
  lemma OpenOrigin(maxOpen: nat, endpoints: seq<string>, salt: string, evs: seq<Event>, k: Key) returns (o: Origin)
    requires OpenAt(After(Start(maxOpen, endpoints, salt), evs).s, k).Some?
    ensures OriginTrue(Start(maxOpen, endpoints, salt), evs, o)
    ensures o.key == k && o.conn == LastBound(evs, k)
    ensures SameRequest(OpenAt(After(Start(maxOpen, endpoints, salt), evs).s, k).value, o.op)
  {
    hide After, LogOk, LinksKnown, OriginTrue, LastBound;
    var start := Start(maxOpen, endpoints, salt);
    var w := After(start, evs);
    AlwaysAttributed(maxOpen, endpoints, salt, evs);
    AlwaysTrue(maxOpen, endpoints, salt, evs);
    BoundsTrue(start, evs, k);
    o := w.origins[OpenAt(w.s, k).value.id - 1];
  }

  /**
    Losing a plaintext event changes nothing for any other: an event is of the connection its last
    conn_id announced exactly when it was before the loss.
   */
  lemma LosingPlaintext(a: seq<Traced>, x: Traced, b: seq<Traced>, i: nat, k: Key)
    requires !x.ev.ConnId? && i < |a + b|
    ensures FromLastConnect(a + b, i, k) <==> FromLastConnect(a + [x] + b, if i < |a| then i else i + 1, k)
  {
    hide LastConnect;
    var whole, rest := a + [x] + b, a + b;
    if i < |a| {
      assert whole[i] == rest[i] && whole[..i] == rest[..i];
    } else {
      assert whole[i + 1] == rest[i];
      assert whole[..i + 1] == a + [x] + b[..i - |a|] && rest[..i] == a + b[..i - |a|];
      LosingOne(a, x, b[..i - |a|], k);
    }
  }

  lemma {:induction false} LosingOne(a: seq<Traced>, x: Traced, b: seq<Traced>, k: Key)
    requires !x.ev.ConnId?
    ensures LastConnect(a + [x] + b, k)
         == match LastConnect(a + b, k)
            case None => None
            case Some(c) => Some(if c < |a| then c else c + 1)
    decreases |b|
  {
    if b == [] {
      assert a + [x] + b == a + [x] && (a + [x])[..|a|] == a && a + b == a;
    } else {
      var front := b[..|b| - 1];
      assert (a + [x] + b)[..|a + [x] + b| - 1] == a + [x] + front;
      assert (a + b)[..|a + b| - 1] == a + front;
      LosingOne(a, x, front, k);
    }
  }

  lemma {:induction false} LastConnectStands(a: seq<Traced>, b: seq<Traced>, k: Key)
    requires forall j :: 0 <= j < |b| ==> !Announces(b[j].ev, k)
    ensures LastConnect(a + b, k) == LastConnect(a, k)
    decreases |b|
  {
    if b == [] {
      assert a + b == a;
    } else {
      var front := b[..|b| - 1];
      assert (a + b)[..|a + b| - 1] == a + front;
      LastConnectStands(a, front, k);
    }
  }

  /**
    Losing a conn_id, `x`, hands what is behind it, up to the key's next conn_id, to the one before it: such an
    event is then of its last conn_id's connection exactly when it is of that earlier one.
   */
  lemma LosingConnId(a: seq<Traced>, x: Traced, b: seq<Traced>, i: nat, k: Key)
    requires Announces(x.ev, k) && i < |b| && forall j :: 0 <= j < i ==> !Announces(b[j].ev, k)
    ensures FromLastConnect(a + [x] + b, |a| + 1 + i, k) <==> x.life == b[i].life
    ensures FromLastConnect(a + b, |a| + i, k) <==> LastConnect(a, k).Some? && a[LastConnect(a, k).value].life == b[i].life
  {
    var whole := a + [x] + b;
    assert whole[..|a| + 1 + i] == a + [x] + b[..i] && whole[|a| + 1 + i] == b[i];
    assert (a + b)[..|a| + i] == a + b[..i];
    assert LastConnect(a + [x], k) == Some(|a|) by { assert (a + [x])[|a|] == x; }
    LastConnectStands(a, b[..i], k);
    LastConnectStands(a + [x], b[..i], k);
  }
}
