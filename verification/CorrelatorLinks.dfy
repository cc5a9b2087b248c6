/**
  When a link stands. A conn_id links its descriptor to a cookie; which events of a run undo that is read
  off the run, with the evictions marked.
 */
module CorrelatorLinks {
  import opened Wrappers
  import opened Eviction
  import opened CorrelatorState
  import opened CorrelatorRuns
  import opened CorrelatorAttribution
  import opened CorrelatorFacts
  import opened CorrelatorRings
  import Http = HttpHead

  function LinkOf(id: EvtConnId): FdLink { FdLink(id.cookie, id.ts) }

  /**
    What undoes the link of `k`: the cookie connected by another process, closed by a close not stamped before
    the link, or announced on another descriptor.
   */
  predicate Severs(ev: Event, k: Key, link: FdLink) {
    match ev
    case Connect(e) => e.cookie == link.cookie && e.tgid != k.tgid
    case Close(e, _) => e.cookie == link.cookie && (e.ts == 0 || link.ts <= e.ts)
    case ConnId(e) => e.cookie == link.cookie && Key(e.tgid, e.fd) != k
    case _ => false
  }

  /** A conn_id whose pass over the links takes that of `k`. */
  ghost predicate EvictsLink(s: State, ev: Event, k: Key) {
    ev.ConnId? && k in LinkVictims(Relinked(s, ev.connId), Key(ev.connId.tgid, ev.connId.fd))
  }

  /** The link of `k` after an event, from the one before. */
  ghost predicate LinkFollows(s: State, s': State, ev: Event, k: Key) {
    Get(s'.fdLinks, k)
    == if Announces(ev, k) then Some(LinkOf(ev.connId))
       else if k !in s.fdLinks || Severs(ev, k, s.fdLinks[k]) || EvictsLink(s, ev, k) then None
       else Some(s.fdLinks[k])
  }

  // ---------------------------------------------------------------------------------------
  // One fold
  // ---------------------------------------------------------------------------------------

  lemma SameLinks(s: State, s': State, ev: Event, k: Key)
    requires s'.fdLinks == s.fdLinks && !ev.Connect? && !ev.Close? && !ev.ConnId?
    ensures LinkFollows(s, s', ev, k)
  {
  }

  lemma ConnectLinks(s: State, e: EvtConnect, k: Key)
    requires Inverse(s.fdLinks, s.fdRev)
    ensures LinkFollows(s, OnConnect(s, e), Connect(e), k)
  {
    hide FlushedWith, EvictOver, ConnStamps, ConnOf, StrictTotal;
  }

  lemma CloseLinks(s: State, e: EvtClose, pick: Option<Key>, k: Key)
    requires Inverse(s.fdLinks, s.fdRev)
    ensures LinkFollows(s, OnClose(s, e, pick), Close(e, pick), k)
  {
    hide FlushedWith;
  }

  lemma RelinkLinks(s: State, key: Key, link: FdLink, k: Key)
    requires Inverse(s.fdLinks, s.fdRev)
    ensures Get(Relink(s, key, link).fdLinks, k)
         == if k == key then Some(link)
            else if k in s.fdLinks && s.fdLinks[k].cookie == link.cookie then None
            else Get(s.fdLinks, k)
  {
    hide FlushedWith, FlushAndDrop, Inverse;
    DisplacedIs(s, key, link.cookie, k);
    if Displaced(s, key, link.cookie).Some? {
      FlushFrame(Bind(s, key, link), Displaced(s, key, link.cookie).value);
    }
  }

  /** What a relinked cookie displaces is the other descriptor that held it. */
  lemma DisplacedIs(s: State, key: Key, cookie: Cookie, k: Key)
    requires Inverse(s.fdLinks, s.fdRev)
    ensures Displaced(s, key, cookie) == Some(k) <==> k != key && k in s.fdLinks && s.fdLinks[k].cookie == cookie
  {
  }

  lemma RelinkedLinks(s: State, id: EvtConnId, k: Key)
    requires Inverse(s.fdLinks, s.fdRev)
    ensures var links := Relinked(s, id).fdLinks;
            Get(links, k)
            == if Key(id.tgid, id.fd) == k then Some(LinkOf(id))
               else if k in s.fdLinks && s.fdLinks[k].cookie == id.cookie then None
               else Get(s.fdLinks, k)
  {
    hide Relink, FlushedWith, Inverse;
    var key := Key(id.tgid, id.fd);
    RelinkLinks(if key in s.ops then FlushAndDrop(s, key) else s, key, LinkOf(id), k);
  }

  lemma ConnIdLinks(s: State, id: EvtConnId, k: Key)
    requires Good(s)
    ensures LinkFollows(s, OnConnId(s, id), ConnId(id), k)
  {
    hide Relinked, FlushAndDrop, Relink, DropLinks, Inverse, Caps, SlotsOk;
    var key := Key(id.tgid, id.fd);
    RelinkedLinks(s, id, k);
    RelinkedFrame(s, id);
    DropLinksFrame(Relinked(s, id), LinkVictims(Relinked(s, id), key));
    OwnIsKept(Relinked(s, id), key);
    assert OnConnId(s, id) == DropLinks(Relinked(s, id), LinkVictims(Relinked(s, id), key)) by { RelinkedIs(s, id); }
  }

  lemma RelinkedIs(s: State, id: EvtConnId)
    ensures var key := Key(id.tgid, id.fd);
            OnConnId(s, id) == DropLinks(Relinked(s, id), LinkVictims(Relinked(s, id), key))
  {
    hide FlushAndDrop, Relink, DropLinks, LinkVictims;
  }

  lemma OwnIsKept(s: State, key: Key)
    ensures key !in LinkVictims(s, key)
  {
    KeyOrders();
  }

  lemma WriteLinks(s: State, e: EvtTlsData)
    ensures OnTlsWrite(s, e).0.fdLinks == s.fdLinks
  {
    hide NewOp, SlotVictims, DropSlots, Interrupted, Http.ParseRequest, BioCookie, OpenedSlot;
    if Http.ParseRequest(e.data).Some? {
      var s1 := Opened(s, e, Http.ParseRequest(e.data).value);
      DropSlotsFrame(s1, SlotVictims(s1, Key(e.tgid, e.fd)));
    }
  }

  lemma DropSlotsLinks(s: State, order: seq<Key>)
    ensures DropSlots(s, order).fdLinks == s.fdLinks
  {
    hide DropSlots;
    DropSlotsFrame(s, order);
  }

  lemma NamesLinks(s: State, ev: Event)
    requires Good(s) && NamesOnly(ev)
    ensures Fold(s, ev).0.fdLinks == s.fdLinks
  {
    hide Fold, Good;
    NamesFrame(s, ev);
  }

  /** The rest of the events leave links alone. */
  lemma OthersLinks(s: State, ev: Event)
    requires Good(s) && !ev.Connect? && !ev.Close? && !ev.ConnId?
    ensures Fold(s, ev).0.fdLinks == s.fdLinks
  {
    if NamesOnly(ev) {
      hide Fold, Good;
      NamesLinks(s, ev);
    } else {
      hide OnTlsWrite, OnTlsRead, OnTlsReadBody, DropSlots, Good;
      match ev
      case TlsWrite(e) => WriteLinks(s, e);
      case TlsRead(e) => ReadKeeps(s, e);
      case TlsBody(e) => BodyKeeps(s, e);
      case FlushOpen(order) => DropSlotsLinks(s, order);
      case TakeFlushed =>
    }
  }

  lemma FoldLinks(s: State, ev: Event, k: Key)
    requires Good(s)
    ensures LinkFollows(s, Fold(s, ev).0, ev, k)
  {
    if ev.Connect? || ev.Close? || ev.ConnId? {
      hide OnConnect, OnClose, OnConnId, LinkFollows, Inverse, Caps, SlotsOk;
      match ev
      case Connect(e) => ConnectLinks(s, e, k);
      case Close(e, pick) => CloseLinks(s, e, pick, k);
      case ConnId(e) => ConnIdLinks(s, e, k);
    } else {
      hide Fold, Good, LinkFollows;
      OthersLinks(s, ev);
      SameLinks(s, Fold(s, ev).0, ev, k);
    }
  }

  // ---------------------------------------------------------------------------------------
  // Whole runs
  // ---------------------------------------------------------------------------------------

  /** `evs[b]` linked `k`, and nothing since has linked it anew, undone it or evicted it. */
  ghost predicate LinkedSince(start: World, evs: seq<Event>, k: Key, b: nat) {
    && b < |evs| && Announces(evs[b], k)
    && forall j :: b < j < |evs| ==> Undisturbed(start, evs, j, k, LinkOf(evs[b].connId))
  }

  ghost predicate Undisturbed(start: World, evs: seq<Event>, j: nat, k: Key, link: FdLink)
    requires j < |evs|
  {
    !Announces(evs[j], k) && !Severs(evs[j], k, link) && !EvictsLink(Ahead(start, evs, j), evs[j], k)
  }

  lemma LinkedNext(start: World, front: seq<Event>, ev: Event, k: Key, b: nat)
    ensures LinkedSince(start, front + [ev], k, b)
       <==> if b == |front| then Announces(ev, k)
            else LinkedSince(start, front, k, b) && !Announces(ev, k) && !Severs(ev, k, LinkOf(front[b].connId))
                 && !EvictsLink(After(start, front).s, ev, k)
  {
    hide Severs, EvictsLink, After;
    var evs := front + [ev];
    assert evs[..|front|] == front;
    assert forall j :: 0 <= j < |front| ==> evs[..j] == front[..j] && evs[j] == front[j];
    if b < |front| && Announces(front[b], k) {
      assert LinkedSince(start, evs, k, b) ==> Undisturbed(start, evs, |front|, k, LinkOf(front[b].connId));
      assert forall j :: b < j < |front| ==>
        (Undisturbed(start, evs, j, k, LinkOf(front[b].connId)) <==> Undisturbed(start, front, j, k, LinkOf(front[b].connId)));
    }
  }

  /** The conn_id, if any, that linked `k` and is undisturbed since. */
  ghost function Linker(start: World, evs: seq<Event>, k: Key): (b: Option<nat>)
    ensures b.Some? ==> b.value < |evs| && Announces(evs[b.value], k)
  {
    if evs == [] then None
    else
      var front, ev := evs[..|evs| - 1], evs[|evs| - 1];
      if Announces(ev, k) then Some(|front|)
      else
        match Linker(start, front, k)
        case None => None
        case Some(b) =>
          if Severs(ev, k, LinkOf(front[b].connId)) || EvictsLink(After(start, front).s, ev, k) then None else Some(b)
  }

  /** It is the one since which nothing has linked `k` anew, undone the link or evicted it. */
  lemma {:induction false} LinkerIs(start: World, evs: seq<Event>, k: Key, b: nat)
    ensures Linker(start, evs, k) == Some(b) <==> LinkedSince(start, evs, k, b)
  {
    hide Severs, EvictsLink, After;
    if evs != [] {
      var front, ev := evs[..|evs| - 1], evs[|evs| - 1];
      assert evs == front + [ev];
      LinkerIs(start, front, k, b);
      LinkedNext(start, front, ev, k, b);
    }
  }

  /** A link stands exactly when a conn_id of its descriptor is undisturbed, and is that conn_id's. */
  lemma {:induction false} LinkStands(start: World, evs: seq<Event>, k: Key)
    requires Good(start.s) && start.s.fdLinks == map[]
    ensures var b := Linker(start, evs, k);
            Get(After(start, evs).s.fdLinks, k) == if b.Some? then Some(LinkOf(evs[b.value].connId)) else None
  {
    hide Good, Fold, Severs, EvictsLink;
    if evs == [] {
    } else {
      hide After;
      var front, ev := evs[..|evs| - 1], evs[|evs| - 1];
      assert evs == front + [ev];
      LinkStands(start, front, k);
      GoodRun(start, front);
      FoldLinks(After(start, front).s, ev, k);
      NextState(start, front, ev);
    }
  }

  /** The conn_id a standing link is of is its descriptor's last. */
  lemma {:induction false} LinkerIsLast(start: World, evs: seq<Event>, k: Key)
    ensures var b := Linker(start, evs, k);
            b.Some? ==> LastBound(evs, k) == Some(Bound(b.value, evs[b.value].connId.cookie))
  {
    hide Severs, EvictsLink, After;
    if evs != [] {
      LinkerIsLast(start, evs[..|evs| - 1], k);
    }
  }
}
