/** The DNS join: the name check on a response never turns the true answer away. */
module CorrelatorNames {
  import opened Wrappers
  import opened Eviction
  import opened CorrelatorState
  import opened CorrelatorRuns
  import Dns = DnsNames

  /** The query `key` is waiting for an answer about `name`. */
  predicate Awaits(s: State, key: (Cookie, nat), name: string) {
    key in s.pendingDns && s.pendingDns[key].qname == name
  }

  /** What the kernel ships for a query message. */
  predicate Ships(e: EvtDnsQuery, query: Dns.Bytes) {
    |query| >= Dns.DNS_HDR_LEN &&
    match Dns.QueryWalk(query)
    case None => false
    case Some(d) => e.qnameLen <= |e.qname| && e.qname[..e.qnameLen] == d.name && e.truncated == d.truncated
  }

  /** A query for any legal name is remembered, under its canonical form. */
  lemma QueryRemembered(s: State, e: EvtDnsQuery, query: Dns.Bytes, asked: seq<Dns.Bytes>)
    requires Good(s) && Ships(e, query) && Dns.LegalName(asked)
    requires Dns.At(query, Dns.DNS_HDR_LEN, Dns.Wire(asked))
    ensures Awaits(OnDnsQuery(s, e), (e.cookie, e.txnId), Lower(Dns.Text(Dns.Dotted(asked))))
  {
    hide EvictOver, QueryStamps, Inverse, SlotsOk, Dns.QnameStr, Dns.Dotted, Dns.DecodeName, Dns.Wire, Dns.At, Lower,
      Dns.Text, Dns.LegalName;
    Dns.KernelDecodesLegalName(query, Dns.DNS_HDR_LEN, asked);
    Dns.QnameOfLegal(asked, e.qname, e.qnameLen);
  }

  /** Each answered address, and no other key, is renamed by the answer. */
  lemma {:induction false} Recorded(m: map<Dns.IpAddr, Resolution>, answers: seq<Dns.Answer>, r: Resolution)
    ensures var m' := Record(m, answers, r);
            && (forall i :: 0 <= i < |answers| ==>
                  answers[i].ip in m' && m'[answers[i].ip] == r.(ttl := m'[answers[i].ip].ttl))
            && (forall ip :: ip !in AnswerIps(answers) ==> Get(m', ip) == Get(m, ip))
    decreases |answers|
  {
    if answers != [] {
      var front, a := answers[..|answers| - 1], answers[|answers| - 1];
      Recorded(m, front, r);
      var m' := Record(m, answers, r);
      forall i | 0 <= i < |answers|
        ensures answers[i].ip in m' && m'[answers[i].ip] == r.(ttl := m'[answers[i].ip].ttl)
      {
        if i < |front| {
          assert front[i] == answers[i];
        }
      }
      assert forall ip :: ip !in AnswerIps(answers) ==> ip !in AnswerIps(front) && ip != a.ip by {
        assert forall x :: x in front ==> x in answers;
        assert a in answers;
      }
    }
  }

  /** The question of a response clipped anywhere past it reads back whole. */
  lemma ClippedQuestion(m: Dns.Message, k: nat)
    requires Dns.LegalMessage(m) && Dns.DNS_HDR_LEN + |Dns.Wire(m.question)| <= k <= |Dns.MessageWire(m)|
    ensures var p := Dns.MessageWire(m)[..k];
            var r := Dns.ParseResponse(p);
            && r.Some? && r.value.txnId == m.id
            && r.value.qname == Some(Lower(Dns.Text(Dns.Dotted(m.question))))
            && r.value.answers <= Dns.Addresses(Dns.Foremost(m.records))
  {
    hide Dns.MessageWire, Dns.ReadQname, Dns.Wire, Dns.Dotted, Dns.Addresses, Dns.SkipName, Dns.ReadAnswers,
      Dns.SkipQuestions,
      Lower, Dns.Text, Dns.DecodeName, Dns.LegalLabels, Dns.LegalRecord;
    var whole, q := Dns.MessageWire(m), |Dns.Wire(m.question)|;
    var p := whole[..k];
    Dns.HeaderFields(m);
    Dns.Sections(m);
    Dns.SliceOfPrefix(whole, k, Dns.DNS_HDR_LEN, Dns.DNS_HDR_LEN + q);
    Dns.UserDecodesLegalName(p, Dns.DNS_HDR_LEN, m.question);
    Dns.ResponseRoundTrip(m);
    Dns.ParseOnPrefix(whole, k);
    assert Dns.Be16(p, 4) == Dns.Be16(whole, 4);
  }

  /**
    The true answer is never turned away: a response to the query still awaited, echoing its name in
    any letter case and clipped anywhere past the question, is joined to it, and every address that
    survived the clip names the host from then on.
   */
  lemma TrueAnswerAccepted(s: State, e: EvtDnsResponse, asked: seq<Dns.Bytes>, m: Dns.Message, k: nat)
    requires Good(s) && Dns.LegalMessage(m) && Dns.LegalName(asked) && Dns.SameName(asked, m.question)
    requires Dns.DNS_HDR_LEN + |Dns.Wire(m.question)| <= k <= |Dns.MessageWire(m)| && e.payload == Dns.MessageWire(m)[..k]
    requires Awaits(s, (e.cookie, m.id), Lower(Dns.Text(Dns.Dotted(asked))))
    ensures var s' := OnDnsResponse(s, e);
            var name := Lower(Dns.Text(Dns.Dotted(asked)));
            && (e.cookie, m.id) !in s'.pendingDns
            && Dns.ParseResponse(e.payload).Some?
            && var answers := Dns.ParseResponse(e.payload).value.answers;
               && answers <= Dns.Addresses(Dns.Foremost(m.records))
               && forall i :: 0 <= i < |answers| ==>
                    answers[i].ip in s'.resolutions && s'.resolutions[answers[i].ip].hostname == name
                    && s'.resolutions[answers[i].ip].resolvedTs == e.ts
  {
    ClippedQuestion(m, k);
    Joined(s, e, Dns.ParseResponse(e.payload).value);
  }

  /** A response that passes the name check. */
  lemma Joined(s: State, e: EvtDnsResponse, r: Dns.Response)
    requires Good(s) && Dns.ParseResponse(e.payload) == Some(r) && r.qname.Some?
    requires Awaits(s, (e.cookie, r.txnId), r.qname.value)
    ensures var s' := OnDnsResponse(s, e);
            && (e.cookie, r.txnId) !in s'.pendingDns
            && forall i :: 0 <= i < |r.answers| ==>
                 r.answers[i].ip in s'.resolutions && s'.resolutions[r.answers[i].ip].hostname == r.qname.value
                 && s'.resolutions[r.answers[i].ip].resolvedTs == e.ts
  {
    hide EvictOver, ResolutionStamps, Dns.ParseResponse, Record, Inverse, SlotsOk, Caps;
    var q := s.pendingDns[(e.cookie, r.txnId)];
    var res := Resolution(q.qname, SatSub(e.ts, q.queryTs), 0, Min(|r.answers|, 255), q.queryTs, e.ts);
    Recorded(s.resolutions, r.answers, res);
    assert forall i :: 0 <= i < |r.answers| ==> r.answers[i].ip in AnswerIps(r.answers);
  }

  /** A response is joined to a query only by id, socket and name together; any other changes nothing. */
  lemma OnlyTrueAnswers(s: State, e: EvtDnsResponse)
    ensures var r := Dns.ParseResponse(e.payload);
            OnDnsResponse(s, e) != s
            <==> r.Some? && r.value.qname.Some? && Awaits(s, (e.cookie, r.value.txnId), r.value.qname.value)
  {
    hide EvictOver, ResolutionStamps, Dns.ParseResponse, Record;
    var r := Dns.ParseResponse(e.payload);
    if r.Some? && r.value.qname.Some? && Awaits(s, (e.cookie, r.value.txnId), r.value.qname.value) {
      assert (e.cookie, r.value.txnId) !in OnDnsResponse(s, e).pendingDns;
    }
  }
}
