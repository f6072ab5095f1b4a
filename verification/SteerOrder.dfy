/**
 When the order of rate reports and connection messages does not matter. In disciplined runs
 the classification of every flow is read off the messages themselves, so any interleaving
 gives the same; and for messages of any kind the module says exactly when the moments of the
 rate reports cannot show.
 */
module SteerOrder {
  import opened Words
  import opened SteerTables
  import opened SteerRuns
  import opened SteerConfluence

  // ---------- connection messages ----------

  predicate IsCm(e: Event) { !e.Rate? && !e.Poll? }

  /** The connection messages of a run, in order. */
  function CmEvents(es: seq<Event>): seq<Event> {
    if |es| == 0 then [] else CmEvents(Front(es)) + if IsCm(Last(es)) then [Last(es)] else []
  }

  lemma {:induction false} CmTablesOnly(ips: PathIps, t: Tables, u: Tables, e: Event)
    requires t.requests == u.requests && t.pairs == u.pairs
    ensures Apply(ips, t, e).requests == Apply(ips, u, e).requests && Apply(ips, t, e).pairs == Apply(ips, u, e).pairs
    ensures !IsCm(e) ==> Apply(ips, t, e).requests == t.requests && Apply(ips, t, e).pairs == t.pairs
  {
  }

  /** Rate reports and polls never change what the connection tables say. */
  lemma {:induction false} CmTablesOfRun(ips: PathIps, t: Tables, es: seq<Event>)
    ensures Run(ips, t, es).requests == Run(ips, t, CmEvents(es)).requests
    ensures Run(ips, t, es).pairs == Run(ips, t, CmEvents(es)).pairs
  {
    if |es| > 0 {
      CmTablesOfRun(ips, t, Front(es));
      CmTablesOnly(ips, Run(ips, t, Front(es)), Run(ips, t, CmEvents(Front(es))), Last(es));
      if IsCm(Last(es)) {
        assert Front(CmEvents(es)) == CmEvents(Front(es)) && Last(CmEvents(es)) == Last(es);
      } else {
        assert CmEvents(es) == CmEvents(Front(es));
      }
    }
  }

  // ---------- disciplined runs ----------

  /** One receiver address per sender and one sender per comm_id. */
  datatype Fabric = Fabric(ipOf: map<u32, u32>, senderOf: map<u32, u32>)

  /** The messages agree with the fabric; `legacy` runs learn from feedback, the others from REQ and REP. */
  predicate Disciplined(f: Fabric, legacy: bool, e: Event) {
    match e
    case Req(c, q, ip) => !legacy && q in f.ipOf && f.ipOf[q] == ip && c in f.senderOf && f.senderOf[c] == q
    case Rep(_, _) => !legacy
    case Feedback(raw, ip) => legacy && Qpn24(raw) in f.ipOf && f.ipOf[Qpn24(raw)] == ip
    case _ => true
  }

  ghost predicate DisciplinedRun(f: Fabric, legacy: bool, es: seq<Event>) {
    forall i :: 0 <= i < |es| ==> Disciplined(f, legacy, es[i])
  }

  /** The path of a sender's address, if it has one. */
  function PathOf(ips: PathIps, f: Fabric, q: u32): Option<PathId> {
    if q in f.ipOf then Resolve(ips, f.ipOf[q]) else None
  }

  /** The tables hold only what the fabric says. */
  ghost predicate Faithful(ips: PathIps, f: Fabric, legacy: bool, t: Tables) {
    && (forall i :: 0 <= i < |t.requests| ==>
          var r := t.requests[i];
          && r.commId in f.senderOf && f.senderOf[r.commId] == r.initiatorQpn && r.initiatorQpn in f.ipOf
          && r == MakeRequest(r.commId, r.initiatorQpn, f.ipOf[r.initiatorQpn], PathOf(ips, f, r.initiatorQpn)))
    && (forall i :: 0 <= i < |t.pairs| ==>
          var p := t.pairs[i];
          PathOf(ips, f, p.initiatorQpn) == Some(p.path) && (legacy ==> p.responderQpn == p.initiatorQpn))
  }

  lemma {:induction false} FaithfulStep(ips: PathIps, f: Fabric, legacy: bool, t: Tables, e: Event)
    requires Faithful(ips, f, legacy, t) && Disciplined(f, legacy, e)
    ensures Faithful(ips, f, legacy, Apply(ips, t, e))
  {
  }

  lemma {:induction false} FaithfulRoute(ips: PathIps, f: Fabric, legacy: bool, t: Tables, q: u32)
    requires Faithful(ips, f, legacy, t) && Lookup(t, q).Route?
    ensures PathOf(ips, f, q) == Some(Lookup(t, q).path)
  {
  }

  // ---------- room, counted in the messages ----------

  /** The comm_ids that are requested. */
  function RequestedIds(es: seq<Event>): set<u32> {
    if |es| == 0 then {} else RequestedIds(Front(es)) + if Last(es).Req? then {Last(es).commId} else {}
  }

  /** The sender that a REP or a feedback packet pairs, if its address has a path. */
  function PairedBy(ips: PathIps, f: Fabric, e: Event): set<u32> {
    var q := match e
      case Rep(c, _) => if c in f.senderOf then f.senderOf[c] else 0
      case Feedback(raw, _) => Qpn24(raw)
      case _ => 0;
    if q != 0 && PathOf(ips, f, q).Some? then {q} else {}
  }

  function PairedSenders(ips: PathIps, f: Fabric, es: seq<Event>): set<u32> {
    if |es| == 0 then {} else PairedSenders(ips, f, Front(es)) + PairedBy(ips, f, Last(es))
  }

  /** The messages name no more comm_ids and pair no more senders than the tables hold. */
  predicate Fit(ips: PathIps, f: Fabric, es: seq<Event>) {
    |RequestedIds(es)| <= MAX_CM_CONNECTIONS && |PairedSenders(ips, f, es)| <= MAX_CM_CONNECTIONS
  }

  /** The tables hold only what some message named. */
  ghost predicate Sourced(ips: PathIps, f: Fabric, es: seq<Event>, t: Tables) {
    && (forall i :: 0 <= i < |t.requests| ==> t.requests[i].commId in RequestedIds(es))
    && (forall i :: 0 <= i < |t.pairs| ==> t.pairs[i].initiatorQpn in PairedSenders(ips, f, es))
  }

  function CommIds(rs: seq<CmRequest>): (ks: seq<u32>)
    ensures |ks| == |rs| && forall i :: 0 <= i < |rs| ==> ks[i] == rs[i].commId
  {
    if |rs| == 0 then [] else CommIds(rs[..|rs| - 1]) + [rs[|rs| - 1].commId]
  }

  function Senders(ps: seq<QpnPair>): (ks: seq<u32>)
    ensures |ks| == |ps| && forall i :: 0 <= i < |ps| ==> ks[i] == ps[i].initiatorQpn
  {
    if |ps| == 0 then [] else Senders(ps[..|ps| - 1]) + [ps[|ps| - 1].initiatorQpn]
  }

  lemma {:induction false} OneMore(ks: seq<u32>, k: u32, s: set<u32>)
    requires Distinct(ks) && k !in ks && k in s && forall i :: 0 <= i < |ks| ==> ks[i] in s
    ensures |ks| < |s|
  {
    var more := ks + [k];
    forall i | 0 <= i < |more| ensures Covered(more[i], s, TWO_32) {
      assert more[i] in s && more[i] % TWO_32 == more[i];
    }
    Pigeonhole(more, s, TWO_32);
  }

  /** The next event finds its entry or a free one. */
  predicate RoomFor(ips: PathIps, t: Tables, e: Event) {
    match e
    case Req(c, _, _) => RequestIndex(t.requests, c) < |t.requests| || |t.requests| < MAX_CM_CONNECTIONS
    case Rep(c, _) =>
      var i := RequestIndex(t.requests, c);
      i < |t.requests| && t.requests[i].initiatorQpn != 0 && t.requests[i].pathKnown ==>
        PairIndex(t.pairs, t.requests[i].initiatorQpn) < |t.pairs| || |t.pairs| < MAX_CM_CONNECTIONS
    case Feedback(raw, ip) =>
      Resolve(ips, ip).Some? && Qpn24(raw) > 1 ==>
        PairIndex(t.pairs, Qpn24(raw)) < |t.pairs| || |t.pairs| < MAX_CM_CONNECTIONS
    case _ => true
  }

  lemma {:induction false} PairRoom(ips: PathIps, f: Fabric, es: seq<Event>, t: Tables, q: u32)
    requires ValidTables(t) && Fit(ips, f, es) && q in PairedSenders(ips, f, es)
    requires forall i :: 0 <= i < |t.pairs| ==> t.pairs[i].initiatorQpn in PairedSenders(ips, f, es)
    ensures PairIndex(t.pairs, q) < |t.pairs| || |t.pairs| < MAX_CM_CONNECTIONS
  {
    if PairIndex(t.pairs, q) == |t.pairs| { OneMore(Senders(t.pairs), q, PairedSenders(ips, f, es)); }
  }

  lemma {:induction false} FitsIn(ips: PathIps, f: Fabric, legacy: bool, es: seq<Event>, t: Tables)
    requires |es| > 0 && ValidTables(t) && Fit(ips, f, es) && Disciplined(f, legacy, Last(es))
    requires Faithful(ips, f, legacy, t) && Sourced(ips, f, Front(es), t)
    ensures RoomFor(ips, t, Last(es))
  {
    match Last(es)
    case Req(c, _, _) =>
      if RequestIndex(t.requests, c) == |t.requests| { OneMore(CommIds(t.requests), c, RequestedIds(es)); }
    case Rep(c, _) =>
      var i := RequestIndex(t.requests, c);
      if i < |t.requests| && t.requests[i].initiatorQpn != 0 && t.requests[i].pathKnown {
        PairRoom(ips, f, es, t, t.requests[i].initiatorQpn);
      }
    case Feedback(raw, ip) =>
      if Resolve(ips, ip).Some? && Qpn24(raw) > 1 { PairRoom(ips, f, es, t, Qpn24(raw)); }
    case _ =>
  }

  lemma {:induction false} SourcedStep(ips: PathIps, f: Fabric, legacy: bool, es: seq<Event>, t: Tables)
    requires |es| > 0 && Faithful(ips, f, legacy, t) && Disciplined(f, legacy, Last(es)) &&
            Sourced(ips, f, Front(es), t)
    ensures Sourced(ips, f, es, Apply(ips, t, Last(es)))
  {
  }

  lemma {:induction false} FrontFits(ips: PathIps, f: Fabric, es: seq<Event>)
    requires |es| > 0 && Fit(ips, f, es)
    ensures Fit(ips, f, Front(es))
  {
    SubsetSize(RequestedIds(Front(es)), RequestedIds(es));
    SubsetSize(PairedSenders(ips, f, Front(es)), PairedSenders(ips, f, es));
  }

  lemma {:induction false} DisciplinedHarmless(ips: PathIps, f: Fabric, legacy: bool, t: Tables, e: Event)
    requires ValidTables(t) && Coherent(t) && Faithful(ips, f, legacy, t) && Disciplined(f, legacy, e) &&
            RoomFor(ips, t, e)
    ensures Harmless(ips, t, e)
  {
    match e
    case Req(c, q, ip) =>
      var i := RequestIndex(t.requests, c);
      if i < |t.requests| {
        assert MakeRequest(c, q, ip, Resolve(ips, ip)) == t.requests[i];
      } else if Lookup(t, q).Route? {
        FaithfulRoute(ips, f, legacy, t, q);
      }
    case Rep(_, _) =>
    case Feedback(_, _) =>
    case Rate(_, _) =>
    case Poll =>
  }

  /**
   In a disciplined run whose messages fit the tables, every tracked flow carries what its QPN
   looks up, and its path is the one of its receiver address.
   */
  lemma {:induction false} DisciplinedCoherent(ips: PathIps, f: Fabric, legacy: bool, es: seq<Event>)
    requires DisciplinedRun(f, legacy, es) && Fit(ips, f, es)
    ensures ValidTables(Run(ips, EMPTY, es)) && Coherent(Run(ips, EMPTY, es))
    ensures Faithful(ips, f, legacy, Run(ips, EMPTY, es)) && Sourced(ips, f, es, Run(ips, EMPTY, es))
  {
    if |es| > 0 {
      var before := Run(ips, EMPTY, Front(es));
      FrontFits(ips, f, es);
      DisciplinedCoherent(ips, f, legacy, Front(es));
      FitsIn(ips, f, legacy, es, before);
      DisciplinedHarmless(ips, f, legacy, before, Last(es));
      CoherentIffHarmless(ips, before, Last(es));
      ApplyKeepsTables(ips, before, Last(es));
      FaithfulStep(ips, f, legacy, before, Last(es));
      SourcedStep(ips, f, legacy, es, before);
    }
  }

  // ---------- the classification, read off the messages ----------

  predicate NamesSender(e: Event, q: u32) {
    (e.Req? && e.initiator == q) || (e.Feedback? && Qpn24(e.rawSender) == q)
  }

  predicate Mentioned(es: seq<Event>, q: u32) {
    |es| > 0 && (NamesSender(Last(es), q) || Mentioned(Front(es), q))
  }

  predicate Answers(f: Fabric, e: Event, q: u32) {
    e.Rep? && e.remoteCommId in f.senderOf && f.senderOf[e.remoteCommId] == q
  }

  /** The responders of the REPs to one sender, in order. */
  function Replies(f: Fabric, es: seq<Event>, q: u32): seq<u32> {
    if |es| == 0 then [] else Replies(f, Front(es), q) + if Answers(f, Last(es), q) then [Last(es).responder] else []
  }

  function LastReply(f: Fabric, es: seq<Event>, q: u32): u32 {
    var rs := Replies(f, es, q);
    if |rs| == 0 then 0 else rs[|rs| - 1]
  }

  /** Each REP follows a REQ with its comm_id. */
  predicate ReqFirst(es: seq<Event>) {
    |es| > 0 ==> ReqFirst(Front(es)) && (Last(es).Rep? ==> Last(es).remoteCommId in RequestedIds(Front(es)))
  }

  /** A sender's route: its address's path and, on 3.x, the last responder or 0. */
  function Expected(ips: PathIps, f: Fabric, legacy: bool, es: seq<Event>, q: u32): Route {
    var path := PathOf(ips, f, q);
    if path.Some? && Mentioned(es, q) then Route(path.value, if legacy then q else LastReply(f, es, q)) else Unknown
  }

  lemma {:induction false} RequestedMentions(f: Fabric, legacy: bool, es: seq<Event>, c: u32)
    requires DisciplinedRun(f, legacy, es) && c in RequestedIds(es)
    ensures c in f.senderOf && Mentioned(es, f.senderOf[c])
  {
    assert Disciplined(f, legacy, Last(es));
    if !(Last(es).Req? && Last(es).commId == c) { RequestedMentions(f, legacy, Front(es), c); }
  }

  lemma {:induction false} UnmentionedUnanswered(f: Fabric, legacy: bool, es: seq<Event>, q: u32)
    requires DisciplinedRun(f, legacy, es) && ReqFirst(es) && !Mentioned(es, q)
    ensures Replies(f, es, q) == []
  {
    if |es| > 0 {
      UnmentionedUnanswered(f, legacy, Front(es), q);
      if Last(es).Rep? { RequestedMentions(f, legacy, Front(es), Last(es).remoteCommId); }
    }
  }

  /** Every requested comm_id has its record. */
  ghost predicate Recorded(es: seq<Event>, t: Tables) {
    forall c: u32 :: c in RequestedIds(es) ==> RequestIndex(t.requests, c) < |t.requests|
  }

  lemma {:induction false} RecordedStep(ips: PathIps, es: seq<Event>, t: Tables)
    requires |es| > 0 && Recorded(Front(es), t) && RoomFor(ips, t, Last(es))
    ensures Recorded(es, Apply(ips, t, Last(es)))
  {
    var t' := Apply(ips, t, Last(es));
    forall c: u32 | c in RequestedIds(es) ensures RequestIndex(t'.requests, c) < |t'.requests| {
      var i := RequestIndex(t.requests, c);
      assert t'.requests[i].commId == c;
    }
  }

  lemma {:induction false} ReqRoute(ips: PathIps, f: Fabric, t: Tables, e: Event, q: u32)
    requires Faithful(ips, f, false, t) && Disciplined(f, false, e) && e.Req? && RoomFor(ips, t, e)
    ensures Lookup(Apply(ips, t, e), q) ==
            if Lookup(t, q).Unknown? && e.initiator == q && PathOf(ips, f, q).Some? then
              Route(PathOf(ips, f, q).value, 0)
            else Lookup(t, q)
  {
    var path := Resolve(ips, e.receiverIp);
    var r := MakeRequest(e.commId, e.initiator, e.receiverIp, path);
    var i := RequestIndex(t.requests, e.commId);
    if i < |t.requests| {
      assert t.requests[i] == r;
      assert t.requests[i := r] == t.requests;
    } else {
      LookupAfterRequest(t, r, q);
    }
  }

  lemma {:induction false} RepRoute(ips: PathIps, f: Fabric, t: Tables, e: Event, q: u32)
    requires Faithful(ips, f, false, t) && e.Rep? && RoomFor(ips, t, e) && q != 0
    requires RequestIndex(t.requests, e.remoteCommId) < |t.requests|
    ensures Lookup(Apply(ips, t, e), q) ==
            if Answers(f, e, q) && PathOf(ips, f, q).Some? then Route(PathOf(ips, f, q).value, e.responder)
            else Lookup(t, q)
  {
    var r := t.requests[RequestIndex(t.requests, e.remoteCommId)];
    if r.initiatorQpn != 0 && r.pathKnown {
      LookupAfterPair(t, QpnPair(r.initiatorQpn, e.responder, r.path), q);
    }
  }

  lemma {:induction false} FeedbackRoute(ips: PathIps, f: Fabric, t: Tables, e: Event, q: u32)
    requires Faithful(ips, f, true, t) && Disciplined(f, true, e) && e.Feedback? && RoomFor(ips, t, e) && q > 1
    ensures Lookup(Apply(ips, t, e), q) ==
            if NamesSender(e, q) && PathOf(ips, f, q).Some? then Route(PathOf(ips, f, q).value, q) else Lookup(t, q)
  {
    var s, path := Qpn24(e.rawSender), Resolve(ips, e.sourceIp);
    if path.Some? && s > 1 {
      var i := PairIndex(t.pairs, s);
      if !(i < |t.pairs| && t.pairs[i].path == path.value) { LookupAfterPair(t, QpnPair(s, s, path.value), q); }
    }
  }

  lemma {:induction false} ReqExpected(ips: PathIps, f: Fabric, es: seq<Event>, t: Tables, q: u32)
    requires |es| > 0 && DisciplinedRun(f, false, es) && ReqFirst(es) && Last(es).Req?
    requires Faithful(ips, f, false, t) && RoomFor(ips, t, Last(es))
    requires Lookup(t, q) == Expected(ips, f, false, Front(es), q)
    ensures Lookup(Apply(ips, t, Last(es)), q) == Expected(ips, f, false, es, q)
  {
    assert Disciplined(f, false, Last(es));
    ReqRoute(ips, f, t, Last(es), q);
    if !Mentioned(Front(es), q) { UnmentionedUnanswered(f, false, Front(es), q); }
  }

  lemma {:induction false} RepExpected(ips: PathIps, f: Fabric, es: seq<Event>, t: Tables, q: u32)
    requires |es| > 0 && DisciplinedRun(f, false, es) && ReqFirst(es) && Last(es).Rep? && q > 1
    requires Faithful(ips, f, false, t) && RoomFor(ips, t, Last(es)) && Recorded(Front(es), t)
    requires Lookup(t, q) == Expected(ips, f, false, Front(es), q)
    ensures Lookup(Apply(ips, t, Last(es)), q) == Expected(ips, f, false, es, q)
  {
    RepRoute(ips, f, t, Last(es), q);
    RequestedMentions(f, false, Front(es), Last(es).remoteCommId);
  }

  lemma {:induction false} FeedbackExpected(ips: PathIps, f: Fabric, es: seq<Event>, t: Tables, q: u32)
    requires |es| > 0 && DisciplinedRun(f, true, es) && Last(es).Feedback? && q > 1
    requires Faithful(ips, f, true, t) && RoomFor(ips, t, Last(es))
    requires Lookup(t, q) == Expected(ips, f, true, Front(es), q)
    ensures Lookup(Apply(ips, t, Last(es)), q) == Expected(ips, f, true, es, q)
  {
    assert Disciplined(f, true, Last(es));
    FeedbackRoute(ips, f, t, Last(es), q);
  }

  lemma {:induction false} QuietExpected(ips: PathIps, f: Fabric, legacy: bool, es: seq<Event>, t: Tables, q: u32)
    requires |es| > 0 && !IsCm(Last(es)) && Lookup(t, q) == Expected(ips, f, legacy, Front(es), q)
    ensures Lookup(Apply(ips, t, Last(es)), q) == Expected(ips, f, legacy, es, q)
  {
    CmTablesOnly(ips, t, t, Last(es));
  }

  /** What is known before the last event of a disciplined run. */
  lemma {:induction false} BeforeLast(ips: PathIps, f: Fabric, legacy: bool, es: seq<Event>)
    requires |es| > 0 && DisciplinedRun(f, legacy, es) && Fit(ips, f, es)
    ensures DisciplinedRun(f, legacy, Front(es)) && Fit(ips, f, Front(es)) && Disciplined(f, legacy, Last(es))
    ensures var t := Run(ips, EMPTY, Front(es)); Faithful(ips, f, legacy, t) && RoomFor(ips, t, Last(es))
  {
    FrontFits(ips, f, es);
    DisciplinedCoherent(ips, f, legacy, Front(es));
    FitsIn(ips, f, legacy, es, Run(ips, EMPTY, Front(es)));
  }

  /** In a disciplined run the tables' answer for a sender is the one of the messages. */
  lemma {:induction false} LookupIsExpected(ips: PathIps, f: Fabric, legacy: bool, es: seq<Event>, q: u32)
    requires DisciplinedRun(f, legacy, es) && Fit(ips, f, es) && (!legacy ==> ReqFirst(es)) && q > 1
    ensures Lookup(Run(ips, EMPTY, es), q) == Expected(ips, f, legacy, es, q) && Recorded(es, Run(ips, EMPTY, es))
  {
    if |es| > 0 {
      var t := Run(ips, EMPTY, Front(es));
      BeforeLast(ips, f, legacy, es);
      LookupIsExpected(ips, f, legacy, Front(es), q);
      RecordedStep(ips, es, t);
      match Last(es)
      case Req(_, _, _) => ReqExpected(ips, f, es, t, q);
      case Rep(_, _) => RepExpected(ips, f, es, t, q);
      case Feedback(_, _) => FeedbackExpected(ips, f, es, t, q);
      case Rate(_, _) => QuietExpected(ips, f, legacy, es, t, q);
      case Poll => QuietExpected(ips, f, legacy, es, t, q);
    }
  }

  // ---------- confluence ----------

  /** Every connection message of the one run occurs in the other. */
  ghost predicate Within(es: seq<Event>, fs: seq<Event>) {
    forall e: Event :: IsCm(e) && e in es ==> e in fs
  }

  ghost predicate SameMessages(es: seq<Event>, fs: seq<Event>) { Within(es, fs) && Within(fs, es) }

  lemma {:induction false} Shown(ips: PathIps, f: Fabric, es: seq<Event>, e: Event, q: u32)
    requires e in es
    ensures e.Req? ==> e.commId in RequestedIds(es)
    ensures PairedBy(ips, f, e) <= PairedSenders(ips, f, es)
    ensures NamesSender(e, q) ==> Mentioned(es, q)
    ensures Answers(f, e, q) ==> |Replies(f, es, q)| > 0
  {
    if e != Last(es) { Shown(ips, f, Front(es), e, q); }
  }

  lemma {:induction false} WithinMeans(ips: PathIps, f: Fabric, es: seq<Event>, fs: seq<Event>, q: u32)
    requires Within(es, fs)
    ensures RequestedIds(es) <= RequestedIds(fs) && PairedSenders(ips, f, es) <= PairedSenders(ips, f, fs)
    ensures Mentioned(es, q) ==> Mentioned(fs, q)
    ensures |Replies(f, es, q)| > 0 ==> |Replies(f, fs, q)| > 0
  {
    if |es| > 0 {
      WithinMeans(ips, f, Front(es), fs, q);
      if IsCm(Last(es)) { Shown(ips, f, fs, Last(es), q); }
    }
  }

  lemma {:induction false} SameMessagesMean(ips: PathIps, f: Fabric, es: seq<Event>, fs: seq<Event>, q: u32)
    requires SameMessages(es, fs)
    ensures Fit(ips, f, es) == Fit(ips, f, fs) && Mentioned(es, q) == Mentioned(fs, q)
  {
    WithinMeans(ips, f, es, fs, q);
    WithinMeans(ips, f, fs, es, q);
    assert RequestedIds(es) == RequestedIds(fs);
    assert PairedSenders(ips, f, es) == PairedSenders(ips, f, fs);
  }

  lemma {:induction false} SameDiscipline(f: Fabric, legacy: bool, es: seq<Event>, fs: seq<Event>)
    requires SameMessages(es, fs) && DisciplinedRun(f, legacy, es)
    ensures DisciplinedRun(f, legacy, fs)
  {
    forall i | 0 <= i < |fs| ensures Disciplined(f, legacy, fs[i]) {
      if IsCm(fs[i]) { assert fs[i] in fs && fs[i] in es; }
    }
  }

  /**
   Confluence: two disciplined runs of the same connection messages, whatever the order of the
   messages of different connections and wherever reports and polls fall between them, classify
   every flow tracked by both in the same way; the receiver QPNs agree exactly when the last REPs do.
   */
  lemma {:induction false} Confluent(ips: PathIps, f: Fabric, legacy: bool, es: seq<Event>, fs: seq<Event>, q: u32)
    requires DisciplinedRun(f, legacy, es) && SameMessages(es, fs) && Fit(ips, f, es)
    requires legacy || (ReqFirst(es) && ReqFirst(fs))
    requires Tracked(Run(ips, EMPTY, es), q) && Tracked(Run(ips, EMPTY, fs), q)
    ensures var a, b := FlowOf(Run(ips, EMPTY, es), q), FlowOf(Run(ips, EMPTY, fs), q);
      && a.classified == b.classified
      && (a.classified <==> PathOf(ips, f, q).Some? && Mentioned(es, q))
      && (a.classified ==> PathOf(ips, f, q) == Some(a.path) && a.path == b.path)
      && (a.receiverQpn == b.receiverQpn <==> !a.classified || legacy || LastReply(f, es, q) == LastReply(f, fs, q))
  {
    SameMessagesMean(ips, f, es, fs, q);
    SameDiscipline(f, legacy, es, fs);
    ClassifiedAs(ips, f, legacy, es, q);
    ClassifiedAs(ips, f, legacy, fs, q);
  }

  /** A tracked flow of a disciplined run carries what the messages say, whenever it was first reported. */
  lemma {:induction false} ClassifiedAs(ips: PathIps, f: Fabric, legacy: bool, es: seq<Event>, q: u32)
    requires DisciplinedRun(f, legacy, es) && Fit(ips, f, es) && (legacy || ReqFirst(es))
    requires Tracked(Run(ips, EMPTY, es), q)
    ensures var a := FlowOf(Run(ips, EMPTY, es), q);
      RouteOf(a) == Expected(ips, f, legacy, es, q) && (a.classified || a.receiverQpn == 0)
  {
    var t := Run(ips, EMPTY, es);
    DisciplinedCoherent(ips, f, legacy, es);
    assert Settled(t, t.flows[FlowIndex(t.flows, q)]);
    LookupIsExpected(ips, f, legacy, es, q);
  }

  /** All REPs to this sender name the same responder. */
  ghost predicate OneResponder(f: Fabric, es: seq<Event>, q: u32) {
    forall d, e: Event :: d in es && e in es && Answers(f, d, q) && Answers(f, e, q) ==> d.responder == e.responder
  }

  lemma {:induction false} LastReplyIsOne(f: Fabric, es: seq<Event>, q: u32) returns (e: Event)
    requires |Replies(f, es, q)| > 0
    ensures e in es && Answers(f, e, q) && LastReply(f, es, q) == e.responder
  {
    e := Last(es);
    if !Answers(f, e, q) { e := LastReplyIsOne(f, Front(es), q); }
  }

  lemma {:induction false} CmEventsAre(es: seq<Event>, e: Event)
    ensures e in CmEvents(es) <==> e in es && IsCm(e)
  {
    if |es| > 0 { CmEventsAre(Front(es), e); }
  }

  lemma {:induction false} PermutedMessages(es: seq<Event>, fs: seq<Event>)
    requires multiset(CmEvents(es)) == multiset(CmEvents(fs))
    ensures SameMessages(es, fs)
  {
    forall e: Event | IsCm(e) ensures e in es <==> e in fs {
      CmEventsAre(es, e);
      CmEventsAre(fs, e);
      assert e in CmEvents(es) <==> e in multiset(CmEvents(es));
      assert e in CmEvents(fs) <==> e in multiset(CmEvents(fs));
    }
  }

  lemma {:induction false} SameLastReply(ips: PathIps, f: Fabric, es: seq<Event>, fs: seq<Event>, q: u32)
    requires SameMessages(es, fs) && OneResponder(f, es, q)
    ensures LastReply(f, es, q) == LastReply(f, fs, q)
  {
    WithinMeans(ips, f, es, fs, q);
    WithinMeans(ips, f, fs, es, q);
    if |Replies(f, es, q)| > 0 {
      var d := LastReplyIsOne(f, es, q);
      var e := LastReplyIsOne(f, fs, q);
    }
  }

  /**
   Messages of different connections may overtake each other: any permutation that keeps each
   REQ before its REP, with one responder per sender or the REPs to one sender in order, gives
   the same classification, path and receiver.
   */
  lemma {:induction false} PermutationsAgree(
      ips: PathIps, f: Fabric, legacy: bool, es: seq<Event>, fs: seq<Event>, q: u32)
    requires DisciplinedRun(f, legacy, es) && Fit(ips, f, es)
    requires multiset(CmEvents(es)) == multiset(CmEvents(fs))
    requires legacy || (ReqFirst(es) && ReqFirst(fs))
    requires legacy || OneResponder(f, es, q) || Replies(f, es, q) == Replies(f, fs, q)
    requires Tracked(Run(ips, EMPTY, es), q) && Tracked(Run(ips, EMPTY, fs), q)
    ensures RouteOf(FlowOf(Run(ips, EMPTY, es), q)) == RouteOf(FlowOf(Run(ips, EMPTY, fs), q))
  {
    PermutedMessages(es, fs);
    SameMessagesMean(ips, f, es, fs, q);
    SameDiscipline(f, legacy, es, fs);
    ClassifiedAs(ips, f, legacy, es, q);
    ClassifiedAs(ips, f, legacy, fs, q);
    if !legacy && OneResponder(f, es, q) { SameLastReply(ips, f, es, fs, q); }
  }

  /** The learner that watches feedback and the one that parses REQ and REP give the same path. */
  lemma {:induction false} LearnersAgree(ips: PathIps, f: Fabric, es: seq<Event>, fs: seq<Event>, q: u32)
    requires DisciplinedRun(f, true, es) && DisciplinedRun(f, false, fs)
    requires Fit(ips, f, es) && Fit(ips, f, fs) && ReqFirst(fs)
    requires Tracked(Run(ips, EMPTY, es), q) && Tracked(Run(ips, EMPTY, fs), q)
    ensures var a, b := FlowOf(Run(ips, EMPTY, es), q), FlowOf(Run(ips, EMPTY, fs), q);
      && (a.classified && b.classified ==> a.path == b.path)
      && (a.classified == b.classified <==> PathOf(ips, f, q).None? || Mentioned(es, q) == Mentioned(fs, q))
  {
    ClassifiedAs(ips, f, true, es, q);
    ClassifiedAs(ips, f, false, fs, q);
  }
}
