/**
 Whether the moments of rate reports and polls can show in the classification of flows. For any
 list of connection messages they cannot exactly when every message is harmless at every
 state that a run of the earlier ones reaches.
 */
module SteerTiming {
  import opened Words
  import opened SteerTables
  import opened SteerRuns
  import opened SteerConfluence
  import opened SteerOrder

  /** A flow tracked after both runs belongs to the same path and receiver. */
  ghost predicate Agree(ips: PathIps, es: seq<Event>, fs: seq<Event>, q: u32) {
    var t, u := Run(ips, EMPTY, es), Run(ips, EMPTY, fs);
    Tracked(t, q) && Tracked(u, q) ==> RouteOf(FlowOf(t, q)) == RouteOf(FlowOf(u, q))
  }

  /** At no moment while `ms` arrive does it matter when reports came and polls ran. */
  ghost predicate TimingHidden(ips: PathIps, ms: seq<Event>) {
    forall es: seq<Event>, fs: seq<Event>, q: u32 ::
      CmEvents(es) == CmEvents(fs) && CmEvents(es) <= ms ==> Agree(ips, es, fs, q)
  }

  /** The next message of `ms` is harmless after this run of the earlier ones. */
  ghost predicate NextHarmless(ips: PathIps, ms: seq<Event>, es: seq<Event>) {
    CmEvents(es) < ms ==> Harmless(ips, Run(ips, EMPTY, es), ms[|CmEvents(es)|])
  }

  ghost predicate AlwaysHarmless(ips: PathIps, ms: seq<Event>) {
    forall es: seq<Event> :: NextHarmless(ips, ms, es)
  }

  // ---------- a flow that is reported last ----------

  /** A flow without a path has no receiver. */
  ghost predicate ReceiversKnown(fs: seq<RateFlow>) {
    forall i :: 0 <= i < |fs| ==> fs[i].classified || fs[i].receiverQpn == 0
  }

  lemma {:induction false} ReceiversStayKnown(ips: PathIps, t: Tables, e: Event)
    requires ReceiversKnown(t.flows)
    ensures ReceiversKnown(Apply(ips, t, e).flows)
  {
  }

  lemma {:induction false} ReceiversAreKnown(ips: PathIps, es: seq<Event>)
    ensures ReceiversKnown(Run(ips, EMPTY, es).flows)
  {
    if |es| > 0 {
      ReceiversAreKnown(ips, Front(es));
      ReceiversStayKnown(ips, Run(ips, EMPTY, Front(es)), Last(es));
    }
  }

  lemma {:induction false} OnlyMessages(ips: PathIps, es: seq<Event>)
    ensures Run(ips, EMPTY, CmEvents(es)).flows == [] && CmEvents(CmEvents(es)) == CmEvents(es)
  {
    if |es| > 0 {
      var ms := CmEvents(es);
      OnlyMessages(ips, Front(es));
      if IsCm(Last(es)) {
        assert Front(ms) == CmEvents(Front(es)) && Last(ms) == Last(es);
        assert Run(ips, EMPTY, ms) == Apply(ips, Run(ips, EMPTY, Front(ms)), Last(ms));
      } else {
        assert ms == CmEvents(Front(es));
      }
    }
  }

  lemma {:induction false} CmEventsOfMore(es: seq<Event>, e: Event)
    ensures CmEvents(es + [e]) == CmEvents(es) + if IsCm(e) then [e] else []
  {
    assert Front(es + [e]) == es;
  }

  /** A flow that is first reported after all the messages is looked up in their tables. */
  lemma {:induction false} ReportedLast(ips: PathIps, es: seq<Event>, q: u32)
    requires 1 < q < TWO_24
    ensures var late := CmEvents(es) + [Rate(q, 0)]; var u := Run(ips, EMPTY, late);
      CmEvents(late) == CmEvents(es) && Tracked(u, q) && RouteOf(FlowOf(u, q)) == Lookup(Run(ips, EMPTY, es), q)
  {
    var ms := CmEvents(es);
    var t := Run(ips, EMPTY, ms);
    OnlyMessages(ips, es);
    CmEventsOfMore(ms, Rate(q, 0));
    CmTablesOfRun(ips, EMPTY, es);
    assert Front(ms + [Rate(q, 0)]) == ms;
    assert Run(ips, EMPTY, ms + [Rate(q, 0)]) == UpdateRate(t, q, 0);
    assert Lookup(t, q) == Lookup(Run(ips, EMPTY, es), q);
    assert UpdateRate(t, q, 0).flows[0].qpn == q;
  }

  // ---------- both directions ----------

  lemma {:induction false} HarmlessCoherent(ips: PathIps, ms: seq<Event>, es: seq<Event>)
    requires AlwaysHarmless(ips, ms) && CmEvents(es) <= ms
    ensures ValidTables(Run(ips, EMPTY, es)) && Coherent(Run(ips, EMPTY, es))
  {
    RunKeepsTables(ips, EMPTY, es);
    if |es| > 0 {
      assert CmEvents(Front(es)) <= CmEvents(es);
      HarmlessCoherent(ips, ms, Front(es));
      assert NextHarmless(ips, ms, Front(es));
      CoherentIffHarmless(ips, Run(ips, EMPTY, Front(es)), Last(es));
    }
  }

  lemma {:induction false} HarmlessHides(ips: PathIps, ms: seq<Event>, es: seq<Event>, fs: seq<Event>, q: u32)
    requires AlwaysHarmless(ips, ms) && CmEvents(es) == CmEvents(fs) && CmEvents(es) <= ms
    ensures Agree(ips, es, fs, q)
  {
    var t, u := Run(ips, EMPTY, es), Run(ips, EMPTY, fs);
    if Tracked(t, q) && Tracked(u, q) {
      HarmlessCoherent(ips, ms, es);
      HarmlessCoherent(ips, ms, fs);
      CmTablesOfRun(ips, EMPTY, es);
      CmTablesOfRun(ips, EMPTY, fs);
      assert Settled(t, t.flows[FlowIndex(t.flows, q)]) && Settled(u, u.flows[FlowIndex(u.flows, q)]);
    }
  }

  lemma {:induction false} HiddenCoherent(ips: PathIps, ms: seq<Event>, es: seq<Event>)
    requires TimingHidden(ips, ms) && CmEvents(es) <= ms
    ensures ValidTables(Run(ips, EMPTY, es)) && Coherent(Run(ips, EMPTY, es))
  {
    var t := Run(ips, EMPTY, es);
    RunKeepsTables(ips, EMPTY, es);
    ReceiversAreKnown(ips, es);
    forall i | 0 <= i < |t.flows| ensures Settled(t, t.flows[i]) {
      var q := t.flows[i].qpn;
      UniqueSlot(t, i, q);
      ReportedLast(ips, es, q);
      assert Agree(ips, es, CmEvents(es) + [Rate(q, 0)], q);
    }
  }

  lemma {:induction false} HiddenHarmless(ips: PathIps, ms: seq<Event>, es: seq<Event>)
    requires TimingHidden(ips, ms) && CmEvents(es) < ms && IsCm(ms[|CmEvents(es)|])
    ensures NextHarmless(ips, ms, es)
  {
    var m := ms[|CmEvents(es)|];
    CmEventsOfMore(es, m);
    HiddenCoherent(ips, ms, es);
    HiddenCoherent(ips, ms, es + [m]);
    assert Front(es + [m]) == es;
    CoherentIffHarmless(ips, Run(ips, EMPTY, es), m);
  }

  /**
   The exact condition: the moments of reports and polls are hidden while the messages `ms`
   arrive if and only if each message is harmless wherever a run of the earlier ones can lead.
   */
  lemma {:induction false} TimingIff(ips: PathIps, ms: seq<Event>)
    requires forall i :: 0 <= i < |ms| ==> IsCm(ms[i])
    ensures TimingHidden(ips, ms) <==> AlwaysHarmless(ips, ms)
  {
    if TimingHidden(ips, ms) {
      forall es: seq<Event> ensures NextHarmless(ips, ms, es) {
        if CmEvents(es) < ms { HiddenHarmless(ips, ms, es); }
      }
    }
    if AlwaysHarmless(ips, ms) {
      forall es: seq<Event>, fs: seq<Event>, q: u32 | CmEvents(es) == CmEvents(fs) && CmEvents(es) <= ms
        ensures Agree(ips, es, fs, q)
      {
        HarmlessHides(ips, ms, es, fs, q);
      }
    }
  }

  // ---------- the condition on the messages alone ----------

  /** The same connection tables with `q` the only tracked flow. */
  function Only(t: Tables, q: u32): Tables { Tables([ZERO_FLOW.(qpn := q)], t.requests, t.pairs) }

  /** Harmless whichever sender has been reported: a check on the connection tables. */
  ghost predicate HarmlessToAll(ips: PathIps, t: Tables, e: Event) {
    forall q: u32 :: 1 < q < TWO_24 ==> Harmless(ips, Only(t, q), e)
  }

  lemma {:induction false} OnlyTracks(t: Tables, q: u32, k: u32)
    ensures Tracked(Only(t, q), k) <==> k == q
    ensures Lookup(Only(t, q), k) == Lookup(t, k)
  {
    assert Only(t, q).flows[0].qpn == q;
  }

  lemma {:induction false} UnpairedOnly(t: Tables, q: u32, k: u32)
    ensures Unpaired(Only(t, q), k) <==> k == q && PairIndex(t.pairs, k) == |t.pairs|
  {
    OnlyTracks(t, q, k);
  }

  lemma {:induction false} FitsOnly(t: Tables, q: u32, k: u32, path: PathId, receiver: u32)
    ensures k != q ==> Fits(Only(t, q), k, path, receiver)
    ensures Tracked(t, k) ==> (Fits(Only(t, k), k, path, receiver) <==> Fits(t, k, path, receiver))
  {
    OnlyTracks(t, q, k);
    OnlyTracks(t, k, k);
  }

  /** The senders whose flows an event could unsettle. */
  function Concerned(t: Tables, e: Event): set<u32> {
    match e
    case Req(c, q, _) =>
      var i := RequestIndex(t.requests, c);
      if i < |t.requests| then {q, t.requests[i].initiatorQpn} else {q}
    case Rep(c, _) =>
      var i := RequestIndex(t.requests, c);
      if i < |t.requests| then {t.requests[i].initiatorQpn} else {}
    case Feedback(raw, _) => {Qpn24(raw)}
    case _ => {}
  }

  lemma {:induction false} RewriteSplits(t: Tables, i: nat, q: u32, path: Option<PathId>)
    requires i < |t.requests|
    ensures var p := t.requests[i].initiatorQpn;
      RewriteHarmless(t, i, q, path) <==>
      (Tracked(t, q) ==> RewriteHarmless(Only(t, q), i, q, path)) &&
      (Tracked(t, p) ==> RewriteHarmless(Only(t, p), i, q, path))
  {
    var p := t.requests[i].initiatorQpn;
    UnpairedOnly(t, q, q);
    UnpairedOnly(t, q, p);
    UnpairedOnly(t, p, q);
    UnpairedOnly(t, p, p);
  }

  lemma {:induction false} HarmlessUnconcerned(ips: PathIps, t: Tables, e: Event, q: u32)
    requires q !in Concerned(t, e)
    ensures Harmless(ips, Only(t, q), e)
  {
    match e
    case Req(c, k, ip) =>
      var i := RequestIndex(t.requests, c);
      OnlyTracks(t, q, k);
      if i < |t.requests| {
        UnpairedOnly(t, q, k);
        UnpairedOnly(t, q, t.requests[i].initiatorQpn);
      }
    case Rep(c, r) =>
      var i := RequestIndex(t.requests, c);
      if i < |t.requests| { FitsOnly(t, q, t.requests[i].initiatorQpn, t.requests[i].path, r); }
    case Feedback(raw, ip) =>
      OnlyTracks(t, q, Qpn24(raw));
      if Resolve(ips, ip).Some? { FitsOnly(t, q, Qpn24(raw), Resolve(ips, ip).value, Qpn24(raw)); }
    case Rate(_, _) =>
    case Poll =>
  }

  /** An event is harmless exactly when it is so to each tracked flow that it concerns. */
  lemma {:induction false} HarmlessSplits(ips: PathIps, t: Tables, e: Event)
    ensures Harmless(ips, t, e) <==>
            forall q: u32 :: q in Concerned(t, e) && Tracked(t, q) ==> Harmless(ips, Only(t, q), e)
  {
    match e
    case Req(c, k, ip) =>
      var i := RequestIndex(t.requests, c);
      OnlyTracks(t, k, k);
      if i < |t.requests| { RewriteSplits(t, i, k, Resolve(ips, ip)); }
      assert k in Concerned(t, e);
      assert i < |t.requests| ==> t.requests[i].initiatorQpn in Concerned(t, e);
    case Rep(c, r) =>
      var i := RequestIndex(t.requests, c);
      if i < |t.requests| {
        FitsOnly(t, 0, t.requests[i].initiatorQpn, t.requests[i].path, r);
        assert t.requests[i].initiatorQpn in Concerned(t, e);
      }
    case Feedback(raw, ip) =>
      OnlyTracks(t, Qpn24(raw), Qpn24(raw));
      if Resolve(ips, ip).Some? { FitsOnly(t, 0, Qpn24(raw), Resolve(ips, ip).value, Qpn24(raw)); }
      assert Qpn24(raw) in Concerned(t, e);
    case Rate(_, _) =>
    case Poll =>
  }

  lemma {:induction false} ToAllIsHarmless(ips: PathIps, t: Tables, e: Event)
    requires ValidTables(t) && HarmlessToAll(ips, t, e)
    ensures Harmless(ips, t, e)
  {
    HarmlessSplits(ips, t, e);
  }

  lemma {:induction false} HarmlessTo(ips: PathIps, t: Tables, e: Event, q: u32)
    requires Harmless(ips, t, e) && Tracked(t, q)
    ensures Harmless(ips, Only(t, q), e)
  {
    HarmlessSplits(ips, t, e);
    if q !in Concerned(t, e) { HarmlessUnconcerned(ips, t, e, q); }
  }

  lemma {:induction false} MessagesOnly(ms: seq<Event>)
    requires forall i :: 0 <= i < |ms| ==> IsCm(ms[i])
    ensures CmEvents(ms) == ms
  {
    if |ms| > 0 {
      MessagesOnly(Front(ms));
      assert Front(ms) + [Last(ms)] == ms;
    }
  }

  lemma {:induction false} SameTablesSameCheck(ips: PathIps, es: seq<Event>, m: Event)
    ensures HarmlessToAll(ips, Run(ips, EMPTY, CmEvents(es)), m) ==> HarmlessToAll(ips, Run(ips, EMPTY, es), m)
  {
    CmTablesOfRun(ips, EMPTY, es);
    forall q: u32 ensures Only(Run(ips, EMPTY, CmEvents(es)), q) == Only(Run(ips, EMPTY, es), q) {}
  }

  lemma {:induction false} ReachedByAll(ips: PathIps, ms: seq<Event>, n: nat)
    requires (forall i :: 0 <= i < |ms| ==> IsCm(ms[i])) && AlwaysHarmless(ips, ms) && n < |ms|
    ensures HarmlessToAll(ips, Run(ips, EMPTY, ms[..n]), ms[n])
  {
    var es := ms[..n];
    MessagesOnly(es);
    forall q: u32 | 1 < q < TWO_24 ensures Harmless(ips, Only(Run(ips, EMPTY, es), q), ms[n]) {
      var late := es + [Rate(q, 0)];
      ReportedLast(ips, es, q);
      assert NextHarmless(ips, ms, late);
      HarmlessTo(ips, Run(ips, EMPTY, late), ms[n], q);
      CmTablesOfRun(ips, EMPTY, late);
      assert Only(Run(ips, EMPTY, late), q) == Only(Run(ips, EMPTY, es), q);
    }
  }

  lemma {:induction false} CheckedIsHarmless(ips: PathIps, ms: seq<Event>, es: seq<Event>)
    requires CmEvents(es) < ms
    requires HarmlessToAll(ips, Run(ips, EMPTY, ms[..|CmEvents(es)|]), ms[|CmEvents(es)|])
    ensures NextHarmless(ips, ms, es)
  {
    var n := |CmEvents(es)|;
    assert ms[..n] == CmEvents(es);
    RunKeepsTables(ips, EMPTY, es);
    SameTablesSameCheck(ips, es, ms[n]);
    ToAllIsHarmless(ips, Run(ips, EMPTY, es), ms[n]);
  }

  /**
   So timing is hidden if and only if each message passes the check on the tables that the
   messages before it leave: a finite check, before each message, of the senders it concerns.
   */
  lemma {:induction false} TimingCheck(ips: PathIps, ms: seq<Event>)
    requires forall i :: 0 <= i < |ms| ==> IsCm(ms[i])
    ensures TimingHidden(ips, ms) <==>
            forall n :: 0 <= n < |ms| ==> HarmlessToAll(ips, Run(ips, EMPTY, ms[..n]), ms[n])
  {
    TimingIff(ips, ms);
    if AlwaysHarmless(ips, ms) {
      forall n | 0 <= n < |ms| ensures HarmlessToAll(ips, Run(ips, EMPTY, ms[..n]), ms[n]) {
        ReachedByAll(ips, ms, n);
      }
    }
    if forall n :: 0 <= n < |ms| ==> HarmlessToAll(ips, Run(ips, EMPTY, ms[..n]), ms[n]) {
      forall es: seq<Event> ensures NextHarmless(ips, ms, es) {
        if CmEvents(es) < ms { CheckedIsHarmless(ips, ms, es); }
      }
    }
  }

  // ---------- two runs that differ ----------

  /** A flow that is not settled is classified differently if it is reported last. */
  lemma {:induction false} UnsettledDiverges(ips: PathIps, es: seq<Event>) returns (q: u32)
    requires !Coherent(Run(ips, EMPTY, es))
    ensures 1 < q < TWO_24 && Tracked(Run(ips, EMPTY, es), q)
    ensures RouteOf(FlowOf(Run(ips, EMPTY, es), q)) != Lookup(Run(ips, EMPTY, es), q)
  {
    var t := Run(ips, EMPTY, es);
    RunKeepsTables(ips, EMPTY, es);
    ReceiversAreKnown(ips, es);
    var i :| 0 <= i < |t.flows| && !Settled(t, t.flows[i]);
    q := t.flows[i].qpn;
    UniqueSlot(t, i, q);
  }

  lemma {:induction false} HarmfulUnsettles(ips: PathIps, es: seq<Event>, m: Event)
    requires Coherent(Run(ips, EMPTY, es)) && !Harmless(ips, Run(ips, EMPTY, es), m)
    ensures !Coherent(Run(ips, EMPTY, es + [m]))
  {
    RunKeepsTables(ips, EMPTY, es);
    assert Front(es + [m]) == es;
    CoherentIffHarmless(ips, Run(ips, EMPTY, es), m);
  }

  /**
   A message that is not harmless at a settled state gives two runs of the same messages, one
   with a sender reported before them and one with it reported last, that classify it differently.
   */
  lemma {:induction false} HarmfulDiverges(ips: PathIps, es: seq<Event>, m: Event) returns (q: u32)
    requires Coherent(Run(ips, EMPTY, es)) && IsCm(m) && !Harmless(ips, Run(ips, EMPTY, es), m)
    ensures var early, late := es + [m], CmEvents(es) + [m] + [Rate(q, 0)];
      && CmEvents(early) == CmEvents(late)
      && Tracked(Run(ips, EMPTY, early), q) && Tracked(Run(ips, EMPTY, late), q)
      && !Agree(ips, early, late, q)
  {
    HarmfulUnsettles(ips, es, m);
    q := UnsettledDiverges(ips, es + [m]);
    CmEventsOfMore(es, m);
    ReportedLast(ips, es + [m], q);
  }

  // ---------- without the discipline ----------

  lemma {:induction false} ReportedFirst()
    ensures var t := Run(PathIps(1, 2), EMPTY, [Rate(100, 9), Req(7, 100, 1), Req(8, 100, 2)]);
      |t.flows| == 1 && t.flows[0].qpn == 100 && t.flows[0].classified && t.flows[0].path == 1
  {
    Three(PathIps(1, 2), Rate(100, 9), Req(7, 100, 1), Req(8, 100, 2));
  }

  lemma {:induction false} ReportedAfter()
    ensures var t := Run(PathIps(1, 2), EMPTY, [Req(7, 100, 1), Req(8, 100, 2), Rate(100, 9)]);
      |t.flows| == 1 && t.flows[0].qpn == 100 && t.flows[0].classified && t.flows[0].path == 0
  {
    Three(PathIps(1, 2), Req(7, 100, 1), Req(8, 100, 2), Rate(100, 9));
  }

  /** Two addresses for one sender: the path depends on whether the report came first or last. */
  lemma {:induction false} TwoAddressesDiverge()
    ensures var ips := PathIps(1, 2);
      var early := [Rate(100, 9), Req(7, 100, 1), Req(8, 100, 2)];
      var late := [Req(7, 100, 1), Req(8, 100, 2), Rate(100, 9)];
      && CmEvents(early) == CmEvents(late)
      && |Run(ips, EMPTY, early).flows| == |Run(ips, EMPTY, late).flows| == 1
      && Run(ips, EMPTY, early).flows[0].qpn == Run(ips, EMPTY, late).flows[0].qpn == 100
      && Run(ips, EMPTY, early).flows[0].path == 1
      && Run(ips, EMPTY, late).flows[0].path == 0
  {
    ReportedFirst();
    ReportedAfter();
    Three(PathIps(1, 2), Rate(100, 9), Req(7, 100, 1), Req(8, 100, 2));
    Three(PathIps(1, 2), Req(7, 100, 1), Req(8, 100, 2), Rate(100, 9));
  }

  /** A comm_id used again for another sender: that sender's flow is never classified if it was there before. */
  lemma {:induction false} ReusedCommIdDiverges()
    ensures var ips := PathIps(1, 2);
      var early := [Rate(200, 9), Req(7, 100, 1), Req(7, 200, 2)];
      var late := [Req(7, 100, 1), Req(7, 200, 2), Rate(200, 9)];
      && CmEvents(early) == CmEvents(late)
      && |Run(ips, EMPTY, early).flows| == |Run(ips, EMPTY, late).flows| == 1
      && !Run(ips, EMPTY, early).flows[0].classified
      && Run(ips, EMPTY, late).flows[0].classified
  {
    var ips := PathIps(1, 2);
    var a, b, r := Req(7, 100, 1), Req(7, 200, 2), Rate(200, 9);
    Three(ips, r, a, b);
    Three(ips, a, b, r);
  }

  lemma {:induction false} Three(ips: PathIps, a: Event, b: Event, c: Event)
    ensures Run(ips, EMPTY, [a, b, c]) == Apply(ips, Apply(ips, Apply(ips, EMPTY, a), b), c)
    ensures CmEvents([a, b, c]) ==
            (if IsCm(a) then [a] else []) + (if IsCm(b) then [b] else []) + (if IsCm(c) then [c] else [])
  {
    assert Front([a, b, c]) == [a, b] && Front([a, b]) == [a] && Front([a]) == [];
    assert Run(ips, EMPTY, [a]) == Apply(ips, EMPTY, a);
    assert Run(ips, EMPTY, [a, b]) == Apply(ips, Run(ips, EMPTY, [a]), b);
    assert CmEvents([a]) == if IsCm(a) then [a] else [];
    assert CmEvents([a, b]) == CmEvents([a]) + if IsCm(b) then [b] else [];
  }
}
