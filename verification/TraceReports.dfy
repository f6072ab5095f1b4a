/**
 The rate channel of DOCA 3.x: one algorithm context turns its events into trace reports and
 leaves out a report whose rate is the one it reported last. The reports are proved to be the
 events with adjacent repetitions removed, so that nothing is lost, exactly when no owner of
 the context starts with the one rate that the context takes for already reported.
 */
module TraceReports {
  import opened Words
  import opened RateMailbox
  import opened HostRates

  const UINT32_MAX: u32 := 0xFFFF_FFFF
  const FULL_RATE: u32 := 0x10_0000

  /** Only TX carries the QPN. `rate` is what the algorithm returned for the event. */
  datatype Event = Tx(qpn: u32, rate: u32) | Other(rate: u32)

  /** The two members of the per-QP context, and every report sent so far. */
  datatype Link = Link(flowQpn: u32, lastReported: u32, reports: seq<Slot>)

  const FRESH := Link(0, 0, [])

  predicate Known(l: Link, e: Event) { e.Tx? || l.flowQpn != 0 }

  function Owner(l: Link, e: Event): u32 { if e.Tx? then e.qpn else l.flowQpn }

  /** The rate that would be taken for already reported; a recycled context forgets its own. */
  function Remembered(l: Link, e: Event): u32 {
    if e.Tx? && l.flowQpn != 0 && l.flowQpn != e.qpn then UINT32_MAX else l.lastReported
  }

  function Observe(l: Link, e: Event): Link {
    if !Known(l, e) then l
    else if Remembered(l, e) == e.rate then Link(Owner(l, e), e.rate, l.reports)
    else Link(Owner(l, e), e.rate, l.reports + [Slot(Owner(l, e), e.rate)])
  }

  /** The context as the event handler overwrites it. */
  class Context {
    var flowQpn: u32
    var lastReportedRate: u32
    ghost var reports: seq<Slot>

    ghost function State(): Link
      reads this
    {
      Link(flowQpn, lastReportedRate, reports)
    }

    constructor ()
      ensures State() == FRESH
    {
      flowQpn, lastReportedRate, reports := 0, 0, [];
    }

    /** The identity and report part of the handler; `steeringRate` comes from the algorithm. */
    method HandleEvent(e: Event) returns (report: Option<Slot>)
      modifies this
      ensures State() == Observe(old(State()), e)
      ensures reports == old(reports) + if report.Some? then [report.value] else []
    {
      var qpn: u32 := 0;
      var qpnKnown := false;
      if e.Tx? {
        qpn := e.qpn;
        qpnKnown := true;
        var firstObservedFlow := flowQpn == 0;
        if !firstObservedFlow && flowQpn != qpn {
          lastReportedRate := UINT32_MAX;
        }
        flowQpn := qpn;
      } else if flowQpn != 0 {
        qpn := flowQpn;
        qpnKnown := true;
      }
      report := None;
      if qpnKnown && lastReportedRate != e.rate {
        report := Some(Slot(qpn, e.rate));
        reports := reports + [Slot(qpn, e.rate)];
        lastReportedRate := e.rate;
      }
    }
  }

  function Links(es: seq<Event>): Link {
    if |es| == 0 then FRESH else Observe(Links(es[..|es| - 1]), es[|es| - 1])
  }

  /** The reports of a run of events. */
  function ReportsOf(es: seq<Event>): seq<Slot> { Links(es).reports }

  // ---------- what happened, told from the events alone ----------

  /** The QPN of the last TX event: whose events the context is seeing. */
  function OwnerOf(es: seq<Event>): Option<u32> {
    if |es| == 0 then None
    else
      var e := es[|es| - 1];
      if e.Tx? then Some(e.qpn) else OwnerOf(es[..|es| - 1])
  }

  /** Every event with an owner, of whatever kind, as a QPN and its new rate. */
  function Truth(es: seq<Event>): seq<Slot> {
    if |es| == 0 then []
    else
      var rest := Truth(es[..|es| - 1]);
      if OwnerOf(es).Some? then rest + [Slot(OwnerOf(es).value, es[|es| - 1].rate)] else rest
  }

  /** Adjacent repetitions removed. */
  function Compress(rs: seq<Slot>): seq<Slot> {
    if |rs| == 0 then []
    else
      var c, r := Compress(rs[..|rs| - 1]), rs[|rs| - 1];
      if |c| > 0 && c[|c| - 1] == r then c else c + [r]
  }

  /** A map of the last rate per QPN. */
  function LatestRates(rs: seq<Slot>): map<u32, u32> {
    if |rs| == 0 then map[] else LatestRates(rs[..|rs| - 1])[rs[|rs| - 1].qpn := rs[|rs| - 1].rate]
  }

  /** After every event with an owner the last report is that owner and that event's rate. */
  ghost predicate Faithful(es: seq<Event>) {
    |es| > 0 ==>
      var rs := ReportsOf(es);
      && Faithful(es[..|es| - 1])
      && (OwnerOf(es).Some? ==> |rs| > 0 && rs[|rs| - 1] == Slot(OwnerOf(es).value, es[|es| - 1].rate))
  }

  /**
   The next event is lost after `rs` has happened: a first rate of 0, the marker rate under a new
   owner, or an event around QPN 0, which the context takes for no owner.
   */
  predicate Lost(rs: seq<Slot>, e: Event) {
    match e
    case Tx(q, x) =>
      if |rs| == 0 then x == 0
      else
        var last := rs[|rs| - 1];
        last.qpn != q && x == if last.qpn != 0 then UINT32_MAX else last.rate
    case Other(x) => |rs| > 0 && rs[|rs| - 1].qpn == 0 && x != rs[|rs| - 1].rate
  }

  ghost predicate NothingLost(es: seq<Event>) {
    |es| > 0 ==> NothingLost(es[..|es| - 1]) && !Lost(Truth(es[..|es| - 1]), es[|es| - 1])
  }

  /** The context remembers what happened last. */
  ghost predicate InStep(l: Link, rs: seq<Slot>) {
    if |rs| == 0 then l == FRESH
    else
      && |l.reports| > 0 && l.reports[|l.reports| - 1] == rs[|rs| - 1]
      && rs[|rs| - 1] == Slot(l.flowQpn, l.lastReported)
  }

  lemma {:induction false} OwnerIsLast(es: seq<Event>)
    ensures |Truth(es)| == 0 <==> OwnerOf(es).None?
    ensures |Truth(es)| > 0 ==> Truth(es)[|Truth(es)| - 1] == Slot(OwnerOf(es).value, es[|es| - 1].rate)
  {
    if |es| > 0 { OwnerIsLast(es[..|es| - 1]); }
  }

  /** One event that follows what happened. */
  lemma {:induction false} ObserveNext(l: Link, es: seq<Event>)
    requires |es| > 0 && InStep(l, Truth(es[..|es| - 1]))
    ensures var l' := Observe(l, es[|es| - 1]); var rs := Truth(es);
      && (|rs| > 0 ==>
            (!Lost(Truth(es[..|es| - 1]), es[|es| - 1]) <==>
             |l'.reports| > 0 && l'.reports[|l'.reports| - 1] == rs[|rs| - 1]))
      && (!Lost(Truth(es[..|es| - 1]), es[|es| - 1]) ==> InStep(l', rs))
      && (|rs| == 0 ==> !Lost(Truth(es[..|es| - 1]), es[|es| - 1]))
  {
    OwnerIsLast(es[..|es| - 1]);
  }

  /** The trace is lossless exactly when nothing is lost, and then the context is in step. */
  lemma {:induction false} FaithfulIff(es: seq<Event>)
    ensures Faithful(es) <==> NothingLost(es)
    ensures Faithful(es) ==> InStep(Links(es), Truth(es))
  {
    if |es| > 0 {
      FaithfulIff(es[..|es| - 1]);
      OwnerIsLast(es);
      if Faithful(es[..|es| - 1]) { ObserveNext(Links(es[..|es| - 1]), es); }
    }
  }

  lemma {:induction false} CompressOne(rs: seq<Slot>, r: Slot)
    ensures var c := Compress(rs); Compress(rs + [r]) == if |c| > 0 && c[|c| - 1] == r then c else c + [r]
  {
    assert (rs + [r])[..|rs|] == rs;
  }

  lemma {:induction false} ObserveReports(l: Link, e: Event, front: seq<Slot>, rs: seq<Slot>)
    requires InStep(l, front) && l.reports == Compress(front) && InStep(Observe(l, e), rs)
    requires rs == front || (|rs| == |front| + 1 && rs[..|front|] == front)
    ensures Observe(l, e).reports == Compress(rs)
  {
    if |rs| > |front| {
      CompressOne(front, rs[|front|]);
      assert front + [rs[|front|]] == rs;
    }
  }

  /** A lossless trace reports what happened without adjacent repetitions. */
  lemma {:induction false} ReportsAreTruth(es: seq<Event>)
    requires Faithful(es)
    ensures ReportsOf(es) == Compress(Truth(es))
  {
    FaithfulIff(es);
    if |es| > 0 {
      var front := es[..|es| - 1];
      ReportsAreTruth(front);
      FaithfulIff(front);
      ObserveReports(Links(front), es[|es| - 1], Truth(front), Truth(es));
    }
  }

  lemma {:induction false} CompressKeepsLatest(rs: seq<Slot>)
    ensures LatestRates(Compress(rs)) == LatestRates(rs)
    ensures |rs| > 0 ==> |Compress(rs)| > 0 && Compress(rs)[|Compress(rs)| - 1] == rs[|rs| - 1]
    ensures forall i :: 0 < i < |Compress(rs)| ==> Compress(rs)[i] != Compress(rs)[i - 1]
  {
    if |rs| > 0 {
      var front, r := rs[..|rs| - 1], rs[|rs| - 1];
      CompressKeepsLatest(front);
      var c := Compress(front);
      if |c| > 0 && c[|c| - 1] == r {
        assert LatestRates(c) == LatestRates(c[..|c| - 1])[r.qpn := r.rate];
      } else {
        assert (c + [r])[..|c|] == c;
      }
    }
  }

  /**
   A lossless trace is the events with adjacent repetitions removed: it gives every QPN its
   latest rate, and two reports in a row under one owner never carry the same rate.
   */
  lemma {:induction false} TraceIsTruth(es: seq<Event>)
    requires NothingLost(es)
    ensures var rs := ReportsOf(es);
      && rs == Compress(Truth(es))
      && LatestRates(rs) == LatestRates(Truth(es))
      && forall i :: 0 < i < |rs| && rs[i].qpn == rs[i - 1].qpn ==> rs[i].rate != rs[i - 1].rate
  {
    FaithfulIff(es);
    ReportsAreTruth(es);
    CompressKeepsLatest(Truth(es));
  }

  /** The QPN marker 0 is never used by traffic, and a rate is never 0 nor above the full rate. */
  predicate Ordinary(e: Event) { (e.Tx? ==> e.qpn != 0) && 0 < e.rate <= FULL_RATE }

  ghost predicate OrdinaryRun(es: seq<Event>) { forall i :: 0 <= i < |es| ==> Ordinary(es[i]) }

  lemma {:induction false} OrdinaryOwner(es: seq<Event>)
    requires OrdinaryRun(es)
    ensures OwnerOf(es) != Some(0)
  {
    if |es| > 0 && !es[|es| - 1].Tx? { OrdinaryOwner(es[..|es| - 1]); }
  }

  /** Under ordinary traffic nothing is ever lost, however often the context is recycled. */
  lemma {:induction false} OrdinaryNeverLost(es: seq<Event>)
    requires OrdinaryRun(es)
    ensures NothingLost(es)
  {
    if |es| > 0 {
      var front := es[..|es| - 1];
      OrdinaryNeverLost(front);
      OrdinaryOwner(front);
      OwnerIsLast(front);
      assert Ordinary(es[|es| - 1]);
    }
  }

  /** Event `k` is the last TX event. */
  predicate IsLastTx(es: seq<Event>, k: nat) {
    k < |es| && es[k].Tx? && forall j :: k < j < |es| ==> !es[j].Tx?
  }

  lemma {:induction false} OwnerIs(es: seq<Event>, k: nat)
    ensures IsLastTx(es, k) ==> OwnerOf(es) == Some(es[k].qpn)
    ensures (forall j :: 0 <= j < |es| ==> !es[j].Tx?) ==> OwnerOf(es) == None
  {
    if |es| > 0 && !es[|es| - 1].Tx? {
      var front := es[..|es| - 1];
      assert forall j :: 0 <= j < |front| ==> front[j] == es[j];
      OwnerIs(front, k);
    }
  }

  lemma {:induction false} NothingReported(es: seq<Event>)
    requires OwnerOf(es).None?
    ensures ReportsOf(es) == [] && Links(es) == FRESH
  {
    if |es| > 0 { NothingReported(es[..|es| - 1]); }
  }

  /**
   Ordinary traffic, told from the list of events: after any event, be it TX or not, the last report
   carries the QPN of the last TX event and the rate of this event; before the first TX nothing
   is reported.
   */
  lemma {:induction false} LastReport(es: seq<Event>, i: nat, k: nat)
    requires OrdinaryRun(es) && i < |es|
    ensures var rs := ReportsOf(es[..i + 1]);
      && (IsLastTx(es[..i + 1], k) ==> |rs| > 0 && rs[|rs| - 1] == Slot(es[k].qpn, es[i].rate))
      && ((forall j :: 0 <= j <= i ==> !es[j].Tx?) ==> rs == [])
  {
    var now := es[..i + 1];
    OrdinaryNeverLost(now);
    FaithfulIff(now);
    OwnerIs(now, k);
    if OwnerOf(now).None? { NothingReported(now); }
  }

  /** Each way of losing a first rate. */
  lemma {:induction false} SwallowedExamples()
    ensures !Faithful([Tx(7, 0)]) && !Faithful([Tx(7, 5), Tx(8, UINT32_MAX)]) && !Faithful([Tx(0, 5), Tx(7, 5)])
  {
    assert [Tx(7, 0)][..0] == [];
    assert Links([Tx(7, 0)]).reports == [];
    assert [Tx(7, 5), Tx(8, UINT32_MAX)][..1] == [Tx(7, 5)] && [Tx(7, 5)][..0] == [];
    assert Links([Tx(7, 5)]) == Link(7, 5, [Slot(7, 5)]);
    assert Links([Tx(7, 5), Tx(8, UINT32_MAX)]).reports == [Slot(7, 5)];
    assert [Tx(0, 5), Tx(7, 5)][..1] == [Tx(0, 5)] && [Tx(0, 5)][..0] == [];
    assert Links([Tx(0, 5)]) == Link(0, 5, [Slot(0, 5)]);
    assert Links([Tx(0, 5), Tx(7, 5)]).reports == [Slot(0, 5)];
  }

  /** While the host's table has room its last rates are that map. */
  lemma {:induction false} HostTableIsLatest(rs: seq<Slot>, q: u32)
    requires |RecordAll([], rs)| < MAX_TRACKED_FLOWS
    ensures var es := RecordAll([], rs); var k := EntryIndex(es, q);
      && (q in LatestRates(rs) <==> k < |es|)
      && (k < |es| ==> es[k].lastRate == LatestRates(rs)[q])
  {
    if |rs| > 0 {
      var front, r := rs[..|rs| - 1], rs[|rs| - 1];
      var es, es' := RecordAll([], front), RecordAll([], rs);
      HostTableIsLatest(front, q);
      var k := EntryIndex(es, q);
      assert forall j :: 0 <= j < |es| ==> es'[j].qpn == es[j].qpn;
      if k < |es| || r.qpn == q { assert es'[k].qpn == q && EntryIndex(es', q) == k; }
    }
  }
}
