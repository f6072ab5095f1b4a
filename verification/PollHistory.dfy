/**
 What the polls make of the reports, told from the events alone: the sample of an interval is
 the rounded-down average of its reports, or the last report if there was none, and the
 smoothed rate is the first sample followed by weighted steps of one eighth.
 */
module PollHistory {
  import opened Words
  import opened SteerTables
  import opened SteerRuns

  // ---------- the reports of one QPN ----------

  predicate Reports(e: Event, q: u32) { e.Rate? && Qpn24(e.rawQpn) == q }

  /** How many reports of `q` came since the last poll. */
  function ReportsSince(es: seq<Event>, q: u32): nat {
    if |es| == 0 || Last(es).Poll? then 0
    else ReportsSince(Front(es), q) + if Reports(Last(es), q) then 1 else 0
  }

  /** What they add up to. */
  function SumSince(es: seq<Event>, q: u32): nat {
    if |es| == 0 || Last(es).Poll? then 0
    else SumSince(Front(es), q) + if Reports(Last(es), q) then Last(es).rate else 0
  }

  predicate Seen(es: seq<Event>, q: u32) { |es| > 0 && (Reports(Last(es), q) || Seen(Front(es), q)) }

  /** The rate of the last report. */
  function LastRate(es: seq<Event>, q: u32): u32 {
    if |es| == 0 then 0 else if Reports(Last(es), q) then Last(es).rate else LastRate(Front(es), q)
  }

  /** A poll has come after a report. */
  predicate Polled(es: seq<Event>, q: u32) {
    |es| > 0 && (Polled(Front(es), q) || (Last(es).Poll? && Seen(Front(es), q)))
  }

  /** No interval between two polls has more than 2^32 reports of `q`. */
  predicate Sparse(es: seq<Event>, q: u32) { |es| > 0 ==> Sparse(Front(es), q) && ReportsSince(es, q) <= TWO_32 }

  /** The average of the current interval, rounded down, or the last rate if nothing was reported in it. */
  function Sample(es: seq<Event>, q: u32): nat {
    if ReportsSince(es, q) == 0 then LastRate(es, q) else SumSince(es, q) / ReportsSince(es, q)
  }

  /** The first sample, and then seven parts of the old value and one of the new, rounded. */
  function SmoothedBy(es: seq<Event>, q: u32): nat {
    if |es| == 0 then 0
    else if !Last(es).Poll? || !Seen(Front(es), q) then SmoothedBy(Front(es), q)
    else if Polled(Front(es), q) then (7 * SmoothedBy(Front(es), q) + Sample(Front(es), q) + 4) / 8
    else Sample(Front(es), q)
  }

  // ---------- the fields of a flow ----------

  /** The part of a flow that reports and polls change. */
  datatype Meter = Meter(latest: u32, sum: u64, reports: u64, smoothed: u32, valid: bool)

  const NEW_METER := Meter(0, 0, 0, 0, false)

  function MeterOf(f: RateFlow): Meter {
    Meter(f.latestRate, f.intervalRateSum, f.intervalRateReports, f.smoothedRate, f.smoothedRateValid)
  }

  function MeterAt(t: Tables, q: u32): Option<Meter> {
    if Tracked(t, q) then Some(MeterOf(FlowOf(t, q))) else None
  }

  function Reported(m: Meter, rate: u32): Meter {
    m.(latest := rate, sum := (m.sum + rate) % TWO_64, reports := (m.reports + 1) % TWO_64)
  }

  function Taken(m: Meter): u32 { if m.reports == 0 then m.latest else (m.sum / m.reports) % TWO_32 }

  function Emptied(m: Meter): Meter {
    Meter(m.latest, 0, 0, if m.valid then ((7 * m.smoothed + Taken(m) + 4) / 8) % TWO_32 else Taken(m), true)
  }

  /** What one event does to a meter; a new one needs room. */
  function MeterAfter(m: Option<Meter>, e: Event, q: u32, room: bool): Option<Meter> {
    if Reports(e, q) then
      if m.Some? then Some(Reported(m.value, e.rate)) else if room then Some(Reported(NEW_METER, e.rate)) else None
    else if e.Poll? && m.Some? then Some(Emptied(m.value))
    else m
  }

  lemma {:induction false} SlotStays(t: Tables, t': Tables, q: u32)
    requires Tracked(t, q) && SameSlots(t.flows, t'.flows)
    ensures Tracked(t', q) && FlowIndex(t'.flows, q) == FlowIndex(t.flows, q)
  {
    var k := FlowIndex(t.flows, q);
    assert t'.flows[k].qpn == q && forall j :: 0 <= j < k ==> t'.flows[j].qpn == t.flows[j].qpn;
  }

  /** Connection messages change no meter and track no new flow. */
  lemma {:induction false} QuietMeter(ips: PathIps, t: Tables, e: Event, q: u32)
    requires ValidTables(t) && !e.Rate? && !e.Poll?
    ensures MeterAt(Apply(ips, t, e), q) == MeterAt(t, q)
  {
    var t' := Apply(ips, t, e);
    ApplyKeepsTables(ips, t, e);
    assert |t'.flows| == |t.flows|;
    if Tracked(t, q) { SlotStays(t, t', q); }
    if Tracked(t', q) { assert t.flows[FlowIndex(t'.flows, q)].qpn == q; }
  }

  lemma ReportedMeter(f: RateFlow, rate: u32, route: Route)
    ensures MeterOf(Classify(Report(f, rate), route)) == Reported(MeterOf(f), rate)
  {
  }

  /** A report writes its own slot, or a new one if there is room, and nothing else. */
  lemma {:induction false} RateSlot(t: Tables, k: u32, rate: u32)
    ensures var i := FlowIndex(t.flows, k); var fs := UpdateRate(t, k, rate).flows;
      if i == |t.flows| && i >= MAX_RATE_FLOWS then fs == t.flows
      else
        && |fs| == (if i < |t.flows| then |t.flows| else i + 1) && fs[i].qpn == k
        && MeterOf(fs[i]) == Reported(if i < |t.flows| then MeterOf(t.flows[i]) else NEW_METER, rate)
        && forall j :: 0 <= j < |t.flows| && j != i ==> fs[j] == t.flows[j]
  {
    var i := FlowIndex(t.flows, k);
    ReportedMeter(if i < |t.flows| then t.flows[i] else ZERO_FLOW.(qpn := k), rate, Lookup(t, k));
  }

  /** A report of `q` reaches its slot, or a new one if there is room; other flows stay as they are. */
  lemma {:induction false} RateMeter(t: Tables, k: u32, rate: u32, q: u32)
    ensures MeterAt(UpdateRate(t, k, rate), q) ==
            if q != k then MeterAt(t, q)
            else if Tracked(t, k) then Some(Reported(MeterOf(FlowOf(t, k)), rate))
            else if |t.flows| < MAX_RATE_FLOWS then Some(Reported(NEW_METER, rate)) else None
  {
    var i, j, fs := FlowIndex(t.flows, k), FlowIndex(t.flows, q), UpdateRate(t, k, rate).flows;
    RateSlot(t, k, rate);
    if fs != t.flows {
      assert forall m :: 0 <= m < i ==> fs[m].qpn == t.flows[m].qpn;
      assert FlowIndex(fs, k) == i;
      if q != k {
        assert forall m :: 0 <= m < |t.flows| ==> fs[m].qpn == t.flows[m].qpn;
        assert j < |t.flows| ==> FlowIndex(fs, q) == j;
        assert j == |t.flows| ==> FlowIndex(fs, q) == |fs|;
      }
    }
  }

  lemma {:induction false} PollMeter(t: Tables, q: u32)
    ensures MeterAt(Drain(t), q) == if Tracked(t, q) then Some(Emptied(MeterOf(FlowOf(t, q)))) else None
  {
    var i := FlowIndex(t.flows, q);
    var fs := Drain(t).flows;
    assert forall j :: 0 <= j < |t.flows| ==> fs[j].qpn == t.flows[j].qpn;
    assert FlowIndex(fs, q) == i;
  }

  lemma {:induction false} EventMeter(ips: PathIps, t: Tables, e: Event, q: u32)
    requires ValidTables(t) && 1 < q
    ensures MeterAt(Apply(ips, t, e), q) == MeterAfter(MeterAt(t, q), e, q, |t.flows| < MAX_RATE_FLOWS)
  {
    match e
    case Rate(raw, rate) => if Qpn24(raw) > 1 { RateMeter(t, Qpn24(raw), rate, q); }
    case Poll => PollMeter(t, q);
    case Req(_, _, _) => QuietMeter(ips, t, e, q);
    case Rep(_, _) => QuietMeter(ips, t, e, q);
    case Feedback(_, _) => QuietMeter(ips, t, e, q);
  }

  // ---------- runs ----------

  lemma {:induction false} Unseen(es: seq<Event>, q: u32)
    requires !Seen(es, q)
    ensures ReportsSince(es, q) == SumSince(es, q) == 0 && LastRate(es, q) == 0
    ensures !Polled(es, q) && SmoothedBy(es, q) == 0
  {
    if |es| > 0 { Unseen(Front(es), q); }
  }

  /** The fields of a meter are those of the events, up to their width. */
  ghost predicate Books(m: Meter, es: seq<Event>, q: u32) {
    && m.latest == LastRate(es, q) && m.valid == Polled(es, q)
    && m.sum == SumSince(es, q) % TWO_64 && m.reports == ReportsSince(es, q) % TWO_64
  }

  /** The meter of a tracked flow accounts for the reports of its QPN. */
  ghost predicate Accounts(m: Meter, es: seq<Event>, q: u32) { Seen(es, q) && Books(m, es, q) }

  lemma WrapAdd(a: nat, b: nat)
    ensures (a % TWO_64 + b) % TWO_64 == (a + b) % TWO_64
  {
  }

  lemma {:induction false} BooksReport(m: Meter, es: seq<Event>, q: u32)
    requires |es| > 0 && Reports(Last(es), q) && Books(m, Front(es), q)
    ensures Accounts(Reported(m, Last(es).rate), es, q)
  {
    WrapAdd(SumSince(Front(es), q), Last(es).rate);
    WrapAdd(ReportsSince(Front(es), q), 1);
  }

  lemma {:induction false} AccountsAfter(m: Option<Meter>, es: seq<Event>, q: u32, room: bool)
    requires |es| > 0 && if m.Some? then Accounts(m.value, Front(es), q) else !Seen(Front(es), q) || !room
    ensures var m' := MeterAfter(m, Last(es), q, room); m'.Some? ==> Accounts(m'.value, es, q)
  {
    if Reports(Last(es), q) {
      if m.Some? {
        BooksReport(m.value, es, q);
      } else if !Seen(Front(es), q) {
        Unseen(Front(es), q);
        BooksReport(NEW_METER, es, q);
      }
    }
  }

  /** Each tracked flow accounts for its reports, and a reported QPN without a flow met a full table. */
  lemma {:induction false} FlowAccounts(ips: PathIps, es: seq<Event>, q: u32)
    requires 1 < q
    ensures var t := Run(ips, EMPTY, es); var m := MeterAt(t, q);
      && ValidTables(t)
      && if m.Some? then Accounts(m.value, es, q) else !Seen(es, q) || |t.flows| == MAX_RATE_FLOWS
  {
    RunKeepsTables(ips, EMPTY, es);
    if |es| > 0 {
      var t := Run(ips, EMPTY, Front(es));
      FlowAccounts(ips, Front(es), q);
      EventMeter(ips, t, Last(es), q);
      ApplyKeepsTables(ips, t, Last(es));
      AccountsAfter(MeterAt(t, q), es, q, |t.flows| < MAX_RATE_FLOWS);
    }
  }

  // ---------- what a poll makes of the reports ----------

  lemma {:induction false} SumBound(es: seq<Event>, q: u32)
    ensures SumSince(es, q) <= ReportsSince(es, q) * (TWO_32 - 1)
  {
    if |es| > 0 { SumBound(Front(es), q); }
  }

  /** The average of up to 2^32 rates is not cut off anywhere. */
  lemma Average(sum: nat, n: nat)
    requires 0 < n <= TWO_32 && sum <= n * (TWO_32 - 1)
    ensures n % TWO_64 == n && sum % TWO_64 == sum && sum / n < TWO_32
  {
    MulMonotone(TWO_32 - 1, n, TWO_32);
    Quotient(sum, n, TWO_32 - 1);
  }

  lemma Quotient(sum: nat, n: nat, cap: nat)
    requires 0 < n && sum <= n * cap
    ensures sum / n <= cap
  {
    assert n * (sum / n) <= sum;
    if sum / n > cap { MulMonotone(n, cap + 1, sum / n); }
  }

  lemma TakenIs(m: Meter, sum: nat, n: nat, last: u32)
    requires m.sum == sum % TWO_64 && m.reports == n % TWO_64 && m.latest == last
    requires n <= TWO_32 && sum <= n * (TWO_32 - 1)
    ensures Taken(m) == if n == 0 then last else sum / n
  {
    if n > 0 { Average(sum, n); }
  }

  /** Up to 2^32 reports the sample a poll takes is the rounded-down average, or the last rate without reports. */
  lemma {:induction false} TakenIsSample(m: Meter, es: seq<Event>, q: u32)
    requires Accounts(m, es, q) && ReportsSince(es, q) <= TWO_32
    ensures Taken(m) == Sample(es, q)
  {
    SumBound(es, q);
    TakenIs(m, SumSince(es, q), ReportsSince(es, q), LastRate(es, q));
  }

  lemma StepFits(s: u32, x: u32)
    ensures ((7 * s + x + 4) / 8) % TWO_32 == (7 * s + x + 4) / 8
  {
  }

  lemma {:induction false} EmptiedIsStep(m: Meter, es: seq<Event>, q: u32)
    requires Accounts(m, es, q) && ReportsSince(es, q) <= TWO_32
    ensures Emptied(m).smoothed == if Polled(es, q) then (7 * m.smoothed + Sample(es, q) + 4) / 8 else Sample(es, q)
  {
    TakenIsSample(m, es, q);
    StepFits(m.smoothed, Taken(m));
  }

  /**
   The next poll, for every tracked QPN: its smoothed rate becomes the sample if no poll has seen
   the flow before, and otherwise moves by one eighth. The sample is the rounded-down average of
   the reports since the last poll, or the rate of the last report if there were none.
   */
  lemma {:induction false} PollAverages(ips: PathIps, es: seq<Event>, q: u32)
    requires Tracked(Run(ips, EMPTY, es), q) && ReportsSince(es, q) <= TWO_32
    ensures Tracked(Run(ips, EMPTY, es + [Poll]), q)
    ensures var s := FlowOf(Run(ips, EMPTY, es), q).smoothedRate;
      var n := ReportsSince(es, q);
      var x := if n == 0 then LastRate(es, q) else SumSince(es, q) / n;
      FlowOf(Run(ips, EMPTY, es + [Poll]), q).smoothedRate == if Polled(es, q) then (7 * s + x + 4) / 8 else x
  {
    var t := Run(ips, EMPTY, es);
    RunKeepsTables(ips, EMPTY, es);
    FlowAccounts(ips, es, q);
    assert Front(es + [Poll]) == es;
    assert Run(ips, EMPTY, es + [Poll]) == Drain(t);
    PollMeter(t, q);
    EmptiedIsStep(MeterOf(FlowOf(t, q)), es, q);
  }

  lemma {:induction false} ToldAfter(m: Option<Meter>, es: seq<Event>, q: u32, room: bool)
    requires |es| > 0 && Sparse(es, q)
    requires if m.Some? then Accounts(m.value, Front(es), q) else !Seen(Front(es), q) || !room
    requires m.Some? ==> m.value.smoothed == SmoothedBy(Front(es), q)
    ensures var m' := MeterAfter(m, Last(es), q, room); m'.Some? ==> m'.value.smoothed == SmoothedBy(es, q)
  {
    if m.Some? {
      if Last(es).Poll? { EmptiedIsStep(m.value, Front(es), q); }
    } else if !Seen(Front(es), q) {
      Unseen(Front(es), q);
    }
  }

  /** Over a whole run the smoothed rate is the one told by the events. */
  lemma {:induction false} SmoothedIsTold(ips: PathIps, es: seq<Event>, q: u32)
    requires 1 < q && Sparse(es, q)
    ensures var m := MeterAt(Run(ips, EMPTY, es), q); m.Some? ==> m.value.smoothed == SmoothedBy(es, q)
  {
    if |es| > 0 {
      var t := Run(ips, EMPTY, Front(es));
      FlowAccounts(ips, Front(es), q);
      SmoothedIsTold(ips, Front(es), q);
      EventMeter(ips, t, Last(es), q);
      ToldAfter(MeterAt(t, q), es, q, |t.flows| < MAX_RATE_FLOWS);
    }
  }

  // ---------- a classification stays ----------

  /** The same flow with the same path and receiver. */
  ghost predicate SameRoute(t: Tables, t': Tables, q: u32)
    requires Tracked(t, q)
  {
    && Tracked(t', q) && FlowOf(t', q).classified
    && FlowOf(t', q).path == FlowOf(t, q).path && FlowOf(t', q).receiverQpn == FlowOf(t, q).receiverQpn
  }

  lemma {:induction false} ReportKeepsRoute(t: Tables, k: u32, rate: u32, q: u32)
    requires ValidFlows(t.flows) && 1 < k < TWO_24 && Tracked(t, q) && FlowOf(t, q).classified
    ensures SameRoute(t, UpdateRate(t, k, rate), q)
  {
    UpdateKeepsFlows(t, k, rate);
    SlotStays(t, UpdateRate(t, k, rate), q);
    RateSlot(t, k, rate);
  }

  lemma {:induction false} PollKeepsRoute(t: Tables, q: u32)
    requires ValidFlows(t.flows) && Tracked(t, q) && FlowOf(t, q).classified
    ensures SameRoute(t, Drain(t), q)
  {
    SlotStays(t, Drain(t), q);
  }

  /** A flow is classified once: whatever the tables say, no later report or poll changes its path or receiver. */
  lemma {:induction false} ClassifiedOnce(ips: PathIps, t: Tables, es: seq<Event>, q: u32)
    requires ValidTables(t) && Tracked(t, q) && FlowOf(t, q).classified
    requires forall i :: 0 <= i < |es| ==> es[i].Rate? || es[i].Poll?
    ensures ValidTables(Run(ips, t, es)) && SameRoute(t, Run(ips, t, es), q)
  {
    if |es| > 0 {
      var before := Run(ips, t, Front(es));
      ClassifiedOnce(ips, t, Front(es), q);
      ApplyKeepsTables(ips, before, Last(es));
      match Last(es)
      case Rate(raw, rate) => if Qpn24(raw) > 1 { ReportKeepsRoute(before, Qpn24(raw), rate, q); }
      case Poll => PollKeepsRoute(before, q);
    }
  }
}
