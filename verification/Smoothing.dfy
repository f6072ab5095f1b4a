/**
 The per-poll smoothing of a flow's rate, and its consequence for whole runs: a flow that
 once drops below the full rate never counts as full again.
 */
module Smoothing {
  import opened Words
  import opened SteerTables

  /** One smoothing step moves by the rounded eighth of the gap, and no intermediate value leaves 64 bits. */
  lemma EwmaStep(s: u32, x: u32)
    ensures Ewma(s, x) as int == s as int + (x as int - s as int + 4) / 8
    ensures s * 7 + x * 1 + 4 < TWO_64
  {
  }

  predicate Near(s: u32, x: u32) { x as int - 3 <= s as int <= x as int + 4 }

  function Gap(s: u32, x: u32): nat { if s <= x then x - s else s - x }

  /** It never crosses the sample, stays put exactly inside the dead band, and otherwise gets closer. */
  lemma EwmaBetween(s: u32, x: u32)
    ensures Min(s, x) <= Ewma(s, x) <= Max(s, x)
    ensures Ewma(s, x) == s <==> Near(s, x)
    ensures !Near(s, x) ==> Gap(Ewma(s, x), x) < Gap(s, x)
  {
    EwmaStep(s, x);
  }

  function Smoothed(s: u32, x: u32, n: nat): u32
    decreases n
  {
    if n == 0 then s else Smoothed(Ewma(s, x), x, n - 1)
  }

  /** Under a constant sample the smoothed rate reaches the dead band and stays where it entered. */
  lemma {:induction false} EwmaConverges(s: u32, x: u32, n: nat, k: nat)
    requires n >= Gap(s, x)
    ensures Near(Smoothed(s, x, n), x)
    ensures Smoothed(s, x, n + k) == Smoothed(s, x, n)
    decreases n, k
  {
    EwmaBetween(s, x);
    if Near(s, x) {
      StaysNear(s, x, n);
      StaysNear(s, x, n + k);
    } else {
      EwmaConverges(Ewma(s, x), x, n - 1, k);
    }
  }

  lemma {:induction false} StaysNear(s: u32, x: u32, n: nat)
    requires Near(s, x)
    ensures Smoothed(s, x, n) == s
  {
    if n > 0 {
      EwmaBetween(s, x);
      StaysNear(s, x, n - 1);
    }
  }

  /** Below the full rate stays below it, even under full-rate samples. */
  lemma NeverFullAgain(s: u32, x: u32)
    requires s < PCC_FULL_RATE && x <= PCC_FULL_RATE
    ensures Ewma(s, x) < PCC_FULL_RATE
  {
    EwmaStep(s, x);
  }

  // ---------- runs ----------

  predicate Capped(e: Event) { e.Rate? ==> e.rate <= PCC_FULL_RATE }

  ghost predicate CappedRun(es: seq<Event>) { forall i :: 0 <= i < |es| ==> Capped(es[i]) }

  /** All rates are at most full, and at most `n` reports are waiting. */
  ghost predicate CappedFlow(f: RateFlow, n: nat) {
    && f.latestRate <= PCC_FULL_RATE && f.smoothedRate <= PCC_FULL_RATE
    && f.intervalRateReports <= n && f.intervalRateSum <= f.intervalRateReports * PCC_FULL_RATE
  }

  ghost predicate CappedFlows(fs: seq<RateFlow>, n: nat) {
    forall i :: 0 <= i < |fs| ==> CappedFlow(fs[i], n)
  }

  lemma AverageCapped(sum: nat, n: nat, cap: nat)
    requires n > 0 && sum <= n * cap
    ensures sum / n <= cap
  {
    assert n * (sum / n) <= sum;
  }

  lemma ReportCapped(f: RateFlow, rate: u32, n: nat)
    requires CappedFlow(f, n) && rate <= PCC_FULL_RATE && n + 1 < TWO_64
    ensures CappedFlow(Report(f, rate), n + 1)
  {
  }

  lemma IntervalCapped(f: RateFlow, n: nat)
    requires CappedFlow(f, n)
    ensures IntervalRate(f) <= PCC_FULL_RATE
  {
    if f.intervalRateReports != 0 {
      AverageCapped(f.intervalRateSum, f.intervalRateReports, PCC_FULL_RATE);
    }
  }

  lemma DrainCapped(f: RateFlow, n: nat)
    requires CappedFlow(f, n)
    ensures CappedFlow(DrainFlow(f), n) && IntervalRate(f) <= PCC_FULL_RATE
  {
    IntervalCapped(f, n);
    EwmaBetween(f.smoothedRate, IntervalRate(f));
  }

  /** Has this flow's smoothed rate left the full rate? */
  predicate Slow(f: RateFlow) { f.smoothedRateValid && f.smoothedRate != PCC_FULL_RATE }

  ghost predicate SlowStays(fs: seq<RateFlow>, gs: seq<RateFlow>) {
    |fs| <= |gs| && forall i :: 0 <= i < |fs| && Slow(fs[i]) ==> Slow(gs[i])
  }

  ghost predicate ClassifiedStays(fs: seq<RateFlow>, gs: seq<RateFlow>) {
    |fs| <= |gs| && forall i :: 0 <= i < |fs| && fs[i].classified ==> gs[i].classified
  }

  lemma {:induction false} RateKeepsSlow(t: Tables, q: u32, rate: u32, n: nat)
    requires CappedFlows(t.flows, n) && rate <= PCC_FULL_RATE && n + 1 < TWO_64
    ensures var gs := UpdateRate(t, q, rate).flows;
      CappedFlows(gs, n + 1) && SlowStays(t.flows, gs) && ClassifiedStays(t.flows, gs)
  {
    var gs := UpdateRate(t, q, rate).flows;
    var k := FlowIndex(t.flows, q);
    forall i | 0 <= i < |gs| ensures CappedFlow(gs[i], n + 1) {
      if i == k {
        ReportCapped(if k < |t.flows| then t.flows[k] else ZERO_FLOW.(qpn := q), rate, n);
      }
    }
  }

  lemma {:induction false} DrainKeepsSlow(t: Tables, n: nat)
    requires CappedFlows(t.flows, n)
    ensures CappedFlows(Drain(t).flows, n) && SlowStays(t.flows, Drain(t).flows) &&
            ClassifiedStays(t.flows, Drain(t).flows)
  {
    forall i | 0 <= i < |t.flows|
      ensures CappedFlow(Drain(t).flows[i], n) && (Slow(t.flows[i]) ==> Slow(Drain(t).flows[i]))
    {
      DrainCapped(t.flows[i], n);
      if Slow(t.flows[i]) { NeverFullAgain(t.flows[i].smoothedRate, IntervalRate(t.flows[i])); }
    }
  }

  lemma {:induction false} EventKeepsSlow(ips: PathIps, t: Tables, e: Event, n: nat)
    requires CappedFlows(t.flows, n) && Capped(e) && n + 1 < TWO_64
    ensures var gs := Apply(ips, t, e).flows;
      CappedFlows(gs, n + 1) && SlowStays(t.flows, gs) && ClassifiedStays(t.flows, gs)
  {
    match e
    case Rate(raw, rate) => RateKeepsSlow(t, Qpn24(raw), rate, n);
    case Poll => DrainKeepsSlow(t, n);
    case Req(_, _, _) =>
    case Rep(_, _) =>
    case Feedback(_, _) =>
  }

  /** Over a whole run no slow flow becomes full and no classification is undone. */
  lemma {:induction false} RunKeepsSlow(ips: PathIps, t: Tables, es: seq<Event>, n: nat)
    requires CappedFlows(t.flows, n) && CappedRun(es) && n + |es| < TWO_64
    ensures var gs := Run(ips, t, es).flows;
      CappedFlows(gs, n + |es|) && SlowStays(t.flows, gs) && ClassifiedStays(t.flows, gs)
  {
    if |es| > 0 {
      var front := es[..|es| - 1];
      RunKeepsSlow(ips, t, front, n);
      EventKeepsSlow(ips, Run(ips, t, front), es[|es| - 1], n + |front|);
    }
  }

  /** How many classified flows of a path are slow. */
  function SlowOn(fs: seq<RateFlow>, path: PathId): nat {
    if |fs| == 0 then 0
    else
      var f := fs[|fs| - 1];
      SlowOn(fs[..|fs| - 1], path) + if f.classified && f.path == path && Slow(f) then 1 else 0
  }

  ghost predicate PathsStay(fs: seq<RateFlow>, gs: seq<RateFlow>) {
    |fs| <= |gs| && forall i :: 0 <= i < |fs| && fs[i].classified ==> gs[i].path == fs[i].path
  }

  lemma {:induction false} SlowCountGrows(fs: seq<RateFlow>, gs: seq<RateFlow>, path: PathId)
    requires SlowStays(fs, gs) && ClassifiedStays(fs, gs) && PathsStay(fs, gs)
    ensures SlowOn(fs, path) <= SlowOn(gs, path)
    decreases |gs|
  {
    if |gs| > 0 {
      var front := gs[..|gs| - 1];
      if |fs| < |gs| {
        SlowCountGrows(fs, front, path);
      } else {
        SlowCountGrows(fs[..|fs| - 1], front, path);
      }
    }
  }

  /** With stable paths the number of reduced flows of a path never falls over a run. */
  lemma {:induction false} ReducedNeverFalls(ips: PathIps, t: Tables, es: seq<Event>, n: nat, path: PathId)
    requires CappedFlows(t.flows, n) && CappedRun(es) && n + |es| < TWO_64
    requires PathsStay(t.flows, Run(ips, t, es).flows)
    ensures SlowOn(t.flows, path) <= SlowOn(Run(ips, t, es).flows, path)
  {
    RunKeepsSlow(ips, t, es, n);
    SlowCountGrows(t.flows, Run(ips, t, es).flows, path);
  }

  predicate BelongsTo(f: RateFlow, path: PathId) { f.classified && f.path == path }

  /** How many flows are classified for a path. */
  function OnPath(fs: seq<RateFlow>, path: PathId): nat {
    if |fs| == 0 then 0 else OnPath(fs[..|fs| - 1], path) + if BelongsTo(fs[|fs| - 1], path) then 1 else 0
  }

  /** The sum of the smoothed rates of a path's slow flows. */
  function SlowRates(fs: seq<RateFlow>, path: PathId): nat {
    if |fs| == 0 then 0
    else
      var f := fs[|fs| - 1];
      SlowRates(fs[..|fs| - 1], path) + if BelongsTo(f, path) && Slow(f) then f.smoothedRate else 0
  }

  /** One path's tally is read off the table: its flows, the full and the slow ones, and the slow ones' rates. */
  ghost predicate Tallies(p: PathTally, fs: seq<RateFlow>, path: PathId) {
    && p.total == OnPath(fs, path) && p.reduced == SlowOn(fs, path) && p.full == p.total - p.reduced
    && p.reducedSum == SlowRates(fs, path)
  }

  lemma {:induction false} TallyOne(s: Summary, fs: seq<RateFlow>, f: RateFlow, path: PathId)
    requires f.smoothedRateValid && Tallies(if path == 0 then s.path0 else s.path1, fs, path)
    ensures var s' := TallyFlow(s, f); Tallies(if path == 0 then s'.path0 else s'.path1, fs + [f], path)
  {
    assert (fs + [f])[..|fs|] == fs;
  }

  /** After a poll the summary is exactly these counts and sums over the table. */
  lemma {:induction false} SummaryCounts(fs: seq<RateFlow>)
    requires forall i :: 0 <= i < |fs| ==> fs[i].smoothedRateValid
    ensures var s := Summarize(fs);
      && Tallies(s.path0, fs, 0) && Tallies(s.path1, fs, 1)
      && s.pendingMapping == |fs| - OnPath(fs, 0) - OnPath(fs, 1)
  {
    if |fs| > 0 {
      var n := |fs| - 1;
      SummaryCounts(fs[..n]);
      TallyOne(Summarize(fs[..n]), fs[..n], fs[n], 0);
      TallyOne(Summarize(fs[..n]), fs[..n], fs[n], 1);
      assert fs[..n] + [fs[n]] == fs;
    }
  }

  /** Sums of 32-bit rates of at most |fs| flows. */
  lemma {:induction false} SumsBounded(fs: seq<RateFlow>)
    ensures SlowRates(fs, 0) <= SlowOn(fs, 0) * (TWO_32 - 1) && SlowRates(fs, 1) <= SlowOn(fs, 1) * (TWO_32 - 1)
    ensures SlowOn(fs, 0) + SlowOn(fs, 1) <= |fs|
  {
    if |fs| > 0 { SumsBounded(fs[..|fs| - 1]); }
  }

  // ---------- counts and flows ----------

  ghost predicate HasFlow(fs: seq<RateFlow>, path: PathId) { exists i :: 0 <= i < |fs| && BelongsTo(fs[i], path) }

  /** Every flow of the path is at the full rate. */
  ghost predicate AllAtFull(fs: seq<RateFlow>, path: PathId) {
    forall i :: 0 <= i < |fs| && BelongsTo(fs[i], path) ==> fs[i].smoothedRate == PCC_FULL_RATE
  }

  lemma {:induction false} CountsMean(fs: seq<RateFlow>, path: PathId)
    requires forall i :: 0 <= i < |fs| ==> fs[i].smoothedRateValid
    ensures OnPath(fs, path) > 0 <==> HasFlow(fs, path)
    ensures SlowOn(fs, path) == 0 <==> AllAtFull(fs, path)
    ensures SlowOn(fs, path) <= OnPath(fs, path)
  {
    if |fs| > 0 {
      var n := |fs| - 1;
      CountsMean(fs[..n], path);
      assert HasFlow(fs, path) <==> HasFlow(fs[..n], path) || BelongsTo(fs[n], path) by {
        if HasFlow(fs[..n], path) {
          var i :| 0 <= i < n && BelongsTo(fs[..n][i], path);
          assert BelongsTo(fs[i], path);
        }
        if BelongsTo(fs[n], path) { assert HasFlow(fs, path); }
        if HasFlow(fs, path) && !BelongsTo(fs[n], path) {
          var i :| 0 <= i < |fs| && BelongsTo(fs[i], path);
          assert BelongsTo(fs[..n][i], path);
        }
      }
      assert forall i :: 0 <= i < n ==> fs[..n][i] == fs[i];
    }
  }
}
