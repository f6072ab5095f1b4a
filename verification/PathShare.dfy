/**
 From two rate sums to a share of the 64 buckets: the target, its rounding, order and
 symmetry laws, and which rule applies over a run.
 */
module PathShare {
  import opened Words
  import opened SteerTables
  import opened Smoothing

  const MIN_BUCKETS: nat := 3

  function RatioShare(a: nat, b: nat): nat
    requires a + b > 0
  {
    (a * BUCKETS + (a + b) / 2) / (a + b)
  }

  function Clamp(n: nat): nat {
    if n < MIN_BUCKETS then MIN_BUCKETS else if n > BUCKETS - MIN_BUCKETS then BUCKETS - MIN_BUCKETS else n
  }

  predicate AllFull(p: PathTally) { p.total > 0 && p.full == p.total }

  function TargetShare(s: Summary): nat {
    if s.path0.total == 0 || s.path1.total == 0 then BUCKETS / 2
    else if AllFull(s.path0) && !AllFull(s.path1) && s.path1.reduced > 0 then BUCKETS - MIN_BUCKETS
    else if AllFull(s.path1) && !AllFull(s.path0) && s.path0.reduced > 0 then MIN_BUCKETS
    else if !AllFull(s.path0) && !AllFull(s.path1) && s.path0.reduced > 0 && s.path1.reduced > 0 then
      Clamp(if s.path0.reducedSum + s.path1.reducedSum > 0
            then RatioShare(s.path0.reducedSum, s.path1.reducedSum) else BUCKETS / 2)
    else BUCKETS / 2
  }

  /** The program's own computation, overwriting one variable. */
  method CalculateShare(s: Summary) returns (path0: nat)
    ensures path0 == TargetShare(s)
  {
    path0 := BUCKETS / 2;
    var allFull0 := s.path0.total > 0 && s.path0.full == s.path0.total;
    var allFull1 := s.path1.total > 0 && s.path1.full == s.path1.total;
    if s.path0.total > 0 && s.path1.total > 0 {
      if allFull0 && !allFull1 && s.path1.reduced > 0 {
        path0 := BUCKETS - MIN_BUCKETS;
      } else if allFull1 && !allFull0 && s.path0.reduced > 0 {
        path0 := MIN_BUCKETS;
      } else if !allFull0 && !allFull1 && s.path0.reduced > 0 && s.path1.reduced > 0 {
        var sum := s.path0.reducedSum + s.path1.reducedSum;
        if sum > 0 {
          path0 := (s.path0.reducedSum * BUCKETS + sum / 2) / sum;
        }
        if path0 < MIN_BUCKETS {
          path0 := MIN_BUCKETS;
        }
        if path0 > BUCKETS - MIN_BUCKETS {
          path0 := BUCKETS - MIN_BUCKETS;
        }
      }
    }
  }

  // ---------- rounding ----------

  /** `n` is the whole number nearest to x/(2s), the upper one on a tie. */
  predicate NearestMultiple(x: int, s: int, n: int) { -s <= x - 2 * (n * s) < s }

  /** `n` is the whole number nearest to 64a/(a+b), the upper one on a tie. */
  predicate Nearest(a: nat, b: nat, n: int) { NearestMultiple(2 * BUCKETS * a, a + b, n) }

  lemma MulGap(k: int, l: int, s: nat)
    requires k < l
    ensures k * s + s <= l * s
  {
    assert (l - k - 1) * s >= 0;
  }

  lemma NearestUnique(x: int, s: nat, n: int, m: int)
    requires NearestMultiple(x, s, n) && NearestMultiple(x, s, m)
    ensures n == m
  {
    if n < m { MulGap(n, m, s); } else if m < n { MulGap(m, n, s); }
  }

  lemma RatioNearest(a: nat, b: nat, n: int)
    requires a + b > 0
    ensures Nearest(a, b, n) <==> n == RatioShare(a, b)
    ensures RatioShare(a, b) <= BUCKETS
  {
    var s, r := a + b, RatioShare(a, b);
    assert a * BUCKETS + s / 2 == r * s + (a * BUCKETS + s / 2) % s;
    if NearestMultiple(2 * BUCKETS * a, s, n) { NearestUnique(2 * BUCKETS * a, s, n, r); }
    if r > BUCKETS { MulGap(BUCKETS, r, s); }
  }

  lemma NearestMonotone(x: int, s: nat, d: nat, n: int, m: int)
    requires NearestMultiple(x, s, n) && n <= BUCKETS && NearestMultiple(x + 2 * BUCKETS * d, s + d, m)
    ensures n <= m
  {
    Distribute(n, s, d);
    if m < n {
      MulGap(m, n, s + d);
      assert false;
    }
  }

  lemma Distribute(n: int, s: nat, d: nat)
    ensures n * (s + d) == n * s + n * d
    ensures n <= BUCKETS ==> n * d <= BUCKETS * d
    ensures n >= 0 ==> n * d >= 0
  {
  }

  lemma NearestAntitone(x: int, s: nat, d: nat, n: nat, m: int)
    requires NearestMultiple(x, s, n) && NearestMultiple(x, s + d, m)
    ensures m <= n
  {
    Distribute(n, s, d);
    if n < m {
      MulGap(n, m, s + d);
      assert false;
    }
  }

  /** More rate on path 0 never loses it buckets, more on path 1 never gains it any. */
  lemma RatioMonotone(a: nat, b: nat, a': nat, b': nat)
    requires a + b > 0 && a <= a' && b' <= b && a' + b' > 0
    ensures RatioShare(a, b) <= RatioShare(a', b')
  {
    var n, k, m := RatioShare(a, b), RatioShare(a', b), RatioShare(a', b');
    RatioNearest(a, b, n);
    RatioNearest(a', b, k);
    RatioNearest(a', b', m);
    NearestMonotone(2 * BUCKETS * a, a + b, a' - a, n, k);
    NearestAntitone(2 * BUCKETS * a', a' + b', b - b', m, k);
  }

  /** The faster path gets at least half of the buckets. */
  lemma RatioHalf(a: nat, b: nat)
    requires a + b > 0
    ensures a >= b ==> RatioShare(a, b) >= BUCKETS / 2
    ensures a <= b ==> RatioShare(a, b) <= BUCKETS / 2
  {
    var n := RatioShare(a, b);
    RatioNearest(a, b, n);
    if n < BUCKETS / 2 { MulGap(n, BUCKETS / 2, a + b); }
    if n > BUCKETS / 2 { MulGap(BUCKETS / 2, n, a + b); }
  }

  /** 64a/(a+b) lies exactly half-way between two whole numbers. */
  predicate Tie(a: nat, b: nat)
    requires a + b > 0
  {
    2 * BUCKETS * a - 2 * (RatioShare(a, b) * (a + b)) == -(a + b)
  }

  lemma RatioSwap(a: nat, b: nat)
    requires a + b > 0
    ensures RatioShare(a, b) + RatioShare(b, a) == if Tie(a, b) then BUCKETS + 1 else BUCKETS
  {
    var s := a + b;
    var n := RatioShare(a, b);
    RatioNearest(a, b, n);
    var total := if Tie(a, b) then BUCKETS + 1 else BUCKETS;
    assert (total - n) * s == total * s - n * s;
    RatioNearest(b, a, total - n);
  }

  function SwapPaths(s: Summary): Summary { s.(path0 := s.path1, path1 := s.path0) }

  /** Both sums take part: neither path is entirely full and both have reduced flows. */
  predicate Proportional(s: Summary) {
    && s.path0.total > 0 && s.path1.total > 0 && !AllFull(s.path0) && !AllFull(s.path1)
    && s.path0.reduced > 0 && s.path1.reduced > 0
  }

  /** Exchanging the paths mirrors the target, up to one bucket on an exact tie inside the clamp. */
  lemma TargetSwap(s: Summary)
    ensures TargetShare(s) + TargetShare(SwapPaths(s)) ==
            if Proportional(s) && s.path0.reducedSum + s.path1.reducedSum > 0 &&
               Tie(s.path0.reducedSum, s.path1.reducedSum) &&
               4 <= RatioShare(s.path0.reducedSum, s.path1.reducedSum) <= 61
            then BUCKETS + 1 else BUCKETS
  {
    if Proportional(s) && s.path0.reducedSum + s.path1.reducedSum > 0 {
      RatioSwap(s.path0.reducedSum, s.path1.reducedSum);
    }
  }

  /** Whatever the tables say, each path is promised at least three buckets. */
  lemma TargetRange(s: Summary)
    ensures MIN_BUCKETS <= TargetShare(s) <= BUCKETS - MIN_BUCKETS
  {
  }

  /** The 64-bit arithmetic of the target cannot overflow: there are at most 256 flows. */
  lemma TargetFits(fs: seq<RateFlow>)
    requires |fs| <= MAX_RATE_FLOWS && forall i :: 0 <= i < |fs| ==> fs[i].smoothedRateValid
    ensures var s := Summarize(fs);
      s.path0.reducedSum * BUCKETS + (s.path0.reducedSum + s.path1.reducedSum) / 2 < TWO_64
  {
    SummaryCounts(fs);
    SumsBounded(fs);
    var s := Summarize(fs);
    assert s.path0.reduced * (TWO_32 - 1) <= 256 * TWO_32 && s.path1.reduced * (TWO_32 - 1) <= 256 * TWO_32;
  }

  // ---------- the target, told from the flows ----------

  ghost predicate AllSampled(fs: seq<RateFlow>) { forall i :: 0 <= i < |fs| ==> fs[i].smoothedRateValid }

  lemma {:induction false} SampledAfterPoll(t: Tables)
    ensures AllSampled(Drain(t).flows)
  {
  }

  /** The buckets that a path gets for these flows. */
  function BucketsOf(fs: seq<RateFlow>, path: PathId): int {
    if path == 0 then TargetShare(Summarize(fs)) else BUCKETS - TargetShare(Summarize(fs))
  }

  function Other(path: PathId): PathId { 1 - path }

  /** The counts that decide the rule, for one path. */
  lemma {:induction false} TallyMeans(fs: seq<RateFlow>, path: PathId)
    requires AllSampled(fs)
    ensures var s := Summarize(fs); var p := if path == 0 then s.path0 else s.path1;
      && (p.total == 0 <==> !HasFlow(fs, path)) && (p.reduced == 0 <==> AllAtFull(fs, path))
      && (AllFull(p) <==> HasFlow(fs, path) && AllAtFull(fs, path)) && p.reducedSum == SlowRates(fs, path)
  {
    SummaryCounts(fs);
    CountsMean(fs, path);
  }

  /** A path without congestion gets all but the minimum when the other one has a flow below the full rate. */
  lemma {:induction false} UncongestedGetsMost(fs: seq<RateFlow>, path: PathId)
    requires AllSampled(fs) && HasFlow(fs, path) && AllAtFull(fs, path) && !AllAtFull(fs, Other(path))
    ensures BucketsOf(fs, path) == 61 && BucketsOf(fs, Other(path)) == 3
  {
    TallyMeans(fs, 0);
    TallyMeans(fs, 1);
    SummaryCounts(fs);
  }

  /** With no flow on some path, or no flow of either below the full rate, the split is even. */
  lemma {:induction false} NoReasonIsEven(fs: seq<RateFlow>, path: PathId)
    requires AllSampled(fs)
    requires !HasFlow(fs, path) || !HasFlow(fs, Other(path)) || (AllAtFull(fs, 0) && AllAtFull(fs, 1))
    ensures BucketsOf(fs, path) == BucketsOf(fs, Other(path)) == 32
  {
    TallyMeans(fs, 0);
    TallyMeans(fs, 1);
  }

  /**
   With flows below the full rate on both, path 0 gets the whole number nearest to 64a/(a+b), kept
   between 3 and 61, where a and b add up the rates of each path's slow flows; an even split if
   both are zero.
   */
  lemma {:induction false} CongestedShare(fs: seq<RateFlow>, n: nat)
    requires AllSampled(fs) && !AllAtFull(fs, 0) && !AllAtFull(fs, 1)
    ensures var a, b := SlowRates(fs, 0), SlowRates(fs, 1);
      if a + b == 0 then BucketsOf(fs, 0) == 32
      else Nearest(a, b, n) ==> BucketsOf(fs, 0) == if n < 3 then 3 else if n > 61 then 61 else n
  {
    TallyMeans(fs, 0);
    TallyMeans(fs, 1);
    SummaryCounts(fs);
    CountsMean(fs, 0);
    CountsMean(fs, 1);
    var a, b := SlowRates(fs, 0), SlowRates(fs, 1);
    if a + b > 0 { RatioNearest(a, b, n); }
  }

  /** A path is better off than the other: it has only full flows, or its slow flows add up to no less. */
  ghost predicate BetterOff(fs: seq<RateFlow>, path: PathId) {
    AllAtFull(fs, path) || (!AllAtFull(fs, Other(path)) && SlowRates(fs, path) >= SlowRates(fs, Other(path)))
  }

  /** The path that is better off never gets fewer buckets than the other. */
  lemma {:induction false} BetterGetsHalf(fs: seq<RateFlow>, path: PathId)
    requires AllSampled(fs) && HasFlow(fs, path) && BetterOff(fs, path)
    ensures BucketsOf(fs, path) >= BucketsOf(fs, Other(path))
  {
    if !HasFlow(fs, Other(path)) || (AllAtFull(fs, 0) && AllAtFull(fs, 1)) {
      NoReasonIsEven(fs, path);
    } else if AllAtFull(fs, path) {
      UncongestedGetsMost(fs, path);
    } else {
      var a, b := SlowRates(fs, 0), SlowRates(fs, 1);
      CongestedShare(fs, if a + b > 0 then RatioShare(a, b) else 0);
      if a + b > 0 {
        RatioNearest(a, b, RatioShare(a, b));
        RatioHalf(a, b);
      }
    }
  }

  // ---------- runs ----------

  /** The summary the poll at the end of `es` computes. */
  function PollSummary(ips: PathIps, es: seq<Event>): Summary {
    Summarize(Run(ips, EMPTY, es + [Poll]).flows)
  }

  predicate Counted(p: PathTally) { p.total == p.full + p.reduced }

  lemma {:induction false} AfterPoll(ips: PathIps, es: seq<Event>)
    requires CappedRun(es) && |es| + 1 < TWO_64
    ensures var fs := Run(ips, EMPTY, es + [Poll]).flows;
      && fs == DrainFlows(Run(ips, EMPTY, es).flows) && CappedFlows(fs, |es| + 1)
      && PollSummary(ips, es).path0.reduced == SlowOn(fs, 0) && PollSummary(ips, es).path1.reduced == SlowOn(fs, 1)
      && Counted(PollSummary(ips, es).path0) && Counted(PollSummary(ips, es).path1)
  {
    assert (es + [Poll])[..|es + [Poll]| - 1] == es;
    RunKeepsSlow(ips, EMPTY, es + [Poll], 0);
    SummaryCounts(Run(ips, EMPTY, es + [Poll]).flows);
  }

  /** Both sums take part again, whatever the rates have become. */
  lemma {:induction false} BothReduced(s: Summary, r0: nat, r1: nat)
    requires 0 < r0 <= s.path0.reduced && 0 < r1 <= s.path1.reduced
    requires Counted(s.path0) && Counted(s.path1)
    ensures Proportional(s)
    ensures TargetShare(s) == Clamp(if s.path0.reducedSum + s.path1.reducedSum > 0
                                    then RatioShare(s.path0.reducedSum, s.path1.reducedSum) else BUCKETS / 2)
  {
  }

  lemma {:induction false} SlowBetweenPolls(ips: PathIps, es: seq<Event>, gs: seq<Event>, path: PathId)
    requires CappedRun(es) && CappedRun(gs) && |es| + |gs| < TWO_64
    requires PathsStay(Run(ips, EMPTY, es).flows, Run(ips, EMPTY, es + gs).flows)
    ensures SlowOn(Run(ips, EMPTY, es).flows, path) <= SlowOn(Run(ips, EMPTY, es + gs).flows, path)
  {
    RunKeepsSlow(ips, EMPTY, es, 0);
    RunAppend(ips, EMPTY, es, gs);
    ReducedNeverFalls(ips, Run(ips, EMPTY, es), gs, |es|, path);
  }

  lemma {:induction false} LaterPollOn(ips: PathIps, es: seq<Event>, gs: seq<Event>, path: PathId)
    requires CappedRun(es) && CappedRun(gs) && |es| + |gs| + 2 < TWO_64
    requires PathsStay(Run(ips, EMPTY, es + [Poll]).flows, Run(ips, EMPTY, es + [Poll] + gs + [Poll]).flows)
    ensures SlowOn(Run(ips, EMPTY, es + [Poll]).flows, path) <=
            SlowOn(Run(ips, EMPTY, es + [Poll] + gs + [Poll]).flows, path)
  {
    assert es + [Poll] + gs + [Poll] == es + [Poll] + (gs + [Poll]);
    SlowBetweenPolls(ips, es + [Poll], gs + [Poll], path);
  }

  lemma {:induction false} LaterPoll(ips: PathIps, es: seq<Event>, gs: seq<Event>)
    requires CappedRun(es) && CappedRun(gs) && |es| + |gs| + 2 < TWO_64
    requires PathsStay(Run(ips, EMPTY, es + [Poll]).flows, Run(ips, EMPTY, es + [Poll] + gs + [Poll]).flows)
    ensures var s, s' := PollSummary(ips, es), PollSummary(ips, es + [Poll] + gs);
      && s.path0.reduced <= s'.path0.reduced && s.path1.reduced <= s'.path1.reduced
  {
    AfterPoll(ips, es);
    AfterPoll(ips, es + [Poll] + gs);
    LaterPollOn(ips, es, gs, 0);
    LaterPollOn(ips, es, gs, 1);
  }

  /**
   Once both paths have had a reduced flow at some poll, every later poll whose flows kept their
   paths takes the proportional rule: the one-sided targets never return.
   */
  lemma {:induction false} OneSidedNeverReturns(ips: PathIps, es: seq<Event>, gs: seq<Event>)
    requires CappedRun(es) && CappedRun(gs) && |es| + |gs| + 2 < TWO_64
    requires PollSummary(ips, es).path0.reduced > 0 && PollSummary(ips, es).path1.reduced > 0
    requires PathsStay(Run(ips, EMPTY, es + [Poll]).flows, Run(ips, EMPTY, es + [Poll] + gs + [Poll]).flows)
    ensures var s := PollSummary(ips, es + [Poll] + gs);
      && Proportional(s)
      && TargetShare(s) == Clamp(if s.path0.reducedSum + s.path1.reducedSum > 0
                                 then RatioShare(s.path0.reducedSum, s.path1.reducedSum) else BUCKETS / 2)
  {
    LaterPoll(ips, es, gs);
    AfterPoll(ips, es + [Poll] + gs);
    BothReduced(PollSummary(ips, es + [Poll] + gs), PollSummary(ips, es).path0.reduced,
      PollSummary(ips, es).path1.reduced);
  }
}
