/**
 Whole runs of the controller's critical sections: what happens to every reported rate, and
 where every classification comes from.
 */
module SteerRuns {
  import opened Words
  import opened SteerTables

  predicate Tracked(t: Tables, q: u32) { FlowIndex(t.flows, q) < |t.flows| }

  function FlowOf(t: Tables, q: u32): RateFlow
    requires Tracked(t, q)
  {
    t.flows[FlowIndex(t.flows, q)]
  }

  function Last(es: seq<Event>): Event
    requires |es| > 0
  {
    es[|es| - 1]
  }

  function Front(es: seq<Event>): seq<Event>
    requires |es| > 0
  {
    es[..|es| - 1]
  }

  // ---------- conservation of reported rates ----------

  /** The interval sum of a QPN, zero while it is not tracked. */
  function Pending(t: Tables, q: u32): nat {
    if Tracked(t, q) then FlowOf(t, q).intervalRateSum else 0
  }

  predicate Accepts(ips: PathIps, t: Tables, e: Event, q: u32) {
    e.Rate? && Qpn24(e.rawQpn) == q && Tracked(Apply(ips, t, e), q)
  }

  function AcceptedBy(ips: PathIps, t: Tables, e: Event, q: u32): nat {
    if Accepts(ips, t, e, q) then e.rate else 0
  }

  function DrainedBy(t: Tables, e: Event, q: u32): nat {
    if e.Poll? then Pending(t, q) else 0
  }

  function WrapsBy(ips: PathIps, t: Tables, e: Event, q: u32): nat {
    if Accepts(ips, t, e, q) && Pending(t, q) + e.rate >= TWO_64 then 1 else 0
  }

  /** The sum of all reports of `q` that found or were given a slot. */
  function AcceptedTotal(ips: PathIps, t: Tables, es: seq<Event>, q: u32): nat {
    if |es| == 0 then 0
    else AcceptedTotal(ips, t, Front(es), q) + AcceptedBy(ips, Run(ips, t, Front(es)), Last(es), q)
  }

  /** The sum of what the polls took out of the interval of `q`. */
  function DrainedTotal(ips: PathIps, t: Tables, es: seq<Event>, q: u32): nat {
    if |es| == 0 then 0
    else DrainedTotal(ips, t, Front(es), q) + DrainedBy(Run(ips, t, Front(es)), Last(es), q)
  }

  /** How often the 64-bit interval sum of `q` wrapped around. */
  function Wraps(ips: PathIps, t: Tables, es: seq<Event>, q: u32): nat {
    if |es| == 0 then 0
    else Wraps(ips, t, Front(es), q) + WrapsBy(ips, Run(ips, t, Front(es)), Last(es), q)
  }

  lemma {:induction false} AssignKeepsPending(t: Tables, q: u32, owner: u32, path: PathId, receiver: u32)
    ensures Pending(t.(flows := AssignPath(t.flows, owner, path)), q) == Pending(t, q)
    ensures Pending(t.(flows := AssignRoute(t.flows, owner, path, receiver)), q) == Pending(t, q)
    ensures Tracked(t.(flows := AssignPath(t.flows, owner, path)), q) == Tracked(t, q)
    ensures Tracked(t.(flows := AssignRoute(t.flows, owner, path, receiver)), q) == Tracked(t, q)
  {
    var i := FlowIndex(t.flows, q);
    var fs := AssignPath(t.flows, owner, path);
    var gs := AssignRoute(t.flows, owner, path, receiver);
    assert forall j :: 0 <= j < |t.flows| ==> fs[j].qpn == t.flows[j].qpn == gs[j].qpn;
    assert FlowIndex(fs, q) == i && FlowIndex(gs, q) == i;
  }

  lemma {:induction false} RatePending(t: Tables, qpn: u32, rate: u32, q: u32)
    ensures var t' := UpdateRate(t, qpn, rate);
      Pending(t', q) == if q == qpn && Tracked(t', q) then (Pending(t, q) + rate) % TWO_64 else Pending(t, q)
    ensures q != qpn ==> Tracked(UpdateRate(t, qpn, rate), q) == Tracked(t, q)
  {
    var t' := UpdateRate(t, qpn, rate);
    if t' != t {
      var k := FlowIndex(t.flows, qpn);
      assert t'.flows[k].qpn == qpn && forall j :: 0 <= j < k ==> t'.flows[j] == t.flows[j];
      assert FlowIndex(t'.flows, qpn) == k;
      if q != qpn {
        var i := FlowIndex(t.flows, q);
        assert forall j :: 0 <= j < |t.flows| ==> t'.flows[j].qpn == t.flows[j].qpn;
        assert Tracked(t, q) ==> FlowIndex(t'.flows, q) == i;
      }
    }
  }

  /** What one event does to the interval sum of one QPN. */
  lemma {:induction false} EventPending(ips: PathIps, t: Tables, e: Event, q: u32)
    requires 1 < q
    ensures Pending(Apply(ips, t, e), q) ==
            if e.Poll? then 0
            else if Accepts(ips, t, e, q) then (Pending(t, q) + e.rate) % TWO_64 else Pending(t, q)
  {
    match e
    case Rate(raw, rate) => RatePending(t, Qpn24(raw), rate, q);
    case Req(c, i, ip) =>
      if Resolve(ips, ip).Some? { AssignKeepsPending(t, q, i, Resolve(ips, ip).value, 0); }
      assert Pending(Apply(ips, t, e), q) == Pending(t.(flows := Apply(ips, t, e).flows), q);
    case Rep(c, r) =>
      var k := RequestIndex(t.requests, c);
      if k < |t.requests| { AssignKeepsPending(t, q, t.requests[k].initiatorQpn, t.requests[k].path, r); }
      assert Pending(Apply(ips, t, e), q) == Pending(t.(flows := Apply(ips, t, e).flows), q);
    case Feedback(raw, ip) =>
      if Resolve(ips, ip).Some? { AssignKeepsPending(t, q, Qpn24(raw), Resolve(ips, ip).value, Qpn24(raw)); }
      assert Pending(Apply(ips, t, e), q) == Pending(t.(flows := Apply(ips, t, e).flows), q);
    case Poll =>
      var i := FlowIndex(Drain(t).flows, q);
      assert i < |t.flows| ==> Drain(t).flows[i] == DrainFlow(t.flows[i]);
  }

  lemma {:induction false} EventConserved(ips: PathIps, t: Tables, e: Event, q: u32)
    requires 1 < q
    ensures DrainedBy(t, e, q) + Pending(Apply(ips, t, e), q) + TWO_64 * WrapsBy(ips, t, e, q) ==
            Pending(t, q) + AcceptedBy(ips, t, e, q)
  {
    EventPending(ips, t, e, q);
  }

  /**
   Every accepted rate is drained by exactly one poll or still pending: nothing is lost or
   counted twice, except the 2^64 that each wrap-around of the interval sum takes.
   */
  lemma {:induction false} RatesConserved(ips: PathIps, t: Tables, es: seq<Event>, q: u32)
    requires 1 < q
    ensures DrainedTotal(ips, t, es, q) + Pending(Run(ips, t, es), q) + TWO_64 * Wraps(ips, t, es, q) ==
            Pending(t, q) + AcceptedTotal(ips, t, es, q)
  {
    if |es| > 0 {
      RatesConserved(ips, t, Front(es), q);
      EventConserved(ips, Run(ips, t, Front(es)), Last(es), q);
      assert Run(ips, t, es) == Apply(ips, Run(ips, t, Front(es)), Last(es));
    }
  }

  /** No wrap-around is possible before the accepted rates themselves exceed 64 bits. */
  lemma {:induction false} RatesConservedExactly(ips: PathIps, t: Tables, es: seq<Event>, q: u32)
    requires 1 < q
    ensures Pending(t, q) + AcceptedTotal(ips, t, es, q) < TWO_64 ==>
            DrainedTotal(ips, t, es, q) + Pending(Run(ips, t, es), q) == Pending(t, q) + AcceptedTotal(ips, t, es, q)
    ensures DrainedTotal(ips, t, es, q) + Pending(Run(ips, t, es), q) == Pending(t, q) + AcceptedTotal(ips, t, es, q)
            <==> Wraps(ips, t, es, q) == 0
  {
    RatesConserved(ips, t, es, q);
  }

  /** The accepted reports of `q` since the last poll. */
  function SincePoll(ips: PathIps, t: Tables, es: seq<Event>, q: u32): nat {
    if |es| == 0 || Last(es).Poll? then 0
    else SincePoll(ips, t, Front(es), q) + if Accepts(ips, Run(ips, t, Front(es)), Last(es), q) then 1 else 0
  }

  /** No interval between two polls takes more than 2^32 reports of `q`. */
  predicate ShortIntervals(ips: PathIps, t: Tables, es: seq<Event>, q: u32) {
    |es| > 0 ==> ShortIntervals(ips, t, Front(es), q) && SincePoll(ips, t, es, q) <= TWO_32
  }

  /** As much as `n` reports can add up to. */
  predicate AtMost(sum: nat, n: nat) { sum <= n * (TWO_32 - 1) }

  lemma {:induction false} OneMoreRate(n: nat, sum: nat, rate: u32)
    requires n < TWO_32 && AtMost(sum, n)
    ensures AtMost(sum + rate, n + 1) && sum + rate < TWO_64
  {
    MulMonotone(TWO_32 - 1, n + 1, TWO_32);
  }

  lemma {:induction false} IntervalStep(ips: PathIps, t: Tables, e: Event, q: u32, n: nat)
    requires 1 < q && AtMost(Pending(t, q), n) && (Accepts(ips, t, e, q) ==> n < TWO_32)
    ensures WrapsBy(ips, t, e, q) == 0
    ensures AtMost(Pending(Apply(ips, t, e), q), if e.Poll? then 0 else if Accepts(ips, t, e, q) then n + 1 else n)
  {
    EventPending(ips, t, e, q);
    if Accepts(ips, t, e, q) { OneMoreRate(n, Pending(t, q), e.rate); }
  }

  lemma {:induction false} IntervalBound(ips: PathIps, t: Tables, es: seq<Event>, q: u32)
    requires 1 < q && Pending(t, q) == 0 && ShortIntervals(ips, t, es, q)
    ensures AtMost(Pending(Run(ips, t, es), q), SincePoll(ips, t, es, q)) && Wraps(ips, t, es, q) == 0
  {
    if |es| > 0 {
      IntervalBound(ips, t, Front(es), q);
      IntervalStep(ips, Run(ips, t, Front(es)), Last(es), q, SincePoll(ips, t, Front(es), q));
    }
  }

  /** However long the run: with at most 2^32 reports between polls nothing wraps, and the balance is exact. */
  lemma {:induction false} ShortIntervalsConserve(ips: PathIps, es: seq<Event>, q: u32)
    requires 1 < q && ShortIntervals(ips, EMPTY, es, q)
    ensures DrainedTotal(ips, EMPTY, es, q) + Pending(Run(ips, EMPTY, es), q) == AcceptedTotal(ips, EMPTY, es, q)
  {
    IntervalBound(ips, EMPTY, es, q);
    RatesConserved(ips, EMPTY, es, q);
  }

  // ---------- every classification has a witness ----------

  /** The configured address of a path. */
  function AddressOf(ips: PathIps, path: PathId): u32 { if path == 0 then ips.path0 else ips.path1 }

  /** An event that names `q` with the address of that path. */
  predicate Names(ips: PathIps, e: Event, q: u32, path: PathId) {
    match e
    case Req(_, i, ip) => i == q && ip == AddressOf(ips, path)
    case Feedback(raw, ip) => raw % 0x100_0000 == q && ip == AddressOf(ips, path)
    case _ => false
  }

  ghost predicate Witnessed(ips: PathIps, es: seq<Event>, q: u32, path: PathId) {
    exists i :: 0 <= i < |es| && Names(ips, es[i], q, path)
  }

  ghost predicate FlowsWitnessed(ips: PathIps, es: seq<Event>, fs: seq<RateFlow>) {
    forall i :: 0 <= i < |fs| && fs[i].classified ==> Witnessed(ips, es, fs[i].qpn, fs[i].path)
  }

  ghost predicate PairsWitnessed(ips: PathIps, es: seq<Event>, ps: seq<QpnPair>) {
    forall i :: 0 <= i < |ps| ==> Witnessed(ips, es, ps[i].initiatorQpn, ps[i].path)
  }

  ghost predicate RequestsWitnessed(ips: PathIps, es: seq<Event>, rs: seq<CmRequest>) {
    forall i :: 0 <= i < |rs| && rs[i].pathKnown ==> Witnessed(ips, es, rs[i].initiatorQpn, rs[i].path)
  }

  /** Every record is the REQ it came from: its fields, and a path exactly if the address is a configured one. */
  ghost predicate RequestsRecorded(ips: PathIps, es: seq<Event>, rs: seq<CmRequest>) {
    forall i :: 0 <= i < |rs| ==>
      var r := rs[i];
      && Req(r.commId, r.initiatorQpn, r.receiverIp) in es
      && (r.pathKnown <==> r.receiverIp == ips.path0 || r.receiverIp == ips.path1)
      && (r.pathKnown ==> r.receiverIp == AddressOf(ips, r.path))
  }

  lemma {:induction false} RecordedMore(ips: PathIps, es: seq<Event>, rs: seq<CmRequest>)
    requires |es| > 0 && RequestsRecorded(ips, Front(es), rs)
    ensures RequestsRecorded(ips, es, rs)
  {
    assert es == Front(es) + [Last(es)];
  }

  lemma {:induction false} RecordedNext(ips: PathIps, es: seq<Event>, t: Tables)
    requires |es| > 0 && RequestsRecorded(ips, es, t.requests)
    ensures RequestsRecorded(ips, es, Apply(ips, t, Last(es)).requests)
  {
    if Last(es).Req? { assert Last(es) in es; }
  }

  lemma {:induction false} RequestsAreRecorded(ips: PathIps, es: seq<Event>)
    ensures RequestsRecorded(ips, es, Run(ips, EMPTY, es).requests)
  {
    if |es| > 0 {
      RequestsAreRecorded(ips, Front(es));
      RecordedMore(ips, es, Run(ips, EMPTY, Front(es)).requests);
      RecordedNext(ips, es, Run(ips, EMPTY, Front(es)));
    }
  }

  ghost predicate AllWitnessed(ips: PathIps, es: seq<Event>, t: Tables) {
    FlowsWitnessed(ips, es, t.flows) && PairsWitnessed(ips, es, t.pairs) && RequestsWitnessed(ips, es, t.requests)
  }

  lemma {:induction false} WitnessStays(ips: PathIps, es: seq<Event>, q: u32, path: PathId)
    requires |es| > 0 && (Witnessed(ips, Front(es), q, path) || Names(ips, Last(es), q, path))
    ensures Witnessed(ips, es, q, path)
  {
    if Names(ips, Last(es), q, path) {
      assert Names(ips, es[|es| - 1], q, path);
    } else {
      var i :| 0 <= i < |Front(es)| && Names(ips, Front(es)[i], q, path);
      assert Names(ips, es[i], q, path);
    }
  }

  lemma {:induction false} AllStay(ips: PathIps, es: seq<Event>, t: Tables)
    requires |es| > 0 && AllWitnessed(ips, Front(es), t)
    ensures AllWitnessed(ips, es, t)
  {
    forall q, path | Witnessed(ips, Front(es), q, path) ensures Witnessed(ips, es, q, path) {
      WitnessStays(ips, es, q, path);
    }
  }

  lemma {:induction false} EventWitnessed(ips: PathIps, es: seq<Event>, t: Tables)
    requires |es| > 0 && AllWitnessed(ips, es, t)
    ensures AllWitnessed(ips, es, Apply(ips, t, Last(es)))
  {
    match Last(es)
    case Rate(raw, rate) =>
      var route := Lookup(t, Qpn24(raw));
      assert route.Route? ==> Witnessed(ips, es, Qpn24(raw), route.path);
    case Req(c, q, ip) =>
      if Resolve(ips, ip).Some? {
        assert Names(ips, es[|es| - 1], q, Resolve(ips, ip).value);
      }
    case Rep(c, q) =>
      var i := RequestIndex(t.requests, c);
      if i < |t.requests| && t.requests[i].pathKnown {
        assert Witnessed(ips, es, t.requests[i].initiatorQpn, t.requests[i].path);
      }
    case Feedback(raw, ip) =>
      if Resolve(ips, ip).Some? {
        assert Names(ips, es[|es| - 1], Qpn24(raw), Resolve(ips, ip).value);
      }
    case Poll =>
  }

  /** In any run, a classified flow's path was named by an earlier REQ or feedback packet of that very QPN. */
  lemma {:induction false} ClassificationSound(ips: PathIps, es: seq<Event>)
    ensures AllWitnessed(ips, es, Run(ips, EMPTY, es))
  {
    if |es| > 0 {
      ClassificationSound(ips, Front(es));
      AllStay(ips, es, Run(ips, EMPTY, Front(es)));
      EventWitnessed(ips, es, Run(ips, EMPTY, Front(es)));
    }
  }
}
