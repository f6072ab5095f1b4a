/**
 The whole rate channel of DOCA 2.x as one run: the device stores rates, the host polls the
 mailbox, and connection messages and controller polls come in between, in any order.
 */
module RateChannel {
  import opened Words
  import opened SteerTables
  import opened SteerRuns
  import opened RateMailbox
  import opened HostRates

  /** `heard` is every (QPN, rate) the host has been handed so far, oldest first. */
  datatype Channel = Channel(rates: map<u32, u32>, heard: seq<Slot>, t: Tables)

  const QUIET := Channel(map[], [], EMPTY)

  datatype Step = DeviceStore(qpn: u32, rate: u32) | HostPoll(flows: seq<Slot>) | Controller(e: Event)

  /** A successful poll hears the mailbox's contents in some order; only polls hand on rates. */
  ghost predicate Possible(c: Channel, s: Step) {
    (s.HostPoll? ==> Lists(s.flows, c.rates)) && (s.Controller? ==> !s.e.Rate?)
  }

  function Advance(ips: PathIps, c: Channel, s: Step): Channel {
    match s
    case DeviceStore(qpn, rate) => c.(rates := StoreRate(c.rates, qpn, rate))
    case HostPoll(flows) => c.(heard := c.heard + flows, t := Run(ips, c.t, Rates(flows)))
    case Controller(e) => c.(t := Apply(ips, c.t, e))
  }

  function After(ips: PathIps, ss: seq<Step>): Channel {
    if |ss| == 0 then QUIET else Advance(ips, After(ips, ss[..|ss| - 1]), ss[|ss| - 1])
  }

  ghost predicate PossibleRun(ips: PathIps, ss: seq<Step>) {
    |ss| > 0 ==> PossibleRun(ips, ss[..|ss| - 1]) && Possible(After(ips, ss[..|ss| - 1]), ss[|ss| - 1])
  }

  /** The host table that the channel's history built. */
  function HostTable(c: Channel): seq<FlowRate> { RecordAll([], c.heard) }

  // ---------- neither host table overflows ----------

  function EntryQpns(es: seq<FlowRate>): (ks: seq<u32>)
    ensures |ks| == |es| && forall i :: 0 <= i < |es| ==> ks[i] == es[i].qpn
  {
    if |es| == 0 then [] else EntryQpns(es[..|es| - 1]) + [es[|es| - 1].qpn]
  }

  function FlowQpns(fs: seq<RateFlow>): (ks: seq<u32>)
    ensures |ks| == |fs| && forall i :: 0 <= i < |fs| ==> ks[i] == fs[i].qpn
  {
    if |fs| == 0 then [] else FlowQpns(fs[..|fs| - 1]) + [fs[|fs| - 1].qpn]
  }

  lemma {:induction false} EntriesHeard(rs: seq<Slot>)
    ensures var es := RecordAll([], rs);
      Distinct(EntryQpns(es)) && forall i :: 0 <= i < |es| ==> es[i].qpn in QpnsOf(rs)
  {
    if |rs| > 0 { EntriesHeard(rs[..|rs| - 1]); }
  }

  lemma {:induction false} QpnsAppend(a: seq<Slot>, b: seq<Slot>)
    ensures QpnsOf(a + b) == QpnsOf(a) + QpnsOf(b)
  {
    if |b| == 0 {
      assert a + b == a;
    } else {
      assert (a + b)[..|a + b| - 1] == a + b[..|b| - 1];
      QpnsAppend(a, b[..|b| - 1]);
    }
  }

  /** Every flow of the controller is the low 24 bits of a QPN in `s`. */
  ghost predicate FlowsFrom(fs: seq<RateFlow>, s: set<u32>) {
    forall i :: 0 <= i < |fs| ==> Covered(fs[i].qpn, s, TWO_24)
  }

  lemma {:induction false} ApplyFrom(ips: PathIps, t: Tables, e: Event, s: set<u32>)
    requires ValidTables(t) && FlowsFrom(t.flows, s) && (e.Rate? ==> e.rawQpn in s)
    ensures FlowsFrom(Apply(ips, t, e).flows, s)
  {
    var t' := Apply(ips, t, e);
    ApplyKeepsTables(ips, t, e);
    if e.Rate? {
      assert Covered(Qpn24(e.rawQpn), s, TWO_24);
    } else {
      assert |t'.flows| == |t.flows|;
    }
    forall i | 0 <= i < |t'.flows| ensures Covered(t'.flows[i].qpn, s, TWO_24) {
      if i < |t.flows| { assert Covered(t.flows[i].qpn, s, TWO_24); }
    }
  }

  lemma {:induction false} RatesFrom(ips: PathIps, t: Tables, rs: seq<Slot>, s: set<u32>)
    requires ValidTables(t) && FlowsFrom(t.flows, s) && QpnsOf(rs) <= s
    ensures ValidTables(Run(ips, t, Rates(rs))) && FlowsFrom(Run(ips, t, Rates(rs)).flows, s)
  {
    if |rs| > 0 {
      var front, r := rs[..|rs| - 1], rs[|rs| - 1];
      RatesFrom(ips, t, front, s);
      assert Rates(rs)[..|rs| - 1] == Rates(front);
      ApplyFrom(ips, Run(ips, t, Rates(front)), Event.Rate(r.qpn, r.rate), s);
      ApplyKeepsTables(ips, Run(ips, t, Rates(front)), Event.Rate(r.qpn, r.rate));
    }
  }

  ghost predicate Inv(c: Channel) {
    && |c.rates| <= SLOTS && 0 !in c.rates
    && QpnsOf(c.heard) <= c.rates.Keys
    && ValidTables(c.t) && FlowsFrom(c.t.flows, c.rates.Keys)
  }

  lemma {:induction false} StepKeepsInv(ips: PathIps, c: Channel, s: Step)
    requires Inv(c) && Possible(c, s)
    ensures Inv(Advance(ips, c, s))
  {
    match s
    case DeviceStore(qpn, rate) =>
      var m := StoreRate(c.rates, qpn, rate);
      StoreKeys(c.rates, qpn, rate);
      forall i | 0 <= i < |c.t.flows| ensures Covered(c.t.flows[i].qpn, m.Keys, TWO_24) {
        assert Covered(c.t.flows[i].qpn, c.rates.Keys, TWO_24);
        var q: u32 :| q in c.rates.Keys && q % TWO_24 == c.t.flows[i].qpn;
        assert q in m.Keys;
      }
    case HostPoll(flows) =>
      QpnsAppend(c.heard, flows);
      RatesFrom(ips, c.t, flows, c.rates.Keys);
    case Controller(e) =>
      ApplyKeepsTables(ips, c.t, e);
      ApplyFrom(ips, c.t, e, c.rates.Keys);
  }

  lemma {:induction false} RunKeepsInv(ips: PathIps, ss: seq<Step>)
    requires PossibleRun(ips, ss)
    ensures Inv(After(ips, ss))
  {
    if |ss| > 0 {
      RunKeepsInv(ips, ss[..|ss| - 1]);
      StepKeepsInv(ips, After(ips, ss[..|ss| - 1]), ss[|ss| - 1]);
    }
  }

  /** Both 256-entry host tables are bounded by the 64 slots of the device, in every run. */
  lemma {:induction false} NeverOverflows(ips: PathIps, ss: seq<Step>)
    requires PossibleRun(ips, ss)
    ensures |HostTable(After(ips, ss))| <= SLOTS && |After(ips, ss).t.flows| <= SLOTS
  {
    var c := After(ips, ss);
    RunKeepsInv(ips, ss);
    Bounded(c);
  }

  lemma {:induction false} Bounded(c: Channel)
    requires Inv(c)
    ensures |HostTable(c)| <= SLOTS && |c.t.flows| <= SLOTS
  {
    EntriesHeard(c.heard);
    forall i | 0 <= i < |HostTable(c)| ensures Covered(EntryQpns(HostTable(c))[i], c.rates.Keys, TWO_32) {
      assert HostTable(c)[i].qpn % TWO_32 == HostTable(c)[i].qpn;
    }
    Pigeonhole(EntryQpns(HostTable(c)), c.rates.Keys, TWO_32);
    Pigeonhole(FlowQpns(c.t.flows), c.rates.Keys, TWO_24);
  }

  // ---------- what the host knows after a poll ----------

  /** The last report for flow `q`, seen through the controller's 24-bit mask. */
  ghost predicate LastLow(rs: seq<Slot>, i: nat, q: u32) {
    i < |rs| && Qpn24(rs[i].qpn) == q && forall j :: i < j < |rs| ==> Qpn24(rs[j].qpn) != q
  }

  lemma {:induction false} RateSetsLatest(ips: PathIps, t: Tables, raw: u32, rate: u32, q: u32)
    requires ValidTables(t) && 1 < q && |Apply(ips, t, Event.Rate(raw, rate)).flows| < MAX_RATE_FLOWS
    ensures var t' := Apply(ips, t, Event.Rate(raw, rate));
      && (Qpn24(raw) == q ==> Tracked(t', q) && FlowOf(t', q).latestRate == rate)
      && (Qpn24(raw) != q && Tracked(t, q) ==> Tracked(t', q) && FlowOf(t', q).latestRate == FlowOf(t, q).latestRate)
  {
    var t' := Apply(ips, t, Event.Rate(raw, rate));
    var k := FlowIndex(t.flows, Qpn24(raw));
    if Qpn24(raw) > 1 {
      assert t'.flows[k].qpn == Qpn24(raw) && forall j :: 0 <= j < k ==> t'.flows[j] == t.flows[j];
      assert FlowIndex(t'.flows, Qpn24(raw)) == k;
    }
    if Tracked(t, q) {
      assert forall j :: 0 <= j < |t.flows| ==> t'.flows[j].qpn == t.flows[j].qpn;
      assert FlowIndex(t'.flows, q) == FlowIndex(t.flows, q);
    }
  }

  /** The controller ends with the last report that has the flow's low 24 bits, and no other. */
  lemma {:induction false} LatestIsLastLow(ips: PathIps, t: Tables, rs: seq<Slot>, i: nat, q: u32)
    requires ValidTables(t) && 1 < q && LastLow(rs, i, q)
    requires |Run(ips, t, Rates(rs)).flows| < MAX_RATE_FLOWS
    ensures var t' := Run(ips, t, Rates(rs)); Tracked(t', q) && FlowOf(t', q).latestRate == rs[i].rate
  {
    var n := |rs| - 1;
    var front := rs[..n];
    assert Rates(rs)[..n] == Rates(front);
    RunKeepsTables(ips, t, Rates(front));
    var before := Run(ips, t, Rates(front));
    ApplyKeepsTables(ips, before, Event.Rate(rs[n].qpn, rs[n].rate));
    RateSetsLatest(ips, before, rs[n].qpn, rs[n].rate, q);
    if i < n {
      assert LastLow(front, i, q);
      LatestIsLastLow(ips, t, front, i, q);
    }
  }

  lemma {:induction false} RecordSetsLast(es: seq<FlowRate>, r: Slot, q: u32)
    requires |Record(es, r)| < MAX_TRACKED_FLOWS && Distinct(EntryQpns(es))
    ensures var es' := Record(es, r); var k, k' := EntryIndex(es, q), EntryIndex(es', q);
      && (r.qpn == q ==> k' < |es'| && es'[k'].lastRate == r.rate)
      && (r.qpn != q && k < |es| ==> k' < |es'| && es'[k'].lastRate == es[k].lastRate)
  {
    var es' := Record(es, r);
    var k, k' := EntryIndex(es, q), EntryIndex(es', q);
    assert forall j :: 0 <= j < |es| ==> es'[j].qpn == es[j].qpn;
    if r.qpn == q {
      assert es'[k].qpn == q;
      assert k' == k;
    } else if k < |es| {
      assert k' == k;
    }
  }

  lemma {:induction false} HostLastRate(rs: seq<Slot>, i: nat)
    requires IsLast(rs, i) && |RecordAll([], rs)| < MAX_TRACKED_FLOWS
    ensures var es := RecordAll([], rs); var k := EntryIndex(es, rs[i].qpn);
      k < |es| && es[k].lastRate == rs[i].rate
  {
    var n := |rs| - 1;
    EntriesHeard(rs[..n]);
    RecordSetsLast(RecordAll([], rs[..n]), rs[n], rs[i].qpn);
    if i < n {
      assert IsLast(rs[..n], i);
      HostLastRate(rs[..n], i);
    }
  }

  /** The position of a tracked QPN in a listing of the mailbox. */
  lemma {:induction false} ListedAt(flows: seq<Slot>, m: map<u32, u32>, q: u32) returns (i: nat)
    requires Lists(flows, m) && q in m
    ensures IsLast(flows, i) && flows[i] == Slot(q, m[q])
  {
    i := MemberAt(flows, q);
  }

  lemma {:induction false} MemberAt(flows: seq<Slot>, q: u32) returns (i: nat)
    requires q in QpnsOf(flows)
    ensures i < |flows| && flows[i].qpn == q
  {
    if flows[|flows| - 1].qpn == q { i := |flows| - 1; } else { i := MemberAt(flows[..|flows| - 1], q); }
  }

  // ---------- the controller's view of a rate ----------

  /** All tracked QPNs with the low 24 bits of `q` have the rate of `q`. */
  ghost predicate OneLowRate(m: map<u32, u32>, q: u32)
    requires q in m
  {
    forall p: u32 :: p in m && Qpn24(p) == Qpn24(q) ==> m[p] == m[q]
  }

  /** After a poll that hears `flows`, the controller's flow for `q` carries the device's rate. */
  ghost predicate ControllerAgrees(ips: PathIps, c: Channel, flows: seq<Slot>, q: u32)
    requires q in c.rates
  {
    var t := Advance(ips, c, HostPoll(flows)).t;
    Tracked(t, Qpn24(q)) && FlowOf(t, Qpn24(q)).latestRate == c.rates[q]
  }

  ghost predicate AlwaysAgrees(ips: PathIps, c: Channel, q: u32)
    requires q in c.rates
  {
    forall flows :: Lists(flows, c.rates) ==> ControllerAgrees(ips, c, flows, q)
  }

  /** The last report with these low bits, if there is one. */
  lemma {:induction false} LastLowAt(rs: seq<Slot>, q: u32) returns (i: nat)
    requires exists j :: 0 <= j < |rs| && Qpn24(rs[j].qpn) == q
    ensures LastLow(rs, i, q)
  {
    var n := |rs| - 1;
    if Qpn24(rs[n].qpn) == q {
      i := n;
    } else {
      var j :| 0 <= j < |rs| && Qpn24(rs[j].qpn) == q;
      assert rs[..n][j] == rs[j];
      i := LastLowAt(rs[..n], q);
    }
  }

  /** After any poll the controller has the rate of the tracked QPN with these low bits that was listed last. */
  lemma {:induction false} ControllerKnows(ips: PathIps, c: Channel, flows: seq<Slot>, i: nat, q: u32)
    requires Inv(c) && Lists(flows, c.rates) && 1 < q && LastLow(flows, i, q)
    ensures var t := Advance(ips, c, HostPoll(flows)).t; Tracked(t, q) && FlowOf(t, q).latestRate == flows[i].rate
  {
    StepKeepsInv(ips, c, HostPoll(flows));
    Bounded(Advance(ips, c, HostPoll(flows)));
    LatestIsLastLow(ips, c.t, flows, i, q);
  }

  lemma {:induction false} QpnsHold(flows: seq<Slot>, i: nat)
    requires i < |flows|
    ensures flows[i].qpn in QpnsOf(flows)
  {
    if i < |flows| - 1 { QpnsHold(flows[..|flows| - 1], i); }
  }

  /** A listing of any mailbox contents, and one that ends with any entry. */
  lemma {:induction false} SomeListing(m: map<u32, u32>) returns (flows: seq<Slot>)
    ensures Lists(flows, m)
    decreases |m|
  {
    if m.Keys == {} {
      flows := [];
    } else {
      var p: u32 :| p in m.Keys;
      flows := ListingTo(m, p);
    }
  }

  lemma {:induction false} ListingTo(m: map<u32, u32>, p: u32) returns (flows: seq<Slot>)
    requires p in m
    ensures Lists(flows, m) && |flows| > 0 && flows[|flows| - 1] == Slot(p, m[p])
    decreases |m|, 0
  {
    var rest := m - {p};
    assert m.Keys == rest.Keys + {p} && |m.Keys| == |rest.Keys| + 1;
    var front := SomeListing(rest);
    flows := front + [Slot(p, m[p])];
    assert flows[..|front|] == front;
    forall i | 0 <= i < |front| ensures front[i].qpn in rest { QpnsHold(front, i); }
  }

  /**
   The controller tells QPNs apart by their low 24 bits only. It has the device's rate of `q` after
   every possible listing if and only if it can track `q` at all and all tracked QPNs with the
   same low bits have that rate.
   */
  lemma {:induction false} ControllerAgreesIff(ips: PathIps, c: Channel, q: u32)
    requires Inv(c) && q in c.rates
    ensures AlwaysAgrees(ips, c, q) <==> Qpn24(q) > 1 && OneLowRate(c.rates, q)
  {
    if Qpn24(q) > 1 && OneLowRate(c.rates, q) {
      forall flows | Lists(flows, c.rates) ensures ControllerAgrees(ips, c, flows, q) {
        var j := ListedAt(flows, c.rates, q);
        var i := LastLowAt(flows, Qpn24(q));
        ControllerKnows(ips, c, flows, i, Qpn24(q));
      }
    }
    if AlwaysAgrees(ips, c, q) {
      AgreesOnlyTracked(ips, c, q);
      forall p: u32 | p in c.rates && Qpn24(p) == Qpn24(q) ensures c.rates[p] == c.rates[q] {
        var flows := ListingTo(c.rates, p);
        assert ControllerAgrees(ips, c, flows, q);
        ControllerKnows(ips, c, flows, |flows| - 1, Qpn24(q));
      }
    }
  }

  lemma {:induction false} AgreesOnlyTracked(ips: PathIps, c: Channel, q: u32)
    requires Inv(c) && q in c.rates && AlwaysAgrees(ips, c, q)
    ensures Qpn24(q) > 1
  {
    var flows := SomeListing(c.rates);
    assert ControllerAgrees(ips, c, flows, q);
    StepKeepsInv(ips, c, HostPoll(flows));
  }

  lemma {:induction false} HostAgrees(ips: PathIps, c: Channel, flows: seq<Slot>, q: u32)
    requires Inv(c) && Lists(flows, c.rates) && q in c.rates
    ensures var es := HostTable(Advance(ips, c, HostPoll(flows)));
      EntryIndex(es, q) < |es| && es[EntryIndex(es, q)].lastRate == c.rates[q]
  {
    StepKeepsInv(ips, c, HostPoll(flows));
    Bounded(Advance(ips, c, HostPoll(flows)));
    var i := ListedAt(flows, c.rates, q);
    assert IsLast(c.heard + flows, |c.heard| + i);
    HostLastRate(c.heard + flows, |c.heard| + i);
  }

  lemma {:induction false} PollIsLast(ips: PathIps, ss: seq<Step>, flows: seq<Slot>)
    requires PossibleRun(ips, ss + [HostPoll(flows)])
    ensures Inv(After(ips, ss)) && Lists(flows, After(ips, ss).rates)
    ensures After(ips, ss + [HostPoll(flows)]) == Advance(ips, After(ips, ss), HostPoll(flows))
  {
    assert (ss + [HostPoll(flows)])[..|ss|] == ss;
    RunKeepsInv(ips, ss);
  }

  /**
   Device-to-host agreement. After any run that ends with a poll, the host's entry of every
   tracked QPN holds the device's rate. The controller's flow does so whatever the order of the
   listing exactly when no other tracked QPN with the same low 24 bits has another rate.
   */
  lemma {:induction false} PollAgrees(ips: PathIps, ss: seq<Step>, flows: seq<Slot>, q: u32)
    requires PossibleRun(ips, ss + [HostPoll(flows)]) && q in After(ips, ss).rates
    ensures var m, c := After(ips, ss).rates, After(ips, ss + [HostPoll(flows)]);
      && c.rates == m
      && EntryIndex(HostTable(c), q) < |HostTable(c)|
      && HostTable(c)[EntryIndex(HostTable(c), q)].lastRate == m[q]
      && (Qpn24(q) > 1 && OneLowRate(m, q) ==>
          Tracked(c.t, Qpn24(q)) && FlowOf(c.t, Qpn24(q)).latestRate == m[q])
    ensures AlwaysAgrees(ips, After(ips, ss), q) <==> Qpn24(q) > 1 && OneLowRate(After(ips, ss).rates, q)
  {
    var c := After(ips, ss);
    PollIsLast(ips, ss, flows);
    HostAgrees(ips, c, flows, q);
    ControllerAgreesIff(ips, c, q);
    if AlwaysAgrees(ips, c, q) { assert ControllerAgrees(ips, c, flows, q); }
  }

  /** Every entry of the host table is the exact account of what was heard, in every run. */
  lemma {:induction false} TableIsExact(ips: PathIps, ss: seq<Step>)
    requires PossibleRun(ips, ss)
    ensures var c := After(ips, ss); forall i :: 0 <= i < |HostTable(c)| ==> Accounts(HostTable(c)[i], c.heard)
  {
    NeverOverflows(ips, ss);
    TableIsHistory(After(ips, ss).heard);
  }

  const FIVE := Slot(5, 100)
  const ALIAS := Slot(TWO_24 + 5, 200)

  lemma {:induction false} TwoStored()
    ensures var m: map<u32, u32> := map[5 := 100, TWO_24 + 5 := 200];
      Stores(map[], [FIVE, ALIAS]) == (m, 0) && Lists([FIVE, ALIAS], m)
  {
    var m1: map<u32, u32> := map[5 := 100];
    var flows := [FIVE, ALIAS];
    assert flows[..1] == [FIVE] && [FIVE][..0] == [] && |m1| == 1;
    assert Stores(map[], [FIVE]) == (m1, 0);
    assert QpnsOf([FIVE]) == {5};
  }

  /** Where the condition fails, so can agreement: QPNs 5 and 2^24 + 5 share one flow, and the second listed wins. */
  lemma {:induction false} SharedLowBits(ips: PathIps, t: Tables)
    requires ValidTables(t) && |t.flows| < MAX_RATE_FLOWS - 2
    ensures var flows := [FIVE, ALIAS]; var m: map<u32, u32> := map[5 := 100, TWO_24 + 5 := 200];
      && Stores(map[], flows) == (m, 0) && Lists(flows, m)
      && Tracked(Run(ips, t, Rates(flows)), 5) && FlowOf(Run(ips, t, Rates(flows)), 5).latestRate == 200 != m[5]
  {
    var flows := [FIVE, ALIAS];
    TwoStored();
    assert LastLow(flows, 1, 5);
    assert Rates(flows) == [Event.Rate(5, 100), Event.Rate(TWO_24 + 5, 200)];
    TwoMore(ips, t, Event.Rate(5, 100), Event.Rate(TWO_24 + 5, 200));
    LatestIsLastLow(ips, t, flows, 1, 5);
  }

  lemma {:induction false} TwoMore(ips: PathIps, t: Tables, d: Event, e: Event)
    requires d.Rate? && e.Rate?
    ensures |Run(ips, t, [d, e]).flows| <= |t.flows| + 2
  {
    assert [d, e][..1] == [d] && [d][..0] == [];
    assert Run(ips, t, [d]) == Apply(ips, t, d);
  }
}
