/**
 The three lock-protected, append-only tables of the path-share controller as values,
 and what one whole critical section does to them. The controller class and the
 small-step lock protocol are both proved against these functions.
 */
module SteerTables {
  import opened Words

  const MAX_RATE_FLOWS: nat := 256
  const MAX_CM_CONNECTIONS: nat := 256
  const PCC_FULL_RATE: nat := 0x10_0000
  const BUCKETS: nat := 64

  type PathId = x: nat | x < 2

  /** The configured receiver addresses. The start-up code refuses to run unless both are set. */
  datatype PathIps = PathIps(path0: u32, path1: u32)

  datatype RateFlow = RateFlow(
    qpn: u32, receiverQpn: u32, latestRate: u32, intervalRateSum: u64, intervalRateReports: u64,
    smoothedRate: u32, smoothedRateValid: bool, path: PathId, classified: bool)

  datatype CmRequest = CmRequest(commId: u32, initiatorQpn: u32, receiverIp: u32, path: PathId, pathKnown: bool)

  datatype QpnPair = QpnPair(initiatorQpn: u32, responderQpn: u32, path: PathId)

  const ZERO_FLOW := RateFlow(0, 0, 0, 0, 0, 0, false, 0, false)
  const ZERO_REQUEST := CmRequest(0, 0, 0, 0, false)
  const ZERO_PAIR := QpnPair(0, 0, 0)

  datatype Tables = Tables(flows: seq<RateFlow>, requests: seq<CmRequest>, pairs: seq<QpnPair>)

  const EMPTY := Tables([], [], [])

  /** Where a flow of some QPN belongs, as far as the CM tables know. */
  datatype Route = Unknown | Route(path: PathId, receiverQpn: u32)

  // ---------- linear searches: index of the first matching slot, or the table's length ----------

  function FlowIndex(fs: seq<RateFlow>, qpn: u32): (i: nat)
    ensures i <= |fs| && (i < |fs| ==> fs[i].qpn == qpn)
    ensures forall j :: 0 <= j < i ==> fs[j].qpn != qpn
  {
    if |fs| == 0 || fs[0].qpn == qpn then 0 else 1 + FlowIndex(fs[1..], qpn)
  }

  function RequestIndex(rs: seq<CmRequest>, commId: u32): (i: nat)
    ensures i <= |rs| && (i < |rs| ==> rs[i].commId == commId)
    ensures forall j :: 0 <= j < i ==> rs[j].commId != commId
  {
    if |rs| == 0 || rs[0].commId == commId then 0 else 1 + RequestIndex(rs[1..], commId)
  }

  /** First request of this sender whose receiver address is a configured path. */
  function KnownRequestIndex(rs: seq<CmRequest>, qpn: u32): (i: nat)
    ensures i <= |rs| && (i < |rs| ==> rs[i].initiatorQpn == qpn && rs[i].pathKnown)
    ensures forall j :: 0 <= j < i ==> !(rs[j].initiatorQpn == qpn && rs[j].pathKnown)
  {
    if |rs| == 0 || (rs[0].initiatorQpn == qpn && rs[0].pathKnown) then 0
    else 1 + KnownRequestIndex(rs[1..], qpn)
  }

  function PairIndex(ps: seq<QpnPair>, qpn: u32): (i: nat)
    ensures i <= |ps| && (i < |ps| ==> ps[i].initiatorQpn == qpn)
    ensures forall j :: 0 <= j < i ==> ps[j].initiatorQpn != qpn
  {
    if |ps| == 0 || ps[0].initiatorQpn == qpn then 0 else 1 + PairIndex(ps[1..], qpn)
  }

  /** Learned pairs win over remembered requests. */
  function Lookup(t: Tables, qpn: u32): Route {
    var i := PairIndex(t.pairs, qpn);
    if i < |t.pairs| then Route(t.pairs[i].path, t.pairs[i].responderQpn)
    else
      var j := KnownRequestIndex(t.requests, qpn);
      if j < |t.requests| then Route(t.requests[j].path, 0) else Unknown
  }

  function Resolve(ips: PathIps, ip: u32): Option<PathId> {
    if ips.path0 == ip then Some(0) else if ips.path1 == ip then Some(1) else None
  }

  // ---------- the critical sections ----------

  /** What reaches the controller, one event per critical section. */
  datatype Event =
    | Rate(rawQpn: u32, rate: u32)
    | Req(commId: u32, initiator: u32, receiverIp: u32)
    | Rep(remoteCommId: u32, responder: u32)
    | Feedback(rawSender: u32, sourceIp: u32)
    | Poll

  function Qpn24(raw: u32): u32 { raw % TWO_24 }

  function Report(f: RateFlow, rate: u32): RateFlow {
    f.(latestRate := rate,
       intervalRateSum := (f.intervalRateSum + rate) % TWO_64,
       intervalRateReports := (f.intervalRateReports + 1) % TWO_64)
  }

  /** A report classifies a flow only once. */
  function Classify(f: RateFlow, route: Route): RateFlow {
    if f.classified || route.Unknown? then f
    else f.(receiverQpn := route.receiverQpn, path := route.path, classified := true)
  }

  function UpdateRate(t: Tables, qpn: u32, rate: u32): Tables {
    var i := FlowIndex(t.flows, qpn);
    if i == |t.flows| && i >= MAX_RATE_FLOWS then t
    else
      var fs := if i < |t.flows| then t.flows else t.flows + [ZERO_FLOW.(qpn := qpn)];
      t.(flows := fs[i := Classify(Report(fs[i], rate), Lookup(t, qpn))])
  }

  /** A REQ assigns the path of a flow that already exists; its receiver QPN stays. */
  function AssignPath(fs: seq<RateFlow>, qpn: u32, path: PathId): seq<RateFlow> {
    var i := FlowIndex(fs, qpn);
    if i < |fs| then fs[i := fs[i].(path := path, classified := true)] else fs
  }

  function AssignRoute(fs: seq<RateFlow>, qpn: u32, path: PathId, receiver: u32): seq<RateFlow> {
    var i := FlowIndex(fs, qpn);
    if i < |fs| then fs[i := fs[i].(receiverQpn := receiver, path := path, classified := true)] else fs
  }

  function MakeRequest(commId: u32, initiator: u32, ip: u32, path: Option<PathId>): CmRequest {
    CmRequest(commId, initiator, ip, if path.Some? then path.value else 0, path.Some?)
  }

  function RememberRequest(t: Tables, commId: u32, initiator: u32, ip: u32, path: Option<PathId>): Tables {
    var i := RequestIndex(t.requests, commId);
    var r := MakeRequest(commId, initiator, ip, path);
    if i < |t.requests| then t.(requests := t.requests[i := r])
    else
      var rs := if i < MAX_CM_CONNECTIONS then t.requests + [r] else t.requests;
      Tables(if path.Some? then AssignPath(t.flows, initiator, path.value) else t.flows, rs, t.pairs)
  }

  function SetPair(ps: seq<QpnPair>, p: QpnPair): seq<QpnPair> {
    var i := PairIndex(ps, p.initiatorQpn);
    if i < |ps| then ps[i := p] else if i < MAX_CM_CONNECTIONS then ps + [p] else ps
  }

  function CompleteMapping(t: Tables, remoteCommId: u32, responder: u32): Tables {
    var i := RequestIndex(t.requests, remoteCommId);
    if i == |t.requests| || t.requests[i].initiatorQpn == 0 || !t.requests[i].pathKnown then t
    else
      var r := t.requests[i];
      t.(pairs := SetPair(t.pairs, QpnPair(r.initiatorQpn, responder, r.path)),
         flows := AssignRoute(t.flows, r.initiatorQpn, r.path, responder))
  }

  /** A pair that already has this sender and path keeps its responder. */
  function LearnPair(ps: seq<QpnPair>, sender: u32, path: PathId): seq<QpnPair> {
    var i := PairIndex(ps, sender);
    if i < |ps| && ps[i].path == path then ps else SetPair(ps, QpnPair(sender, sender, path))
  }

  function LearnFeedback(t: Tables, sender: u32, path: PathId): Tables {
    t.(pairs := LearnPair(t.pairs, sender, path), flows := AssignRoute(t.flows, sender, path, sender))
  }

  // ---------- the poll ----------

  function IntervalRate(f: RateFlow): u32 {
    if f.intervalRateReports != 0 then (f.intervalRateSum / f.intervalRateReports) % TWO_32 else f.latestRate
  }

  function Ewma(s: u32, x: u32): u32 { ((s * 7 + x * 1 + 4) / 8) % TWO_32 }

  function DrainFlow(f: RateFlow): RateFlow {
    var x := IntervalRate(f);
    f.(intervalRateSum := 0, intervalRateReports := 0, smoothedRateValid := true,
       smoothedRate := if f.smoothedRateValid then Ewma(f.smoothedRate, x) else x)
  }

  datatype PathTally = PathTally(total: nat, full: nat, reduced: nat, reducedSum: nat)

  datatype Summary = Summary(path0: PathTally, path1: PathTally, pendingMapping: nat)

  const NO_TALLY := PathTally(0, 0, 0, 0)
  const NO_SUMMARY := Summary(NO_TALLY, NO_TALLY, 0)

  function Tally(p: PathTally, rate: u32): PathTally {
    if rate == PCC_FULL_RATE then p.(total := p.total + 1, full := p.full + 1)
    else p.(total := p.total + 1, reduced := p.reduced + 1, reducedSum := p.reducedSum + rate)
  }

  /** Adds one already drained flow to the summary. */
  function TallyFlow(s: Summary, f: RateFlow): Summary {
    if !f.classified then s.(pendingMapping := s.pendingMapping + 1)
    else if f.path == 0 then s.(path0 := Tally(s.path0, f.smoothedRate))
    else s.(path1 := Tally(s.path1, f.smoothedRate))
  }

  function DrainFlows(fs: seq<RateFlow>): (r: seq<RateFlow>)
    ensures |r| == |fs| && forall i :: 0 <= i < |fs| ==> r[i] == DrainFlow(fs[i])
  {
    if |fs| == 0 then [] else DrainFlows(fs[..|fs| - 1]) + [DrainFlow(fs[|fs| - 1])]
  }

  /** The summary of a prefix-built table of drained flows. */
  function Summarize(fs: seq<RateFlow>): Summary {
    if |fs| == 0 then NO_SUMMARY else TallyFlow(Summarize(fs[..|fs| - 1]), fs[|fs| - 1])
  }

  function Drain(t: Tables): Tables { t.(flows := DrainFlows(t.flows)) }

  // ---------- one event, and runs of events ----------

  function Apply(ips: PathIps, t: Tables, e: Event): Tables {
    match e
    case Rate(raw, rate) => if Qpn24(raw) <= 1 then t else UpdateRate(t, Qpn24(raw), rate)
    case Req(c, q, ip) => RememberRequest(t, c, q, ip, Resolve(ips, ip))
    case Rep(c, q) => CompleteMapping(t, c, q)
    case Feedback(raw, ip) =>
      var path := Resolve(ips, ip);
      if path.None? || Qpn24(raw) <= 1 then t else LearnFeedback(t, Qpn24(raw), path.value)
    case Poll => Drain(t)
  }

  /** The tables after a run of events, oldest first. */
  function Run(ips: PathIps, t: Tables, es: seq<Event>): Tables {
    if |es| == 0 then t else Apply(ips, Run(ips, t, es[..|es| - 1]), es[|es| - 1])
  }

  // ---------- the table invariant ----------

  ghost predicate ValidFlows(fs: seq<RateFlow>) {
    && |fs| <= MAX_RATE_FLOWS
    && (forall i :: 0 <= i < |fs| ==> 1 < fs[i].qpn < TWO_24)
    && (forall i, j :: 0 <= i < j < |fs| ==> fs[i].qpn != fs[j].qpn)
  }

  ghost predicate ValidRequests(rs: seq<CmRequest>) {
    && |rs| <= MAX_CM_CONNECTIONS
    && (forall i, j :: 0 <= i < j < |rs| ==> rs[i].commId != rs[j].commId)
  }

  ghost predicate ValidPairs(ps: seq<QpnPair>) {
    && |ps| <= MAX_CM_CONNECTIONS
    && (forall i :: 0 <= i < |ps| ==> ps[i].initiatorQpn != 0)
    && (forall i, j :: 0 <= i < j < |ps| ==> ps[i].initiatorQpn != ps[j].initiatorQpn)
  }

  ghost predicate ValidTables(t: Tables) {
    ValidFlows(t.flows) && ValidRequests(t.requests) && ValidPairs(t.pairs)
  }

  /** Flow slots are only ever appended: a slot never changes the QPN it belongs to. */
  ghost predicate SameSlots(fs: seq<RateFlow>, gs: seq<RateFlow>) {
    |fs| <= |gs| && forall i :: 0 <= i < |fs| ==> gs[i].qpn == fs[i].qpn
  }

  lemma {:induction false} AssignKeepsFlows(fs: seq<RateFlow>, qpn: u32, path: PathId, receiver: u32)
    requires ValidFlows(fs)
    ensures ValidFlows(AssignPath(fs, qpn, path)) && SameSlots(fs, AssignPath(fs, qpn, path))
    ensures ValidFlows(AssignRoute(fs, qpn, path, receiver)) && SameSlots(fs, AssignRoute(fs, qpn, path, receiver))
  {
  }

  lemma {:induction false} SetPairKeepsPairs(ps: seq<QpnPair>, p: QpnPair)
    requires ValidPairs(ps) && p.initiatorQpn != 0
    ensures ValidPairs(SetPair(ps, p))
  {
  }

  lemma {:induction false} RequestKeepsRequests(t: Tables, c: u32, q: u32, ip: u32, path: Option<PathId>)
    requires ValidRequests(t.requests)
    ensures ValidRequests(RememberRequest(t, c, q, ip, path).requests)
  {
  }

  lemma {:induction false} UpdateKeepsFlows(t: Tables, qpn: u32, rate: u32)
    requires ValidFlows(t.flows) && 1 < qpn < TWO_24
    ensures ValidFlows(UpdateRate(t, qpn, rate).flows) && SameSlots(t.flows, UpdateRate(t, qpn, rate).flows)
  {
  }

  /** Tables that stay valid and keep their slots. */
  ghost predicate Kept(t: Tables, t': Tables) {
    (ValidTables(t) ==> ValidTables(t') && SameSlots(t.flows, t'.flows))
  }

  lemma {:induction false} RequestKeepsTables(t: Tables, c: u32, q: u32, ip: u32, path: Option<PathId>)
    ensures Kept(t, RememberRequest(t, c, q, ip, path))
  {
    if ValidTables(t) {
      RequestKeepsRequests(t, c, q, ip, path);
      if path.Some? { AssignKeepsFlows(t.flows, q, path.value, 0); }
    }
  }

  lemma {:induction false} RouteKeepsTables(t: Tables, p: QpnPair)
    requires p.initiatorQpn != 0
    ensures Kept(t, t.(pairs := SetPair(t.pairs, p),
                       flows := AssignRoute(t.flows, p.initiatorQpn, p.path, p.responderQpn)))
    ensures Kept(t, t.(flows := AssignRoute(t.flows, p.initiatorQpn, p.path, p.responderQpn)))
  {
    if ValidTables(t) {
      SetPairKeepsPairs(t.pairs, p);
      AssignKeepsFlows(t.flows, p.initiatorQpn, p.path, p.responderQpn);
    }
  }

  lemma {:induction false} DrainKeepsTables(t: Tables)
    requires ValidTables(t)
    ensures ValidTables(Drain(t)) && SameSlots(t.flows, Drain(t).flows)
  {
  }

  lemma {:induction false} ApplyKeepsTables(ips: PathIps, t: Tables, e: Event)
    requires ValidTables(t)
    ensures ValidTables(Apply(ips, t, e)) && SameSlots(t.flows, Apply(ips, t, e).flows)
  {
    match e
    case Rate(raw, rate) =>
      if Qpn24(raw) > 1 { UpdateKeepsFlows(t, Qpn24(raw), rate); }
    case Req(c, q, ip) => RequestKeepsTables(t, c, q, ip, Resolve(ips, ip));
    case Rep(c, q) =>
      var i := RequestIndex(t.requests, c);
      if i < |t.requests| && t.requests[i].initiatorQpn != 0 {
        RouteKeepsTables(t, QpnPair(t.requests[i].initiatorQpn, q, t.requests[i].path));
      }
    case Feedback(raw, ip) =>
      if Resolve(ips, ip).Some? && Qpn24(raw) > 1 {
        RouteKeepsTables(t, QpnPair(Qpn24(raw), Qpn24(raw), Resolve(ips, ip).value));
      }
    case Poll => DrainKeepsTables(t);
  }

  /** Whatever the run, keys stay unique, counts stay within capacity, and slots are never reused. */
  lemma {:induction false} RunKeepsTables(ips: PathIps, t: Tables, es: seq<Event>)
    requires ValidTables(t)
    ensures ValidTables(Run(ips, t, es)) && SameSlots(t.flows, Run(ips, t, es).flows)
  {
    if |es| > 0 {
      RunKeepsTables(ips, t, es[..|es| - 1]);
      ApplyKeepsTables(ips, Run(ips, t, es[..|es| - 1]), es[|es| - 1]);
    }
  }

  lemma {:induction false} RunAppend(ips: PathIps, t: Tables, es: seq<Event>, fs: seq<Event>)
    ensures Run(ips, t, es + fs) == Run(ips, Run(ips, t, es), fs)
  {
    if |fs| == 0 {
      assert es + fs == es;
    } else {
      assert (es + fs)[..|es + fs| - 1] == es + fs[..|fs| - 1];
      RunAppend(ips, t, es, fs[..|fs| - 1]);
    }
  }
}
