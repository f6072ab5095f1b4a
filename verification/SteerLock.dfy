/**
 The spin lock around the tables, one memory step at a time. Any number of threads take
 events, spin on the flag, walk the tables slot by slot and write them field by field.
 The main result is that every interleaving is linearizable: whenever the lock is free the
 tables are those of the events run one after the other in the order the lock was taken,
 and every poll returned the summary of exactly its own place in that order.
 */
module SteerLock {
  import opened Words
  import opened SteerTables

  /** Where a critical section is. `n` counts the fields of the current record already written. */
  datatype Pc =
    | FindFlow(i: nat)
    | NameFlow(k: nat)
    | WriteReport(k: nat, n: nat)
    | ScanPairs(k: nat, i: nat)
    | ScanRequests(k: nat, i: nat)
    | FindRequest(i: nat)
    | WriteRequest(i: nat, n: nat, added: bool)
    | MatchRequest(i: nat)
    | FindPair(i: nat, q: u32, path: PathId)
    | WritePair(i: nat, n: nat, q: u32, path: PathId)
    | FindOwner(i: nat, q: u32, path: PathId)
    | WriteRoute(k: nat, n: nat, receiver: u32, path: PathId)
    | PollRead(i: nat, acc: Summary)
    | PollWrite(i: nat, n: nat, acc: Summary, x: u32)
    | PollTally(i: nat, acc: Summary)
    | Unlock(result: Summary)

  /** Events that return before touching the lock. */
  predicate Locks(ips: PathIps, e: Event) {
    match e
    case Rate(raw, _) => Qpn24(raw) > 1
    case Feedback(raw, ip) => Resolve(ips, ip).Some? && Qpn24(raw) > 1
    case _ => true
  }

  function Start(ips: PathIps, e: Event): Pc
    requires Locks(ips, e)
  {
    match e
    case Rate(_, _) => FindFlow(0)
    case Req(_, _, _) => FindRequest(0)
    case Rep(_, _) => MatchRequest(0)
    case Feedback(raw, ip) => FindPair(0, Qpn24(raw), Resolve(ips, ip).value)
    case Poll => PollRead(0, NO_SUMMARY)
  }

  function Responder(e: Event): u32 {
    match e
    case Rep(_, q) => q
    case Feedback(raw, _) => Qpn24(raw)
    case _ => 0
  }

  /** Does an existing pair have to be rewritten? */
  predicate Stale(e: Event, p: QpnPair, q: u32, path: PathId) {
    p.initiatorQpn != q || p.path != path || (e.Rep? && p.responderQpn != Responder(e))
  }

  /** The index fields are in range and the program counter belongs to the event. */
  predicate PcOk(e: Event, pc: Pc, t: Tables) {
    match pc
    case FindFlow(i) => e.Rate? && i <= |t.flows|
    case NameFlow(k) => e.Rate? && k < |t.flows|
    case WriteReport(k, n) => e.Rate? && k < |t.flows| && n < 3
    case ScanPairs(k, i) => e.Rate? && k < |t.flows| && i <= |t.pairs|
    case ScanRequests(k, i) => e.Rate? && k < |t.flows| && i <= |t.requests|
    case FindRequest(i) => e.Req? && i <= |t.requests|
    case WriteRequest(i, n, _) => e.Req? && i < |t.requests| && n < 5
    case MatchRequest(i) => e.Rep? && i <= |t.requests|
    case FindPair(i, q, _) => (e.Rep? || e.Feedback?) && i <= |t.pairs|
    case WritePair(i, n, q, _) => (e.Rep? || e.Feedback?) && i < |t.pairs| && n < 3
    case FindOwner(i, _, _) => !e.Rate? && !e.Poll? && i <= |t.flows|
    case WriteRoute(k, n, _, _) => !e.Poll? && k < |t.flows| && n < 3
    case PollRead(i, _) => e.Poll? && i <= |t.flows|
    case PollWrite(i, n, _, _) => e.Poll? && i < |t.flows| && n < 4
    case PollTally(i, _) => e.Poll? && i < |t.flows|
    case Unlock(_) => true
  }

  function SetFlow(t: Tables, k: nat, f: RateFlow): Tables
    requires k < |t.flows|
  {
    t.(flows := t.flows[k := f])
  }

  function RouteField(f: RateFlow, n: nat, receiver: u32, path: PathId): RateFlow {
    if n == 0 then f.(receiverQpn := receiver) else if n == 1 then f.(path := path) else f.(classified := true)
  }

  function ReportField(f: RateFlow, n: nat, rate: u32): RateFlow {
    if n == 0 then f.(latestRate := rate)
    else if n == 1 then f.(intervalRateSum := (f.intervalRateSum + rate) % TWO_64)
    else f.(intervalRateReports := (f.intervalRateReports + 1) % TWO_64)
  }

  function RequestField(r: CmRequest, n: nat, e: Event, path: Option<PathId>): CmRequest
    requires e.Req?
  {
    if n == 0 then r.(commId := e.commId)
    else if n == 1 then r.(initiatorQpn := e.initiator)
    else if n == 2 then r.(receiverIp := e.receiverIp)
    else if n == 3 then r.(path := if path.Some? then path.value else 0)
    else r.(pathKnown := path.Some?)
  }

  function PairField(p: QpnPair, n: nat, e: Event, q: u32, path: PathId): QpnPair {
    if n == 0 then p.(initiatorQpn := q) else if n == 1 then p.(responderQpn := Responder(e)) else p.(path := path)
  }

  function PollField(f: RateFlow, n: nat, x: u32): RateFlow {
    if n == 0 then f.(intervalRateSum := 0)
    else if n == 1 then f.(intervalRateReports := 0)
    else if n == 2 then f.(smoothedRate := if f.smoothedRateValid then Ewma(f.smoothedRate, x) else x)
    else f.(smoothedRateValid := true)
  }

  const DONE := Unlock(NO_SUMMARY)

  /** A REQ goes on to the flow only when its receiver address is a configured path. */
  function AfterRequest(e: Event, path: Option<PathId>): Pc
    requires e.Req?
  {
    if path.Some? then FindOwner(0, e.initiator, path.value) else DONE
  }

  // ---------- every critical section ends ----------

  function Stage(pc: Pc): nat {
    match pc
    case Unlock(_) => 0
    case PollRead(_, _) | PollWrite(_, _, _, _) | PollTally(_, _) => 1
    case WriteRoute(_, _, _, _) => 2
    case FindOwner(_, _, _) | ScanRequests(_, _) => 3
    case WritePair(_, _, _, _) | ScanPairs(_, _) => 4
    case FindPair(_, _, _) | WriteReport(_, _) => 5
    case MatchRequest(_) | NameFlow(_) => 6
    case WriteRequest(_, _, _) | FindFlow(_) => 7
    case FindRequest(_) => 8
  }

  function Left(e: Event, pc: Pc, t: Tables): nat
    requires PcOk(e, pc, t)
  {
    match pc
    case FindFlow(i) => |t.flows| - i
    case WriteReport(_, n) => 3 - n
    case ScanPairs(_, i) => |t.pairs| - i
    case ScanRequests(_, i) => |t.requests| - i
    case FindRequest(i) => |t.requests| - i
    case WriteRequest(_, n, _) => 5 - n
    case MatchRequest(i) => |t.requests| - i
    case FindPair(i, _, _) => |t.pairs| - i
    case WritePair(_, n, _, _) => 3 - n
    case FindOwner(i, _, _) => |t.flows| - i
    case WriteRoute(_, n, _, _) => 3 - n
    case PollRead(i, _) => 6 * (|t.flows| - i) + 5
    case PollWrite(i, n, _, _) => 6 * (|t.flows| - i) + 4 - n
    case PollTally(i, _) => 6 * (|t.flows| - i)
    case _ => 0
  }

  /** The first position is nearer to the end of the critical section than the second. */
  predicate Nearer(e: Event, r: (Pc, Tables), pc: Pc, t: Tables)
    requires PcOk(e, pc, t)
  {
    && PcOk(e, r.0, r.1)
    && (Stage(r.0) < Stage(pc) || (Stage(r.0) == Stage(pc) && Left(e, r.0, r.1) < Left(e, pc, t)))
  }

  // ---------- the steps ----------

  /** What is in the next unused slot of each table. An append takes the slot as it is. */
  datatype Spare = Spare(flow: RateFlow, request: CmRequest, pair: QpnPair)

  const CLEAN := Spare(ZERO_FLOW, ZERO_REQUEST, ZERO_PAIR)

  function RouteStep(e: Event, pc: Pc, t: Tables): (r: (Pc, Tables))
    requires PcOk(e, pc, t) && (pc.WriteRoute? || pc.FindOwner?)
    ensures Nearer(e, r, pc, t)
  {
    match pc
    case FindOwner(i, q, path) =>
      if i == |t.flows| then (DONE, t)
      else if t.flows[i].qpn != q then (FindOwner(i + 1, q, path), t)
      else (WriteRoute(i, if e.Req? then 1 else 0, Responder(e), path), t)
    case WriteRoute(k, n, receiver, path) =>
      (if n < 2 then WriteRoute(k, n + 1, receiver, path) else DONE,
       SetFlow(t, k, RouteField(t.flows[k], n, receiver, path)))
  }

  function RateStep(e: Event, pc: Pc, t: Tables, spare: Spare := CLEAN): (r: (Pc, Tables))
    requires PcOk(e, pc, t) && !pc.Unlock? && e.Rate?
    ensures Nearer(e, r, pc, t)
  {
    match pc
    case FindFlow(i) =>
      if i < |t.flows| then
        (if t.flows[i].qpn == Qpn24(e.rawQpn) then WriteReport(i, 0) else FindFlow(i + 1), t)
      else if i < MAX_RATE_FLOWS then (NameFlow(i), t.(flows := t.flows + [spare.flow]))
      else (DONE, t)
    case NameFlow(k) => (WriteReport(k, 0), SetFlow(t, k, t.flows[k].(qpn := Qpn24(e.rawQpn))))
    case WriteReport(k, n) =>
      (if n < 2 then WriteReport(k, n + 1) else ScanPairs(k, 0), SetFlow(t, k, ReportField(t.flows[k], n, e.rate)))
    case ScanPairs(k, i) =>
      if i == |t.pairs| then (ScanRequests(k, 0), t)
      else if t.pairs[i].initiatorQpn != Qpn24(e.rawQpn) then (ScanPairs(k, i + 1), t)
      else if t.flows[k].classified then (DONE, t)
      else (WriteRoute(k, 0, t.pairs[i].responderQpn, t.pairs[i].path), t)
    case ScanRequests(k, i) =>
      if i == |t.requests| then (DONE, t)
      else if !(t.requests[i].initiatorQpn == Qpn24(e.rawQpn) && t.requests[i].pathKnown) then
        (ScanRequests(k, i + 1), t)
      else if t.flows[k].classified then (DONE, t)
      else (WriteRoute(k, 0, 0, t.requests[i].path), t)
    case WriteRoute(_, _, _, _) => RouteStep(e, pc, t)
  }

  function ReqStep(ips: PathIps, e: Event, pc: Pc, t: Tables, spare: Spare := CLEAN): (r: (Pc, Tables))
    requires PcOk(e, pc, t) && !pc.Unlock? && e.Req?
    ensures Nearer(e, r, pc, t)
  {
    var path := Resolve(ips, e.receiverIp);
    match pc
    case FindRequest(i) =>
      if i < |t.requests| then
        (if t.requests[i].commId == e.commId then WriteRequest(i, 1, false) else FindRequest(i + 1), t)
      else if i < MAX_CM_CONNECTIONS then (WriteRequest(i, 0, true), t.(requests := t.requests + [spare.request]))
      else (AfterRequest(e, path), t)
    case WriteRequest(i, n, added) =>
      (if n < 4 then WriteRequest(i, n + 1, added) else if added then AfterRequest(e, path) else DONE,
       t.(requests := t.requests[i := RequestField(t.requests[i], n, e, path)]))
    case FindOwner(_, _, _) => RouteStep(e, pc, t)
    case WriteRoute(_, _, _, _) => RouteStep(e, pc, t)
  }

  function FindPairStep(e: Event, pc: Pc, t: Tables, spare: Spare): (r: (Pc, Tables))
    requires PcOk(e, pc, t) && pc.FindPair?
    ensures Nearer(e, r, pc, t)
  {
    var (i, q, path) := (pc.i, pc.q, pc.path);
    if i < |t.pairs| then
      if t.pairs[i].initiatorQpn != q then (FindPair(i + 1, q, path), t)
      else (if Stale(e, t.pairs[i], q, path) then WritePair(i, 0, q, path) else FindOwner(0, q, path), t)
    else if i < MAX_CM_CONNECTIONS then
      (if Stale(e, spare.pair, q, path) then WritePair(i, 0, q, path) else FindOwner(0, q, path),
       t.(pairs := t.pairs + [spare.pair]))
    else (FindOwner(0, q, path), t)
  }

  function PairStep(e: Event, pc: Pc, t: Tables, spare: Spare := CLEAN): (r: (Pc, Tables))
    requires PcOk(e, pc, t) && !pc.Unlock? && (e.Rep? || e.Feedback?)
    ensures Nearer(e, r, pc, t)
  {
    match pc
    case MatchRequest(i) =>
      if i == |t.requests| then (DONE, t)
      else if t.requests[i].commId != e.remoteCommId then (MatchRequest(i + 1), t)
      else if t.requests[i].initiatorQpn == 0 || !t.requests[i].pathKnown then (DONE, t)
      else (FindPair(0, t.requests[i].initiatorQpn, t.requests[i].path), t)
    case FindPair(_, _, _) => FindPairStep(e, pc, t, spare)
    case WritePair(i, n, q, path) =>
      (if n < 2 then WritePair(i, n + 1, q, path) else FindOwner(0, q, path),
       t.(pairs := t.pairs[i := PairField(t.pairs[i], n, e, q, path)]))
    case FindOwner(_, _, _) => RouteStep(e, pc, t)
    case WriteRoute(_, _, _, _) => RouteStep(e, pc, t)
  }

  function PollStep(e: Event, pc: Pc, t: Tables): (r: (Pc, Tables))
    requires PcOk(e, pc, t) && !pc.Unlock? && e.Poll?
    ensures Nearer(e, r, pc, t)
  {
    match pc
    case PollRead(i, acc) =>
      if i == |t.flows| then (Unlock(acc), t) else (PollWrite(i, 0, acc, IntervalRate(t.flows[i])), t)
    case PollWrite(i, n, acc, x) =>
      (if n < 3 then PollWrite(i, n + 1, acc, x) else PollTally(i, acc), SetFlow(t, i, PollField(t.flows[i], n, x)))
    case PollTally(i, acc) => (PollRead(i + 1, TallyFlow(acc, t.flows[i])), t)
  }

  /** One step of the thread that holds the lock: look at one slot or write one field. */
  function Micro(ips: PathIps, e: Event, pc: Pc, t: Tables, spare: Spare := CLEAN): (r: (Pc, Tables))
    requires PcOk(e, pc, t) && !pc.Unlock?
    ensures Nearer(e, r, pc, t)
  {
    match e
    case Rate(_, _) => RateStep(e, pc, t, spare)
    case Req(_, _, _) => ReqStep(ips, e, pc, t, spare)
    case Rep(_, _) => PairStep(e, pc, t, spare)
    case Feedback(_, _) => PairStep(e, pc, t, spare)
    case Poll => PollStep(e, pc, t)
  }

  /** What is left of a critical section, run to its end without interference. */
  function Finish(ips: PathIps, e: Event, pc: Pc, t: Tables): (Tables, Summary)
    requires PcOk(e, pc, t)
    decreases Stage(pc), Left(e, pc, t)
  {
    if pc.Unlock? then (t, pc.result)
    else
      var (pc', t') := Micro(ips, e, pc, t);
      Finish(ips, e, pc', t')
  }

  function Response(e: Event, after: Tables): Summary {
    if e.Poll? then Summarize(after.flows) else NO_SUMMARY
  }

  // ---------- an undisturbed critical section is the event function ----------

  lemma {:induction false} FinishRoute(ips: PathIps, e: Event, k: nat, n: nat, receiver: u32, path: PathId, t: Tables)
    requires PcOk(e, WriteRoute(k, n, receiver, path), t)
    ensures var f := t.flows[k];
      Finish(ips, e, WriteRoute(k, n, receiver, path), t) ==
      (SetFlow(t, k, f.(receiverQpn := if n == 0 then receiver else f.receiverQpn,
                        path := if n <= 1 then path else f.path, classified := true)), NO_SUMMARY)
    decreases 3 - n
  {
    var f := RouteField(t.flows[k], n, receiver, path);
    if n < 2 {
      FinishRoute(ips, e, k, n + 1, receiver, path, SetFlow(t, k, f));
      var g := t.flows[k].(receiverQpn := if n == 0 then receiver else t.flows[k].receiverQpn,
                           path := path, classified := true);
      assert t.flows[k := f][k := g] == t.flows[k := g];
    } else {
      assert Finish(ips, e, WriteRoute(k, n, receiver, path), t) == Finish(ips, e, DONE, SetFlow(t, k, f));
    }
  }

  lemma {:induction false} FinishOwner(ips: PathIps, e: Event, i: nat, q: u32, path: PathId, t: Tables)
    requires PcOk(e, FindOwner(i, q, path), t)
    requires forall j :: 0 <= j < i ==> t.flows[j].qpn != q
    ensures Finish(ips, e, FindOwner(i, q, path), t) ==
            (t.(flows := if e.Req? then AssignPath(t.flows, q, path) else AssignRoute(t.flows, q, path, Responder(e))),
             NO_SUMMARY)
    decreases |t.flows| - i
  {
    if i < |t.flows| {
      if t.flows[i].qpn != q {
        FinishOwner(ips, e, i + 1, q, path, t);
      } else {
        FinishRoute(ips, e, i, if e.Req? then 1 else 0, Responder(e), path, t);
      }
    }
  }

  lemma {:induction false} FinishScanRequests(ips: PathIps, e: Event, k: nat, i: nat, t: Tables)
    requires PcOk(e, ScanRequests(k, i), t)
    requires PairIndex(t.pairs, Qpn24(e.rawQpn)) == |t.pairs|
    requires forall j :: 0 <= j < i ==> !(t.requests[j].initiatorQpn == Qpn24(e.rawQpn) && t.requests[j].pathKnown)
    ensures Finish(ips, e, ScanRequests(k, i), t) ==
            (SetFlow(t, k, Classify(t.flows[k], Lookup(t, Qpn24(e.rawQpn)))), NO_SUMMARY)
    decreases |t.requests| - i
  {
    assert t.flows[k := t.flows[k]] == t.flows;
    if i < |t.requests| {
      if !(t.requests[i].initiatorQpn == Qpn24(e.rawQpn) && t.requests[i].pathKnown) {
        FinishScanRequests(ips, e, k, i + 1, t);
      } else if !t.flows[k].classified {
        FinishRoute(ips, e, k, 0, 0, t.requests[i].path, t);
      }
    }
  }

  lemma {:induction false} FinishScanPairs(ips: PathIps, e: Event, k: nat, i: nat, t: Tables)
    requires PcOk(e, ScanPairs(k, i), t)
    requires forall j :: 0 <= j < i ==> t.pairs[j].initiatorQpn != Qpn24(e.rawQpn)
    ensures Finish(ips, e, ScanPairs(k, i), t) ==
            (SetFlow(t, k, Classify(t.flows[k], Lookup(t, Qpn24(e.rawQpn)))), NO_SUMMARY)
    decreases |t.pairs| - i
  {
    assert t.flows[k := t.flows[k]] == t.flows;
    if i == |t.pairs| {
      FinishScanRequests(ips, e, k, 0, t);
    } else if t.pairs[i].initiatorQpn != Qpn24(e.rawQpn) {
      FinishScanPairs(ips, e, k, i + 1, t);
    } else if !t.flows[k].classified {
      FinishRoute(ips, e, k, 0, t.pairs[i].responderQpn, t.pairs[i].path, t);
    }
  }

  lemma {:induction false} FinishReport(ips: PathIps, e: Event, k: nat, t: Tables)
    requires PcOk(e, WriteReport(k, 0), t)
    ensures Finish(ips, e, WriteReport(k, 0), t) ==
            (SetFlow(t, k, Classify(Report(t.flows[k], e.rate), Lookup(t, Qpn24(e.rawQpn)))), NO_SUMMARY)
  {
    var t1 := SetFlow(t, k, ReportField(t.flows[k], 0, e.rate));
    var t2 := SetFlow(t1, k, ReportField(t1.flows[k], 1, e.rate));
    var t3 := SetFlow(t2, k, ReportField(t2.flows[k], 2, e.rate));
    assert Finish(ips, e, WriteReport(k, 0), t) == Finish(ips, e, WriteReport(k, 1), t1);
    assert Finish(ips, e, WriteReport(k, 1), t1) == Finish(ips, e, WriteReport(k, 2), t2);
    assert Finish(ips, e, WriteReport(k, 2), t2) == Finish(ips, e, ScanPairs(k, 0), t3);
    FinishScanPairs(ips, e, k, 0, t3);
    assert t3.flows[k] == Report(t.flows[k], e.rate);
    var g := Classify(t3.flows[k], Lookup(t3, Qpn24(e.rawQpn)));
    assert t3.flows[k := g] == t.flows[k := g];
  }

  lemma {:induction false} FinishNewFlow(ips: PathIps, e: Event, t: Tables)
    requires e.Rate? && |t.flows| < MAX_RATE_FLOWS && FlowIndex(t.flows, Qpn24(e.rawQpn)) == |t.flows|
    ensures Finish(ips, e, FindFlow(|t.flows|), t) == (UpdateRate(t, Qpn24(e.rawQpn), e.rate), NO_SUMMARY)
  {
    var i := |t.flows|;
    var t1 := t.(flows := t.flows + [ZERO_FLOW]);
    var t2 := SetFlow(t1, i, t1.flows[i].(qpn := Qpn24(e.rawQpn)));
    assert Finish(ips, e, FindFlow(i), t) == Finish(ips, e, NameFlow(i), t1);
    assert Finish(ips, e, NameFlow(i), t1) == Finish(ips, e, WriteReport(i, 0), t2);
    FinishReport(ips, e, i, t2);
    assert t2.flows == t.flows + [ZERO_FLOW.(qpn := Qpn24(e.rawQpn))];
  }

  lemma {:induction false} FinishFindFlow(ips: PathIps, e: Event, i: nat, t: Tables)
    requires PcOk(e, FindFlow(i), t)
    requires forall j :: 0 <= j < i ==> t.flows[j].qpn != Qpn24(e.rawQpn)
    ensures Finish(ips, e, FindFlow(i), t) == (UpdateRate(t, Qpn24(e.rawQpn), e.rate), NO_SUMMARY)
    decreases |t.flows| - i
  {
    if i < |t.flows| {
      if t.flows[i].qpn == Qpn24(e.rawQpn) {
        FinishReport(ips, e, i, t);
      } else {
        FinishFindFlow(ips, e, i + 1, t);
      }
    } else if i < MAX_RATE_FLOWS {
      FinishNewFlow(ips, e, t);
    }
  }

  lemma {:induction false} FinishWriteRequest(ips: PathIps, e: Event, i: nat, n: nat, added: bool, t: Tables)
    requires PcOk(e, WriteRequest(i, n, added), t)
    requires n > 0 ==> t.requests[i].commId == e.commId
    requires n > 1 ==> t.requests[i].initiatorQpn == e.initiator
    requires n > 2 ==> t.requests[i].receiverIp == e.receiverIp
    requires n > 3 ==> t.requests[i].path == MakeRequest(0, 0, 0, Resolve(ips, e.receiverIp)).path
    ensures var path := Resolve(ips, e.receiverIp);
      var t' := t.(requests := t.requests[i := MakeRequest(e.commId, e.initiator, e.receiverIp, path)]);
      Finish(ips, e, WriteRequest(i, n, added), t) ==
      Finish(ips, e, if added then AfterRequest(e, path) else DONE, t')
    decreases 5 - n
  {
    var path := Resolve(ips, e.receiverIp);
    var t1 := t.(requests := t.requests[i := RequestField(t.requests[i], n, e, path)]);
    if n < 4 {
      assert Finish(ips, e, WriteRequest(i, n, added), t) == Finish(ips, e, WriteRequest(i, n + 1, added), t1);
      FinishWriteRequest(ips, e, i, n + 1, added, t1);
      assert t1.requests[i := MakeRequest(e.commId, e.initiator, e.receiverIp, path)] ==
             t.requests[i := MakeRequest(e.commId, e.initiator, e.receiverIp, path)];
    }
  }

  lemma {:induction false} FinishFindRequest(ips: PathIps, e: Event, i: nat, t: Tables)
    requires PcOk(e, FindRequest(i), t)
    requires forall j :: 0 <= j < i ==> t.requests[j].commId != e.commId
    ensures Finish(ips, e, FindRequest(i), t) ==
            (RememberRequest(t, e.commId, e.initiator, e.receiverIp, Resolve(ips, e.receiverIp)), NO_SUMMARY)
    decreases |t.requests| - i
  {
    var path := Resolve(ips, e.receiverIp);
    if i < |t.requests| {
      if t.requests[i].commId == e.commId {
        FinishWriteRequest(ips, e, i, 1, false, t);
      } else {
        FinishFindRequest(ips, e, i + 1, t);
      }
    } else {
      var t' := t;
      if i < MAX_CM_CONNECTIONS {
        var t1 := t.(requests := t.requests + [ZERO_REQUEST]);
        FinishWriteRequest(ips, e, i, 0, true, t1);
        t' := t.(requests := t.requests + [MakeRequest(e.commId, e.initiator, e.receiverIp, path)]);
        assert t'.requests == t1.requests[i := MakeRequest(e.commId, e.initiator, e.receiverIp, path)];
      }
      if path.Some? { FinishOwner(ips, e, 0, e.initiator, path.value, t'); }
    }
  }

  /** What the pair table holds when the flow is looked up. */
  function StoredPairs(e: Event, ps: seq<QpnPair>, q: u32, path: PathId): seq<QpnPair> {
    if e.Feedback? then LearnPair(ps, q, path) else SetPair(ps, QpnPair(q, Responder(e), path))
  }

  lemma {:induction false} FinishWritePair(ips: PathIps, e: Event, i: nat, q: u32, path: PathId, t: Tables)
    requires PcOk(e, WritePair(i, 0, q, path), t)
    ensures Finish(ips, e, WritePair(i, 0, q, path), t) ==
            Finish(ips, e, FindOwner(0, q, path), t.(pairs := t.pairs[i := QpnPair(q, Responder(e), path)]))
  {
    var t1 := t.(pairs := t.pairs[i := PairField(t.pairs[i], 0, e, q, path)]);
    var t2 := t1.(pairs := t1.pairs[i := PairField(t1.pairs[i], 1, e, q, path)]);
    var t3 := t2.(pairs := t2.pairs[i := PairField(t2.pairs[i], 2, e, q, path)]);
    assert Finish(ips, e, WritePair(i, 0, q, path), t) == Finish(ips, e, WritePair(i, 1, q, path), t1);
    assert Finish(ips, e, WritePair(i, 1, q, path), t1) == Finish(ips, e, WritePair(i, 2, q, path), t2);
    assert Finish(ips, e, WritePair(i, 2, q, path), t2) == Finish(ips, e, FindOwner(0, q, path), t3);
    assert t3.pairs == t.pairs[i := QpnPair(q, Responder(e), path)];
  }

  lemma {:induction false} FinishFoundPair(ips: PathIps, e: Event, i: nat, q: u32, path: PathId, t: Tables)
    requires PcOk(e, FindPair(i, q, path), t) && i == PairIndex(t.pairs, q) < |t.pairs|
    requires e.Feedback? ==> q == Responder(e)
    ensures Finish(ips, e, FindPair(i, q, path), t) ==
            Finish(ips, e, FindOwner(0, q, path), t.(pairs := StoredPairs(e, t.pairs, q, path)))
  {
    if Stale(e, t.pairs[i], q, path) {
      FinishWritePair(ips, e, i, q, path, t);
    } else {
      assert t.pairs[i := t.pairs[i]] == t.pairs;
    }
  }

  lemma {:induction false} FinishNewPair(ips: PathIps, e: Event, i: nat, q: u32, path: PathId, t: Tables)
    requires PcOk(e, FindPair(i, q, path), t) && i == PairIndex(t.pairs, q) == |t.pairs| && q != 0
    requires e.Feedback? ==> q == Responder(e)
    ensures Finish(ips, e, FindPair(i, q, path), t) ==
            Finish(ips, e, FindOwner(0, q, path), t.(pairs := StoredPairs(e, t.pairs, q, path)))
  {
    if i < MAX_CM_CONNECTIONS {
      var p := QpnPair(q, Responder(e), path);
      var t1 := t.(pairs := t.pairs + [ZERO_PAIR]);
      assert Finish(ips, e, FindPair(i, q, path), t) == Finish(ips, e, WritePair(i, 0, q, path), t1);
      FinishWritePair(ips, e, i, q, path, t1);
      assert t1.pairs[i := p] == t.pairs + [p];
    }
  }

  lemma {:induction false} FinishFindPair(ips: PathIps, e: Event, i: nat, q: u32, path: PathId, t: Tables)
    requires PcOk(e, FindPair(i, q, path), t) && q != 0
    requires e.Feedback? ==> q == Responder(e)
    requires forall j :: 0 <= j < i ==> t.pairs[j].initiatorQpn != q
    ensures Finish(ips, e, FindPair(i, q, path), t) ==
            Finish(ips, e, FindOwner(0, q, path), t.(pairs := StoredPairs(e, t.pairs, q, path)))
    decreases |t.pairs| - i
  {
    if i == |t.pairs| {
      FinishNewPair(ips, e, i, q, path, t);
    } else if t.pairs[i].initiatorQpn != q {
      assert Finish(ips, e, FindPair(i, q, path), t) == Finish(ips, e, FindPair(i + 1, q, path), t);
      FinishFindPair(ips, e, i + 1, q, path, t);
    } else {
      FinishFoundPair(ips, e, i, q, path, t);
    }
  }

  lemma {:induction false} FinishStore(ips: PathIps, e: Event, q: u32, path: PathId, t: Tables)
    requires PcOk(e, FindPair(0, q, path), t) && q != 0
    requires e.Feedback? ==> q == Responder(e)
    ensures Finish(ips, e, FindPair(0, q, path), t) ==
            (t.(pairs := StoredPairs(e, t.pairs, q, path), flows := AssignRoute(t.flows, q, path, Responder(e))),
             NO_SUMMARY)
  {
    FinishFindPair(ips, e, 0, q, path, t);
    FinishOwner(ips, e, 0, q, path, t.(pairs := StoredPairs(e, t.pairs, q, path)));
  }

  lemma {:induction false} FinishMatch(ips: PathIps, e: Event, i: nat, t: Tables)
    requires PcOk(e, MatchRequest(i), t)
    requires forall j :: 0 <= j < i ==> t.requests[j].commId != e.remoteCommId
    ensures Finish(ips, e, MatchRequest(i), t) == (CompleteMapping(t, e.remoteCommId, e.responder), NO_SUMMARY)
    decreases |t.requests| - i
  {
    if i < |t.requests| {
      var r := t.requests[i];
      if r.commId != e.remoteCommId {
        FinishMatch(ips, e, i + 1, t);
      } else if r.initiatorQpn != 0 && r.pathKnown {
        FinishStore(ips, e, r.initiatorQpn, r.path, t);
      }
    }
  }

  lemma {:induction false} FinishPollFlow(ips: PathIps, e: Event, i: nat, acc: Summary, t: Tables)
    requires PcOk(e, PollRead(i, acc), t) && i < |t.flows|
    ensures var t' := SetFlow(t, i, DrainFlow(t.flows[i]));
      Finish(ips, e, PollRead(i, acc), t) == Finish(ips, e, PollRead(i + 1, TallyFlow(acc, t'.flows[i])), t')
  {
    var x := IntervalRate(t.flows[i]);
    var t1 := SetFlow(t, i, PollField(t.flows[i], 0, x));
    var t2 := SetFlow(t1, i, PollField(t1.flows[i], 1, x));
    var t3 := SetFlow(t2, i, PollField(t2.flows[i], 2, x));
    var t4 := SetFlow(t3, i, PollField(t3.flows[i], 3, x));
    assert Finish(ips, e, PollRead(i, acc), t) == Finish(ips, e, PollWrite(i, 0, acc, x), t);
    assert Finish(ips, e, PollWrite(i, 0, acc, x), t) == Finish(ips, e, PollWrite(i, 1, acc, x), t1);
    assert Finish(ips, e, PollWrite(i, 1, acc, x), t1) == Finish(ips, e, PollWrite(i, 2, acc, x), t2);
    assert Finish(ips, e, PollWrite(i, 2, acc, x), t2) == Finish(ips, e, PollWrite(i, 3, acc, x), t3);
    assert Finish(ips, e, PollWrite(i, 3, acc, x), t3) == Finish(ips, e, PollTally(i, acc), t4);
    assert t4.flows == t.flows[i := DrainFlow(t.flows[i])];
  }

  lemma {:induction false} FinishPoll(ips: PathIps, e: Event, i: nat, acc: Summary, t: Tables, t0: Tables)
    requires PcOk(e, PollRead(i, acc), t)
    requires t == t0.(flows := t.flows) && |t.flows| == |t0.flows|
    requires forall j :: 0 <= j < |t.flows| ==> t.flows[j] == if j < i then DrainFlow(t0.flows[j]) else t0.flows[j]
    requires acc == Summarize(t.flows[..i])
    ensures Finish(ips, e, PollRead(i, acc), t) == (Drain(t0), Summarize(Drain(t0).flows))
    decreases |t.flows| - i
  {
    if i < |t.flows| {
      FinishPollFlow(ips, e, i, acc, t);
      var t' := SetFlow(t, i, DrainFlow(t.flows[i]));
      assert t'.flows[..i + 1] == t.flows[..i] + [t'.flows[i]];
      FinishPoll(ips, e, i + 1, TallyFlow(acc, t'.flows[i]), t', t0);
    } else {
      assert t.flows == DrainFlows(t0.flows) && t.flows[..i] == t.flows;
    }
  }

  /** Left alone, a critical section does to the tables what the event function says, and answers a poll. */
  lemma {:induction false} CriticalSection(ips: PathIps, e: Event, t: Tables)
    requires Locks(ips, e)
    ensures PcOk(e, Start(ips, e), t)
    ensures Finish(ips, e, Start(ips, e), t) == (Apply(ips, t, e), Response(e, Apply(ips, t, e)))
  {
    match e
    case Rate(_, _) => FinishFindFlow(ips, e, 0, t);
    case Req(_, _, _) => FinishFindRequest(ips, e, 0, t);
    case Rep(_, _) => FinishMatch(ips, e, 0, t);
    case Feedback(raw, ip) => FinishStore(ips, e, Qpn24(raw), Resolve(ips, ip).value, t);
    case Poll => FinishPoll(ips, e, 0, NO_SUMMARY, t, t);
  }

  // ---------- threads ----------

  datatype Thread = Idle | Spinning(e: Event) | Holding(e: Event, pc: Pc)

  /** `order` records the events in the order they took the lock, `results` what the finished ones returned. */
  datatype Global = Global(locked: bool, tables: Tables, threads: map<nat, Thread>,
                           order: seq<Event>, results: seq<Summary>)

  /** A thread receives an event, or takes its next step. */
  datatype Action = Begin(tid: nat, e: Event) | Move(tid: nat)

  /** The holder's step; other threads cannot write the tables. */
  ghost function HolderStep(ips: PathIps, g: Global, tid: nat): Global
    requires tid in g.threads && g.threads[tid].Holding? && PcOk(g.threads[tid].e, g.threads[tid].pc, g.tables)
  {
    var h := g.threads[tid];
    if h.pc.Unlock? then
      g.(locked := false, threads := g.threads[tid := Idle], results := g.results + [h.pc.result])
    else
      var (pc', t') := Micro(ips, h.e, h.pc, g.tables);
      g.(tables := t', threads := g.threads[tid := Holding(h.e, pc')])
  }

  /** A spinning thread's test-and-set. */
  ghost function SpinStep(ips: PathIps, g: Global, tid: nat): Global
    requires tid in g.threads && g.threads[tid].Spinning? && Locks(ips, g.threads[tid].e)
  {
    var e := g.threads[tid].e;
    if g.locked then g
    else g.(locked := true, threads := g.threads[tid := Holding(e, Start(ips, e))], order := g.order + [e])
  }

  ghost predicate Runnable(ips: PathIps, g: Global) {
    forall tid :: tid in g.threads ==>
      match g.threads[tid]
      case Idle => true
      case Spinning(e) => Locks(ips, e)
      case Holding(e, pc) => PcOk(e, pc, g.tables)
  }

  ghost function Step(ips: PathIps, g: Global, a: Action): Global
    requires Runnable(ips, g)
  {
    if a.tid !in g.threads then g
    else match a
      case Begin(tid, e) =>
        if g.threads[tid].Idle? && Locks(ips, e) then g.(threads := g.threads[tid := Spinning(e)]) else g
      case Move(tid) =>
        match g.threads[tid]
        case Idle => g
        case Spinning(_) => SpinStep(ips, g, tid)
        case Holding(_, _) => HolderStep(ips, g, tid)
  }

  ghost predicate MutualExclusion(g: Global) {
    && (forall i, j :: i in g.threads && j in g.threads && g.threads[i].Holding? && g.threads[j].Holding? ==> i == j)
    && (g.locked <==> exists i :: i in g.threads && g.threads[i].Holding?)
  }

  /** Every finished event returned what it returns at its own place in the order. */
  ghost predicate ResultsInOrder(ips: PathIps, init: Tables, order: seq<Event>, results: seq<Summary>)
    requires |results| <= |order|
  {
    forall i :: 0 <= i < |results| ==> results[i] == Response(order[i], Run(ips, init, order[..i + 1]))
  }

  /** The holder is on its way to the state its event produces on the tables it found. */
  ghost predicate OnCourse(ips: PathIps, init: Tables, g: Global, tid: nat)
    requires Runnable(ips, g) && tid in g.threads && g.threads[tid].Holding?
  {
    var h := g.threads[tid];
    && |g.order| == |g.results| + 1 && g.order[|g.order| - 1] == h.e
    && Finish(ips, h.e, h.pc, g.tables) == (Run(ips, init, g.order), Response(h.e, Run(ips, init, g.order)))
  }

  ghost predicate Inv(ips: PathIps, init: Tables, g: Global) {
    && Runnable(ips, g)
    && MutualExclusion(g)
    && |g.results| <= |g.order|
    && ResultsInOrder(ips, init, g.order, g.results)
    && (!g.locked ==> |g.results| == |g.order| && g.tables == Run(ips, init, g.order))
    && (forall tid :: tid in g.threads && g.threads[tid].Holding? ==> OnCourse(ips, init, g, tid))
  }

  lemma {:induction false} SpinKeepsInv(ips: PathIps, init: Tables, g: Global, tid: nat)
    requires Inv(ips, init, g) && tid in g.threads && g.threads[tid].Spinning?
    ensures Inv(ips, init, SpinStep(ips, g, tid))
  {
    if !g.locked {
      var e := g.threads[tid].e;
      var g' := SpinStep(ips, g, tid);
      CriticalSection(ips, e, g.tables);
      assert g'.order[..|g'.order| - 1] == g.order;
      assert g'.threads[tid].Holding?;
      forall i | 0 <= i < |g.results|
        ensures g'.results[i] == Response(g'.order[i], Run(ips, init, g'.order[..i + 1]))
      {
        assert g'.order[..i + 1] == g.order[..i + 1];
      }
    }
  }

  lemma {:induction false} HolderKeepsInv(ips: PathIps, init: Tables, g: Global, tid: nat)
    requires Inv(ips, init, g) && tid in g.threads && g.threads[tid].Holding?
    ensures Inv(ips, init, HolderStep(ips, g, tid))
  {
    var h := g.threads[tid];
    var g' := HolderStep(ips, g, tid);
    assert OnCourse(ips, init, g, tid);
    if h.pc.Unlock? {
      assert g.order[..|g.order|] == g.order;
    } else {
      assert g'.threads[tid].Holding?;
    }
  }

  lemma {:induction false} StepKeepsInv(ips: PathIps, init: Tables, g: Global, a: Action)
    requires Inv(ips, init, g)
    ensures Inv(ips, init, Step(ips, g, a))
  {
    if a.tid in g.threads {
      match a
      case Begin(tid, e) =>
        if g.threads[tid].Idle? && Locks(ips, e) {
          var g' := Step(ips, g, a);
          assert forall i :: i in g.threads && i != tid ==> g'.threads[i] == g.threads[i];
        }
      case Move(tid) =>
        match g.threads[tid]
        case Idle =>
        case Spinning(_) => SpinKeepsInv(ips, init, g, tid);
        case Holding(_, _) => HolderKeepsInv(ips, init, g, tid);
    }
  }

  /** Any schedule of any length over any set of threads. */
  ghost predicate Reaches(ips: PathIps, init: Tables, g: Global, schedule: seq<Action>, g': Global)
    requires Inv(ips, init, g)
    decreases |schedule|
  {
    if |schedule| == 0 then g' == g
    else
      StepKeepsInv(ips, init, g, schedule[0]);
      Reaches(ips, init, Step(ips, g, schedule[0]), schedule[1..], g')
  }

  ghost predicate Initial(init: Tables, g: Global) {
    && g.tables == init && !g.locked && g.order == [] && g.results == []
    && forall i :: i in g.threads ==> g.threads[i].Idle?
  }

  lemma {:induction false} ReachesKeepsInv(ips: PathIps, init: Tables, g: Global, schedule: seq<Action>, g': Global)
    requires Inv(ips, init, g) && Reaches(ips, init, g, schedule, g')
    ensures Inv(ips, init, g')
    decreases |schedule|
  {
    if |schedule| > 0 {
      StepKeepsInv(ips, init, g, schedule[0]);
      ReachesKeepsInv(ips, init, Step(ips, g, schedule[0]), schedule[1..], g');
    }
  }

  lemma {:induction false} InitialInv(ips: PathIps, init: Tables, g: Global)
    requires Initial(init, g)
    ensures Inv(ips, init, g)
  {
  }

  ghost predicate ReachesFrom(ips: PathIps, init: Tables, g: Global, schedule: seq<Action>, g': Global)
    requires Initial(init, g)
  {
    InitialInv(ips, init, g);
    Reaches(ips, init, g, schedule, g')
  }

  /**
   The protocol theorem. In every reachable state at most one thread is inside, a free lock
   means the tables are those of the sequential run in lock order with all table invariants
   intact, and each poll result is the one of that sequential run.
   */
  lemma {:induction false} Linearizable(ips: PathIps, init: Tables, g: Global, schedule: seq<Action>, g': Global)
    requires ValidTables(init) && Initial(init, g)
    requires ReachesFrom(ips, init, g, schedule, g')
    ensures MutualExclusion(g')
    ensures !g'.locked ==> g'.tables == Run(ips, init, g'.order) && ValidTables(g'.tables)
    ensures |g'.results| <= |g'.order| && ResultsInOrder(ips, init, g'.order, g'.results)
  {
    InitialInv(ips, init, g);
    ReachesKeepsInv(ips, init, g, schedule, g');
    RunKeepsTables(ips, init, g'.order);
  }

  /** The lock is never held for ever: from any reachable state the holder's own next steps free it. */
  lemma {:induction false} HolderReleases(ips: PathIps, init: Tables, g: Global, tid: nat)
    returns (schedule: seq<Action>, g': Global)
    requires Inv(ips, init, g) && tid in g.threads && g.threads[tid].Holding?
    ensures forall a :: a in schedule ==> a == Move(tid)
    ensures Reaches(ips, init, g, schedule, g') && !g'.locked
    decreases Stage(g.threads[tid].pc), Left(g.threads[tid].e, g.threads[tid].pc, g.tables)
  {
    HolderKeepsInv(ips, init, g, tid);
    var next := HolderStep(ips, g, tid);
    assert next == Step(ips, g, Move(tid));
    if g.threads[tid].pc.Unlock? {
      schedule, g' := [], next;
    } else {
      schedule, g' := HolderReleases(ips, init, next, tid);
    }
    ghost var rest := schedule;
    schedule := [Move(tid)] + schedule;
    assert schedule[1..] == rest;
  }
}
