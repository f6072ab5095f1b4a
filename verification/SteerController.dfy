/**
 The controller as the program holds it: three fixed arrays with a count each, searched
 from the front and appended at the end. Every method is one critical section and is
 proved to do to the tables exactly what the event function of SteerTables does.
 */
module SteerController {
  import opened Words
  import opened SteerTables

  class Steer {
    const ips: PathIps
    const groupingEnabled: bool
    const rateFlow: array<RateFlow>
    const cmRequest: array<CmRequest>
    const qpnPair: array<QpnPair>
    var rateFlowCount: nat
    var cmRequestCount: nat
    var qpnPairCount: nat

    ghost predicate InRange()
      reads this
    {
      && rateFlow.Length == MAX_RATE_FLOWS && cmRequest.Length == qpnPair.Length == MAX_CM_CONNECTIONS
      && rateFlowCount <= MAX_RATE_FLOWS && cmRequestCount <= MAX_CM_CONNECTIONS && qpnPairCount <= MAX_CM_CONNECTIONS
    }

    ghost function State(): Tables
      requires InRange()
      reads this, rateFlow, cmRequest, qpnPair
    {
      Tables(rateFlow[..rateFlowCount], cmRequest[..cmRequestCount], qpnPair[..qpnPairCount])
    }

    /** Keys are unique and every slot past a count is still all-zero. */
    ghost predicate Valid()
      reads this, rateFlow, cmRequest, qpnPair
    {
      && InRange()
      && ValidTables(State())
      && (forall i :: rateFlowCount <= i < MAX_RATE_FLOWS ==> rateFlow[i] == ZERO_FLOW)
      && (forall i :: cmRequestCount <= i < MAX_CM_CONNECTIONS ==> cmRequest[i] == ZERO_REQUEST)
      && (forall i :: qpnPairCount <= i < MAX_CM_CONNECTIONS ==> qpnPair[i] == ZERO_PAIR)
    }

    constructor (ips: PathIps, groupingEnabled: bool)
      ensures Valid() && fresh(rateFlow) && fresh(cmRequest) && fresh(qpnPair)
      ensures this.ips == ips && this.groupingEnabled == groupingEnabled && State() == EMPTY
    {
      this.ips, this.groupingEnabled := ips, groupingEnabled;
      rateFlow := new RateFlow[MAX_RATE_FLOWS](_ => ZERO_FLOW);
      cmRequest := new CmRequest[MAX_CM_CONNECTIONS](_ => ZERO_REQUEST);
      qpnPair := new QpnPair[MAX_CM_CONNECTIONS](_ => ZERO_PAIR);
      rateFlowCount, cmRequestCount, qpnPairCount := 0, 0, 0;
    }

    method FindFlow(qpn: u32) returns (i: nat)
      requires InRange()
      ensures i == FlowIndex(State().flows, qpn)
    {
      i := 0;
      while i < rateFlowCount && rateFlow[i].qpn != qpn
        invariant i <= rateFlowCount
        invariant forall j :: 0 <= j < i ==> rateFlow[j].qpn != qpn
      {
        i := i + 1;
      }
    }

    method FindRequest(commId: u32) returns (i: nat)
      requires InRange()
      ensures i == RequestIndex(State().requests, commId)
    {
      i := 0;
      while i < cmRequestCount && cmRequest[i].commId != commId
        invariant i <= cmRequestCount
        invariant forall j :: 0 <= j < i ==> cmRequest[j].commId != commId
      {
        i := i + 1;
      }
    }

    method FindPair(qpn: u32) returns (i: nat)
      requires InRange()
      ensures i == PairIndex(State().pairs, qpn)
    {
      i := 0;
      while i < qpnPairCount && qpnPair[i].initiatorQpn != qpn
        invariant i <= qpnPairCount
        invariant forall j :: 0 <= j < i ==> qpnPair[j].initiatorQpn != qpn
      {
        i := i + 1;
      }
    }

    /** Pairs first, then the requests whose path is known. */
    method LookupRoute(qpn: u32) returns (hashQpn: u32, path: PathId, pathKnown: bool)
      requires InRange()
      ensures Lookup(State(), qpn) == if pathKnown then Route(path, hashQpn) else Unknown
    {
      hashQpn, path, pathKnown := 0, 0, false;
      var p := FindPair(qpn);
      if p < qpnPairCount {
        hashQpn, path, pathKnown := qpnPair[p].responderQpn, qpnPair[p].path, true;
      }
      if !pathKnown {
        var i := 0;
        while i < cmRequestCount && !(cmRequest[i].initiatorQpn == qpn && cmRequest[i].pathKnown)
          invariant i <= cmRequestCount
          invariant forall j :: 0 <= j < i ==> !(cmRequest[j].initiatorQpn == qpn && cmRequest[j].pathKnown)
        {
          i := i + 1;
        }
        assert i == KnownRequestIndex(State().requests, qpn);
        if i < cmRequestCount {
          path, pathKnown := cmRequest[i].path, true;
        }
      }
    }

    method ResolvePath(ip: u32) returns (path: PathId, pathKnown: bool)
      ensures Resolve(ips, ip) == if pathKnown then Some(path) else None
      ensures !pathKnown ==> path == 0
    {
      path, pathKnown := 0, false;
      var i: nat := 0;
      while i < 2 && !pathKnown
        invariant i <= 2
        invariant pathKnown ==> Resolve(ips, ip) == Some(path)
        invariant !pathKnown ==> path == 0 && (i > 0 ==> ips.path0 != ip) && (i > 1 ==> ips.path1 != ip)
        decreases 2 - i, !pathKnown
      {
        if (if i == 0 then ips.path0 else ips.path1) == ip {
          path, pathKnown := i, true;
        } else {
          i := i + 1;
        }
      }
    }

    /** Finds the flow or takes the next zero slot for it; `i` is out of range when the table is full. */
    method FindOrAppendFlow(qpn: u32) returns (i: nat)
      requires InRange()
      requires forall j :: rateFlowCount <= j < MAX_RATE_FLOWS ==> rateFlow[j] == ZERO_FLOW
      modifies this`rateFlowCount, rateFlow
      ensures InRange() && i == FlowIndex(old(State().flows), qpn)
      ensures var fs := old(State().flows);
        State().flows == if i == |fs| < MAX_RATE_FLOWS then fs + [ZERO_FLOW.(qpn := qpn)] else fs
      ensures forall j :: rateFlowCount <= j < MAX_RATE_FLOWS ==> rateFlow[j] == ZERO_FLOW
    {
      i := FindFlow(qpn);
      if i == rateFlowCount && rateFlowCount < MAX_RATE_FLOWS {
        rateFlowCount := rateFlowCount + 1;
        rateFlow[i] := ZERO_FLOW;
        rateFlow[i] := rateFlow[i].(qpn := qpn);
      }
    }

    /** The field updates of one report, in the order the program makes them. */
    method RecordReport(i: nat, qpn: u32, rate: u32)
      requires InRange() && i < rateFlowCount
      modifies rateFlow
      ensures rateFlow[i] == Classify(Report(old(rateFlow[i]), rate), Lookup(State(), qpn))
      ensures forall j :: 0 <= j < MAX_RATE_FLOWS && j != i ==> rateFlow[j] == old(rateFlow[j])
    {
      rateFlow[i] := rateFlow[i].(latestRate := rate);
      rateFlow[i] := rateFlow[i].(intervalRateSum := (rateFlow[i].intervalRateSum + rate) % TWO_64);
      rateFlow[i] := rateFlow[i].(intervalRateReports := (rateFlow[i].intervalRateReports + 1) % TWO_64);
      var hashQpn, path, pathKnown := LookupRoute(qpn);
      if !rateFlow[i].classified && pathKnown {
        rateFlow[i] := rateFlow[i].(receiverQpn := hashQpn, path := path, classified := true);
      }
    }

    method UpdatePccRate(rawQpn: u32, rate: u32)
      requires Valid()
      modifies this`rateFlowCount, rateFlow
      ensures Valid()
      ensures State() == if groupingEnabled then Apply(ips, old(State()), Rate(rawQpn, rate)) else old(State())
    {
      var qpn := rawQpn % TWO_24;
      if !groupingEnabled || qpn <= 1 {
        return;
      }
      ghost var t := State();
      ApplyKeepsTables(ips, t, Rate(rawQpn, rate));
      var i := FindOrAppendFlow(qpn);
      if i < rateFlowCount {
        ghost var fs := State().flows;
        RecordReport(i, qpn, rate);
        assert Lookup(State(), qpn) == Lookup(t, qpn);
        assert State().flows == fs[i := rateFlow[i]];
      }
      assert State() == UpdateRate(t, qpn, rate);
    }

    method RememberCmRequest(commId: u32, initiatorQpn: u32, receiverIp: u32)
      requires Valid()
      modifies this`cmRequestCount, cmRequest, rateFlow
      ensures Valid()
      ensures State() == Apply(ips, old(State()), Req(commId, initiatorQpn, receiverIp))
    {
      ghost var t := State();
      ApplyKeepsTables(ips, t, Req(commId, initiatorQpn, receiverIp));
      var path, pathKnown := ResolvePath(receiverIp);
      var i := FindRequest(commId);
      if i < cmRequestCount {
        cmRequest[i] := cmRequest[i].(initiatorQpn := initiatorQpn, receiverIp := receiverIp,
                                      path := path, pathKnown := pathKnown);
        assert State().requests == t.requests[i := cmRequest[i]] && State().flows == t.flows;
        return;
      }
      if cmRequestCount < MAX_CM_CONNECTIONS {
        cmRequestCount := cmRequestCount + 1;
        cmRequest[i] := CmRequest(commId, initiatorQpn, receiverIp, path, pathKnown);
        assert State().requests == t.requests + [cmRequest[i]];
      }
      if pathKnown {
        var f := FindFlow(initiatorQpn);
        if f < rateFlowCount {
          rateFlow[f] := rateFlow[f].(path := path, classified := true);
        }
        assert State().flows == AssignPath(t.flows, initiatorQpn, path);
      }
    }

    /** Finds or appends the pair of `sender` and overwrites it; a full table leaves it out. */
    method StorePair(sender: u32, responder: u32, path: PathId)
      requires InRange() && sender != 0
      requires forall i :: qpnPairCount <= i < MAX_CM_CONNECTIONS ==> qpnPair[i] == ZERO_PAIR
      modifies this`qpnPairCount, qpnPair
      ensures InRange() && State().pairs == SetPair(old(State().pairs), QpnPair(sender, responder, path))
      ensures forall i :: qpnPairCount <= i < MAX_CM_CONNECTIONS ==> qpnPair[i] == ZERO_PAIR
    {
      ghost var ps := State().pairs;
      var i := FindPair(sender);
      var found := i < qpnPairCount;
      if !found && qpnPairCount < MAX_CM_CONNECTIONS {
        qpnPairCount := qpnPairCount + 1;
        found := true;
      }
      if found &&
         (qpnPair[i].initiatorQpn != sender || qpnPair[i].responderQpn != responder || qpnPair[i].path != path)
      {
        qpnPair[i] := QpnPair(sender, responder, path);
      }
      assert State().pairs == SetPair(ps, QpnPair(sender, responder, path));
    }

    method StoreRoute(qpn: u32, path: PathId, receiver: u32)
      requires InRange()
      modifies rateFlow
      ensures State().flows == AssignRoute(old(State().flows), qpn, path, receiver)
      ensures forall i :: rateFlowCount <= i < MAX_RATE_FLOWS ==> rateFlow[i] == old(rateFlow[i])
    {
      ghost var fs := State().flows;
      var f := FindFlow(qpn);
      if f < rateFlowCount {
        rateFlow[f] := rateFlow[f].(receiverQpn := receiver, path := path, classified := true);
      }
      assert State().flows == AssignRoute(fs, qpn, path, receiver);
    }

    method CompleteCmMapping(remoteCommId: u32, responderQpn: u32)
      requires Valid()
      modifies this`qpnPairCount, qpnPair, rateFlow
      ensures Valid()
      ensures State() == Apply(ips, old(State()), Rep(remoteCommId, responderQpn))
    {
      ghost var t := State();
      ApplyKeepsTables(ips, t, Rep(remoteCommId, responderQpn));
      var initiatorQpn: u32, path: PathId, pathKnown := 0, 0, false;
      var i := FindRequest(remoteCommId);
      if i < cmRequestCount {
        initiatorQpn, path, pathKnown := cmRequest[i].initiatorQpn, cmRequest[i].path, cmRequest[i].pathKnown;
      }
      if initiatorQpn != 0 && pathKnown {
        StorePair(initiatorQpn, responderQpn, path);
        StoreRoute(initiatorQpn, path, responderQpn);
        assert State().requests == t.requests;
      }
    }

    method LearnIngressFeedbackQpn(rawSender: u32, sourceIp: u32)
      requires Valid()
      modifies this`qpnPairCount, qpnPair, rateFlow
      ensures Valid()
      ensures State() == Apply(ips, old(State()), Feedback(rawSender, sourceIp))
    {
      ghost var t := State();
      ApplyKeepsTables(ips, t, Feedback(rawSender, sourceIp));
      var path, pathKnown := ResolvePath(sourceIp);
      var sender := rawSender % TWO_24;
      if !pathKnown || sender <= 1 {
        return;
      }
      var i := FindPair(sender);
      if i == qpnPairCount || qpnPair[i].path != path {
        StorePair(sender, sender, path);
      }
      StoreRoute(sender, path, sender);
      assert State().requests == t.requests;
    }

    /** Takes one flow's interval average, clears the interval and moves the smoothed rate. */
    method DrainSlot(i: nat)
      requires InRange() && i < rateFlowCount
      modifies rateFlow
      ensures rateFlow[i] == DrainFlow(old(rateFlow[i]))
      ensures forall j :: 0 <= j < MAX_RATE_FLOWS && j != i ==> rateFlow[j] == old(rateFlow[j])
    {
      var intervalRate := rateFlow[i].latestRate;
      if rateFlow[i].intervalRateReports != 0 {
        intervalRate := (rateFlow[i].intervalRateSum / rateFlow[i].intervalRateReports) % TWO_32;
      }
      rateFlow[i] := rateFlow[i].(intervalRateSum := 0);
      rateFlow[i] := rateFlow[i].(intervalRateReports := 0);
      if !rateFlow[i].smoothedRateValid {
        rateFlow[i] := rateFlow[i].(smoothedRate := intervalRate, smoothedRateValid := true);
      } else {
        var retained := rateFlow[i].smoothedRate * 7;
        var added := intervalRate * 1;
        rateFlow[i] := rateFlow[i].(smoothedRate := ((retained + added + 4) / 8) % TWO_32);
      }
    }

    method DrainAll() returns (s: Summary)
      requires InRange()
      modifies rateFlow
      ensures InRange() && State() == Drain(old(State())) && s == Summarize(State().flows)
      ensures forall j :: rateFlowCount <= j < MAX_RATE_FLOWS ==> rateFlow[j] == old(rateFlow[j])
    {
      ghost var fs, t := State().flows, State();
      s := NO_SUMMARY;
      var i := 0;
      while i < rateFlowCount
        invariant i <= rateFlowCount
        invariant rateFlow[..i] == DrainFlows(fs)[..i]
        invariant forall j :: i <= j < MAX_RATE_FLOWS ==> rateFlow[j] == old(rateFlow[j])
        invariant s == Summarize(rateFlow[..i])
      {
        ghost var before := rateFlow[..i];
        DrainSlot(i);
        s := TallyFlow(s, rateFlow[i]);
        assert rateFlow[..i + 1] == before + [rateFlow[i]];
        i := i + 1;
      }
      assert State().flows == DrainFlows(fs) && State().requests == t.requests && State().pairs == t.pairs;
    }

    /** The locked half of the poll: drains, smooths and tallies every flow. */
    method PollRates() returns (s: Summary)
      requires Valid()
      modifies rateFlow
      ensures Valid()
      ensures State() == Apply(ips, old(State()), Poll)
      ensures s == Summarize(State().flows)
    {
      ghost var t := State();
      DrainKeepsTables(t);
      s := DrainAll();
    }
  }
}
