/**
 One event and the classification of flows. A flow is settled when it carries exactly what a
 fresh report would look up for its QPN; the module gives the exact condition, on the tables
 before the event, under which an event keeps every flow settled.
 */
module SteerConfluence {
  import opened Words
  import opened SteerTables
  import opened SteerRuns

  function RouteOf(f: RateFlow): Route {
    if f.classified then Route(f.path, f.receiverQpn) else Unknown
  }

  ghost predicate Settled(t: Tables, f: RateFlow) {
    RouteOf(f) == Lookup(t, f.qpn) && (f.classified || f.receiverQpn == 0)
  }

  ghost predicate Coherent(t: Tables) {
    forall i :: 0 <= i < |t.flows| ==> Settled(t, t.flows[i])
  }

  /** Only the requests can answer for this flow. */
  predicate Unpaired(t: Tables, q: u32) { Tracked(t, q) && PairIndex(t.pairs, q) == |t.pairs| }

  /** Request `i` becoming one of `q` with this path does not change the first one's path. */
  predicate KeepsNew(t: Tables, i: nat, q: u32, path: PathId) {
    var k := KnownRequestIndex(t.requests, q);
    k < i || (k < |t.requests| && t.requests[k].path == path)
  }

  /** Request `i` no longer being one of `q` does not change the first one's path. */
  predicate KeepsOld(t: Tables, i: nat, q: u32)
    requires i < |t.requests|
  {
    KnownRequestIndex(t.requests, q) != i ||
    var j := i + 1 + KnownRequestIndex(t.requests[i + 1..], q);
    j < |t.requests| && t.requests[j].path == t.requests[i].path
  }

  /** Giving request `i` another sender or address leaves what tracked flows would look up. */
  predicate RewriteHarmless(t: Tables, i: nat, q: u32, path: Option<PathId>)
    requires i < |t.requests|
  {
    var p := t.requests[i].initiatorQpn;
    && (path.Some? && Unpaired(t, q) ==> KeepsNew(t, i, q, path.value))
    && (Unpaired(t, p) && !(p == q && path.Some?) ==> KeepsOld(t, i, p))
  }

  /**
   The caller's check on the tables before the event: a repeated comm_id may not move a tracked
   sender; a new one may not contradict a known path; and a mapping that no longer fits must not
   change anything.
   */
  predicate Harmless(ips: PathIps, t: Tables, e: Event) {
    match e
    case Rate(_, _) | Poll => true
    case Req(c, q, ip) =>
      var path := Resolve(ips, ip);
      var i := RequestIndex(t.requests, c);
      if i < |t.requests| then RewriteHarmless(t, i, q, path)
      else
        path.None? || !Tracked(t, q) ||
        if Lookup(t, q).Unknown? then |t.requests| < MAX_CM_CONNECTIONS else Lookup(t, q).path == path.value
    case Rep(c, q) =>
      var i := RequestIndex(t.requests, c);
      i == |t.requests| || t.requests[i].initiatorQpn == 0 || !t.requests[i].pathKnown ||
      Fits(t, t.requests[i].initiatorQpn, t.requests[i].path, q)
    case Feedback(raw, ip) =>
      var path := Resolve(ips, ip);
      var q := Qpn24(raw);
      var i := PairIndex(t.pairs, q);
      path.None? || q <= 1 ||
      if i < |t.pairs| && t.pairs[i].path == path.value then !Tracked(t, q) || t.pairs[i].responderQpn == q
      else Fits(t, q, path.value, q)
  }

  /** There is a pair or room for one, or nobody would notice. */
  predicate Fits(t: Tables, q: u32, path: PathId, receiver: u32) {
    PairIndex(t.pairs, q) < |t.pairs| || |t.pairs| < MAX_CM_CONNECTIONS || !Tracked(t, q) ||
    Lookup(t, q) == Route(path, receiver)
  }

  // ---------- how the tables' changes show in look-ups ----------

  lemma {:induction false} LookupAfterPair(t: Tables, p: QpnPair, q: u32)
    requires PairIndex(t.pairs, p.initiatorQpn) < |t.pairs| || |t.pairs| < MAX_CM_CONNECTIONS
    ensures Lookup(t.(pairs := SetPair(t.pairs, p)), q) ==
            if q == p.initiatorQpn then Route(p.path, p.responderQpn) else Lookup(t, q)
  {
    var i := PairIndex(t.pairs, p.initiatorQpn);
    var ps := SetPair(t.pairs, p);
    assert ps[i] == p && forall j :: 0 <= j < |t.pairs| && j != i ==> ps[j] == t.pairs[j];
    if q == p.initiatorQpn {
      assert PairIndex(ps, q) == i;
    } else {
      var k := PairIndex(t.pairs, q);
      assert k < |t.pairs| ==> PairIndex(ps, q) == k;
      assert k == |t.pairs| ==> PairIndex(ps, q) == |ps|;
    }
  }

  lemma {:induction false} LookupAfterRequest(t: Tables, r: CmRequest, q: u32)
    ensures Lookup(t.(requests := t.requests + [r]), q) ==
            if Lookup(t, q).Unknown? && r.initiatorQpn == q && r.pathKnown then Route(r.path, 0) else Lookup(t, q)
  {
    var k := KnownRequestIndex(t.requests, q);
    var rs := t.requests + [r];
    assert rs[|t.requests|] == r && forall j :: 0 <= j < |t.requests| ==> rs[j] == t.requests[j];
    assert k < |t.requests| ==> KnownRequestIndex(rs, q) == k;
    assert k == |t.requests| ==>
      KnownRequestIndex(rs, q) == if r.initiatorQpn == q && r.pathKnown then k else k + 1;
  }

  lemma {:induction false} LookupAfterRewrite(t: Tables, i: nat, r: CmRequest, q: u32)
    requires i < |t.requests| && q != t.requests[i].initiatorQpn && q != r.initiatorQpn
    ensures Lookup(t.(requests := t.requests[i := r]), q) == Lookup(t, q)
  {
    var k := KnownRequestIndex(t.requests, q);
    var rs := t.requests[i := r];
    assert forall j :: 0 <= j < |rs| && j != i ==> rs[j] == t.requests[j];
    assert KnownRequestIndex(rs, q) == k;
  }

  /** The first known request of `q` after request `i` is rewritten. */
  lemma {:induction false} KnownAfter(rs: seq<CmRequest>, i: nat, r: CmRequest, q: u32)
    requires i < |rs|
    ensures var k := KnownRequestIndex(rs, q);
      KnownRequestIndex(rs[i := r], q) ==
      if r.initiatorQpn == q && r.pathKnown then (if k < i then k else i)
      else if k != i then k else i + 1 + KnownRequestIndex(rs[i + 1..], q)
  {
    var k, rs' := KnownRequestIndex(rs, q), rs[i := r];
    var n := KnownRequestIndex(rs[i + 1..], q);
    assert forall j :: 0 <= j < |rs| && j != i ==> rs'[j] == rs[j];
    forall j | i < j < i + 1 + n ensures !(rs[j].initiatorQpn == q && rs[j].pathKnown) {
      assert rs[j] == rs[i + 1..][j - i - 1];
    }
    if i + 1 + n < |rs| { assert rs[i + 1 + n] == rs[i + 1..][n]; }
    var after :=
      if r.initiatorQpn == q && r.pathKnown then (if k < i then k else i) else if k != i then k else i + 1 + n;
    assert forall j :: 0 <= j < after ==> !(rs'[j].initiatorQpn == q && rs'[j].pathKnown);
    assert after < |rs| ==> rs'[after].initiatorQpn == q && rs'[after].pathKnown;
  }

  predicate SameRoute(t: Tables, t': Tables, q: u32) { Tracked(t, q) ==> Lookup(t', q) == Lookup(t, q) }

  lemma {:induction false} RewriteNew(t: Tables, i: nat, r: CmRequest)
    requires i < |t.requests| && r.pathKnown
    ensures SameRoute(t, t.(requests := t.requests[i := r]), r.initiatorQpn) <==>
            (Unpaired(t, r.initiatorQpn) ==> KeepsNew(t, i, r.initiatorQpn, r.path))
  {
    KnownAfter(t.requests, i, r, r.initiatorQpn);
  }

  lemma {:induction false} RewriteOld(t: Tables, i: nat, r: CmRequest, q: u32)
    requires i < |t.requests| && !(r.initiatorQpn == q && r.pathKnown)
    ensures SameRoute(t, t.(requests := t.requests[i := r]), q) <==> (Unpaired(t, q) ==> KeepsOld(t, i, q))
  {
    KnownAfter(t.requests, i, r, q);
  }

  lemma {:induction false} RewriteIff(t: Tables, i: nat, c: u32, q: u32, ip: u32, path: Option<PathId>)
    requires i < |t.requests|
    ensures var t' := t.(requests := t.requests[i := MakeRequest(c, q, ip, path)]);
      SameRoute(t, t', t.requests[i].initiatorQpn) && SameRoute(t, t', q) <==> RewriteHarmless(t, i, q, path)
  {
    var p, r := t.requests[i].initiatorQpn, MakeRequest(c, q, ip, path);
    if path.Some? { RewriteNew(t, i, r); } else { RewriteOld(t, i, r, q); }
    if !(p == q && path.Some?) { RewriteOld(t, i, r, p); }
  }

  lemma {:induction false} UniqueSlot(t: Tables, i: nat, q: u32)
    requires ValidTables(t) && i < |t.flows| && t.flows[i].qpn == q
    ensures FlowIndex(t.flows, q) == i && Tracked(t, q) && FlowOf(t, q) == t.flows[i]
  {
  }

  // ---------- one event ----------

  lemma {:induction false} RateCoherent(t: Tables, q: u32, rate: u32)
    requires Coherent(t)
    ensures Coherent(UpdateRate(t, q, rate))
  {
    var t' := UpdateRate(t, q, rate);
    forall i | 0 <= i < |t'.flows| ensures Settled(t', t'.flows[i]) {
      assert Lookup(t', t'.flows[i].qpn) == Lookup(t, t'.flows[i].qpn);
      if i < |t.flows| { assert Settled(t, t.flows[i]); }
    }
  }

  lemma {:induction false} PollCoherent(t: Tables)
    requires Coherent(t)
    ensures Coherent(Drain(t))
  {
    forall i | 0 <= i < |t.flows| ensures Settled(Drain(t), Drain(t).flows[i]) {
      assert Lookup(Drain(t), t.flows[i].qpn) == Lookup(t, t.flows[i].qpn);
      assert Settled(t, t.flows[i]);
    }
  }

  /** A store of a route settles its own flow and touches no other one. */
  lemma {:induction false} RouteCoherent(t: Tables, t': Tables, q: u32, path: PathId, receiver: u32)
    requires ValidTables(t) && Coherent(t)
    requires t'.flows == AssignRoute(t.flows, q, path, receiver)
    requires forall k: u32 :: k != q ==> Lookup(t', k) == Lookup(t, k)
    ensures Coherent(t') <==> (Tracked(t, q) ==> Lookup(t', q) == Route(path, receiver))
  {
    forall i | 0 <= i < |t.flows|
      ensures Settled(t', t'.flows[i]) <==> (t.flows[i].qpn == q ==> Lookup(t', q) == Route(path, receiver))
    {
      assert Settled(t, t.flows[i]);
      if t.flows[i].qpn == q { UniqueSlot(t, i, q); }
    }
    if Tracked(t, q) { assert t'.flows[FlowIndex(t.flows, q)].qpn == q; }
  }

  lemma {:induction false} PairCoherent(t: Tables, q: u32, path: PathId, receiver: u32)
    requires ValidTables(t) && Coherent(t)
    ensures var t' := t.(pairs := SetPair(t.pairs, QpnPair(q, receiver, path)),
                         flows := AssignRoute(t.flows, q, path, receiver));
      Coherent(t') <==> Fits(t, q, path, receiver)
  {
    var p := QpnPair(q, receiver, path);
    var t' := t.(pairs := SetPair(t.pairs, p), flows := AssignRoute(t.flows, q, path, receiver));
    forall k: u32 ensures Lookup(t', k) == Lookup(t.(pairs := t'.pairs), k) {}
    if PairIndex(t.pairs, q) < |t.pairs| || |t.pairs| < MAX_CM_CONNECTIONS {
      forall k: u32 ensures Lookup(t', k) == if k == q then Route(path, receiver) else Lookup(t, k) {
        LookupAfterPair(t, p, k);
      }
    }
    RouteCoherent(t, t', q, path, receiver);
  }

  lemma {:induction false} FeedbackCoherent(t: Tables, q: u32, path: PathId)
    requires ValidTables(t) && Coherent(t) && q > 1
    ensures var i := PairIndex(t.pairs, q);
      Coherent(LearnFeedback(t, q, path)) <==>
      if i < |t.pairs| && t.pairs[i].path == path then !Tracked(t, q) || t.pairs[i].responderQpn == q
      else Fits(t, q, path, q)
  {
    var i := PairIndex(t.pairs, q);
    if i < |t.pairs| && t.pairs[i].path == path {
      forall k: u32 ensures Lookup(LearnFeedback(t, q, path), k) == Lookup(t, k) {}
      RouteCoherent(t, LearnFeedback(t, q, path), q, path, q);
    } else {
      PairCoherent(t, q, path, q);
    }
  }

  /** A REQ that only rewrites its own record leaves every flow as it was. */
  lemma {:induction false} RewriteCoherent(t: Tables, i: nat, r: CmRequest)
    requires ValidTables(t) && Coherent(t) && i < |t.requests|
    ensures var t' := t.(requests := t.requests[i := r]);
      Coherent(t') <==> SameRoute(t, t', t.requests[i].initiatorQpn) && SameRoute(t, t', r.initiatorQpn)
  {
    var t' := t.(requests := t.requests[i := r]);
    forall j | 0 <= j < |t.flows|
      ensures Settled(t', t.flows[j]) <==> Lookup(t', t.flows[j].qpn) == Lookup(t, t.flows[j].qpn)
      ensures t.flows[j].qpn != t.requests[i].initiatorQpn && t.flows[j].qpn != r.initiatorQpn ==>
        Lookup(t', t.flows[j].qpn) == Lookup(t, t.flows[j].qpn)
      ensures Tracked(t, t.flows[j].qpn)
    {
      assert Settled(t, t.flows[j]);
      if t.flows[j].qpn != t.requests[i].initiatorQpn && t.flows[j].qpn != r.initiatorQpn {
        LookupAfterRewrite(t, i, r, t.flows[j].qpn);
      }
    }
  }

  lemma {:induction false} NewRequestCoherent(t: Tables, c: u32, q: u32, ip: u32, path: Option<PathId>)
    requires ValidTables(t) && Coherent(t) && RequestIndex(t.requests, c) == |t.requests|
    ensures Coherent(RememberRequest(t, c, q, ip, path)) <==>
      (path.None? || !Tracked(t, q) ||
       if Lookup(t, q).Unknown? then |t.requests| < MAX_CM_CONNECTIONS else Lookup(t, q).path == path.value)
  {
    var t' := RememberRequest(t, c, q, ip, path);
    var r := MakeRequest(c, q, ip, path);
    forall k: u32
      ensures Lookup(t', k) == if |t.requests| < MAX_CM_CONNECTIONS && Lookup(t, k).Unknown? && k == q && path.Some?
                               then Route(path.value, 0) else Lookup(t, k)
    {
      LookupAfterRequest(t, r, k);
      assert |t.requests| < MAX_CM_CONNECTIONS ==> Lookup(t', k) == Lookup(t.(requests := t.requests + [r]), k);
    }
    forall i | 0 <= i < |t.flows|
      ensures Settled(t', t'.flows[i]) <==>
        (path.None? || t.flows[i].qpn != q ||
         if Lookup(t, q).Unknown? then |t.requests| < MAX_CM_CONNECTIONS else Lookup(t, q).path == path.value)
    {
      assert Settled(t, t.flows[i]);
      if t.flows[i].qpn == q { UniqueSlot(t, i, q); }
    }
    if Tracked(t, q) { assert t'.flows[FlowIndex(t.flows, q)].qpn == q; }
  }

  /** The exact condition: an event keeps every flow settled if and only if it is harmless. */
  lemma {:induction false} CoherentIffHarmless(ips: PathIps, t: Tables, e: Event)
    requires ValidTables(t) && Coherent(t)
    ensures Coherent(Apply(ips, t, e)) <==> Harmless(ips, t, e)
  {
    match e
    case Rate(raw, rate) => RateCoherent(t, Qpn24(raw), rate);
    case Poll => PollCoherent(t);
    case Req(c, q, ip) =>
      var i := RequestIndex(t.requests, c);
      if i < |t.requests| {
        RewriteCoherent(t, i, MakeRequest(c, q, ip, Resolve(ips, ip)));
        RewriteIff(t, i, c, q, ip, Resolve(ips, ip));
      } else {
        NewRequestCoherent(t, c, q, ip, Resolve(ips, ip));
      }
    case Rep(c, q) =>
      var i := RequestIndex(t.requests, c);
      if i < |t.requests| && t.requests[i].initiatorQpn != 0 && t.requests[i].pathKnown {
        PairCoherent(t, t.requests[i].initiatorQpn, t.requests[i].path, q);
      }
    case Feedback(raw, ip) =>
      if Resolve(ips, ip).Some? && Qpn24(raw) > 1 {
        FeedbackCoherent(t, Qpn24(raw), Resolve(ips, ip).value);
      }
  }
}
