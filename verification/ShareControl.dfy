/**
 Applying a share bucket by bucket, where any hardware update can go wrong. Besides the
 software's bucket map the model keeps the hardware's own, so that it can say when the two
 agree and when `applied` is the number of buckets on path 0.
 */
module ShareControl {
  import opened Words
  import opened SteerTables
  import opened PathShare

  /** An update is confirmed, refused without effect, or takes effect but its confirmation is lost. */
  datatype Outcome = Confirmed | Refused | Unconfirmed

  datatype Control = Control(software: seq<PathId>, hardware: seq<PathId>, applied: nat)

  ghost predicate WellSized(c: Control) { |c.software| == |c.hardware| == BUCKETS }

  function Wanted(bucket: nat, share: nat): PathId { if bucket < share then 0 else 1 }

  /** The first bucket, from `from` on, whose update is needed and not confirmed; 64 if there is none. */
  function StopAt(sw: seq<PathId>, share: nat, outcomes: seq<Outcome>, from: nat): (k: nat)
    requires |sw| == |outcomes| == BUCKETS && from <= BUCKETS
    ensures from <= k <= BUCKETS
    ensures forall b :: from <= b < k ==> sw[b] == Wanted(b, share) || outcomes[b] == Confirmed
    ensures k < BUCKETS ==> sw[k] != Wanted(k, share) && outcomes[k] != Confirmed
    decreases BUCKETS - from
  {
    if from == BUCKETS || (sw[from] != Wanted(from, share) && outcomes[from] != Confirmed) then from
    else StopAt(sw, share, outcomes, from + 1)
  }

  /** The software map once all buckets below `n` are as wanted. */
  function Rewritten(sw: seq<PathId>, share: nat, n: nat): (r: seq<PathId>)
    requires |sw| == BUCKETS
    ensures |r| == BUCKETS && forall b :: 0 <= b < BUCKETS ==> r[b] == if b < n then Wanted(b, share) else sw[b]
  {
    seq(BUCKETS, b requires 0 <= b < BUCKETS => if b < n then Wanted(b, share) else sw[b])
  }

  /** The hardware map once the differing buckets below `n` have been updated. */
  function Pushed(sw: seq<PathId>, hw: seq<PathId>, share: nat, n: nat): (r: seq<PathId>)
    requires |sw| == |hw| == BUCKETS
    ensures |r| == BUCKETS
    ensures forall b :: 0 <= b < BUCKETS ==>
            r[b] == if b < n && sw[b] != Wanted(b, share) then Wanted(b, share) else hw[b]
  {
    seq(BUCKETS, b requires 0 <= b < BUCKETS => if b < n && sw[b] != Wanted(b, share) then Wanted(b, share) else hw[b])
  }

  /** A lost confirmation leaves the hardware one bucket ahead of the software. */
  function HardwareAt(c: Control, share: nat, outcomes: seq<Outcome>, k: nat): seq<PathId>
    requires WellSized(c) && |outcomes| == BUCKETS
  {
    var hw := Pushed(c.software, c.hardware, share, k);
    if k < BUCKETS && outcomes[k] == Unconfirmed then hw[k := Wanted(k, share)] else hw
  }

  lemma MapsStep(c: Control, share: nat, n: nat)
    requires WellSized(c) && n < BUCKETS
    ensures Rewritten(c.software, share, n + 1) == Rewritten(c.software, share, n)[n := Wanted(n, share)]
    ensures var hw := Pushed(c.software, c.hardware, share, n);
      Pushed(c.software, c.hardware, share, n + 1) ==
      if c.software[n] != Wanted(n, share) then hw[n := Wanted(n, share)] else hw
  {
  }

  /** One call: nothing on an unusable or unchanged target, otherwise all buckets below the stop. */
  function ApplyShare(c: Control, share: nat, outcomes: seq<Outcome>): (r: Control)
    requires WellSized(c) && |outcomes| == BUCKETS
    ensures WellSized(r)
  {
    if share > BUCKETS || share == c.applied then c
    else
      var k := StopAt(c.software, share, outcomes, 0);
      Control(Rewritten(c.software, share, k), HardwareAt(c, share, outcomes, k),
              if k == BUCKETS then share else c.applied)
  }

  class ShareController {
    const forcePath: int
    var classifyBucketPath: array<PathId>
    var hardwarePath: array<PathId>
    var appliedPath0Share: nat

    ghost predicate Valid()
      reads this
    {
      classifyBucketPath != hardwarePath && classifyBucketPath.Length == hardwarePath.Length == BUCKETS
    }

    ghost function State(): (c: Control)
      requires Valid()
      reads this, classifyBucketPath, hardwarePath
      ensures WellSized(c)
    {
      Control(classifyBucketPath[..], hardwarePath[..], appliedPath0Share)
    }

    /** Half of the buckets to each path, or all of them to the forced one. */
    constructor (forcePath: int)
      requires -1 <= forcePath < 2
      ensures Valid() && fresh(classifyBucketPath) && fresh(hardwarePath) && this.forcePath == forcePath
      ensures Exact(State()) && State().software == State().hardware
      ensures appliedPath0Share == if forcePath == 0 then BUCKETS else if forcePath == 1 then 0 else BUCKETS / 2
    {
      this.forcePath := forcePath;
      var share := if forcePath == 0 then BUCKETS else if forcePath == 1 then 0 else BUCKETS / 2;
      classifyBucketPath := new PathId[BUCKETS](b => Wanted(b, share));
      hardwarePath := new PathId[BUCKETS](b => Wanted(b, share));
      appliedPath0Share := share;
    }

    /** The foreign call, with its outcome as an input. */
    method UpdateEntry(bucket: nat, path: PathId, outcome: Outcome) returns (ok: bool)
      requires Valid() && bucket < BUCKETS
      modifies hardwarePath
      ensures ok == outcome.Confirmed?
      ensures hardwarePath[..] ==
              if outcome.Refused? then old(hardwarePath[..]) else old(hardwarePath[..])[bucket := path]
    {
      ok := outcome.Confirmed?;
      if !outcome.Refused? {
        hardwarePath[bucket] := path;
      }
    }

    /** One round of the loop: an update only where the bucket's path differs. */
    method WriteBucket(bucket: nat, wantedPath: PathId, outcome: Outcome) returns (ok: bool)
      requires Valid() && bucket < BUCKETS
      modifies classifyBucketPath, hardwarePath
      ensures ok == (old(classifyBucketPath[bucket]) == wantedPath || outcome.Confirmed?)
      ensures classifyBucketPath[..] ==
              if ok then old(classifyBucketPath[..])[bucket := wantedPath] else old(classifyBucketPath[..])
      ensures hardwarePath[..] == if old(classifyBucketPath[bucket]) == wantedPath || outcome.Refused?
                                  then old(hardwarePath[..]) else old(hardwarePath[..])[bucket := wantedPath]
    {
      ok := true;
      if classifyBucketPath[bucket] != wantedPath {
        ok := UpdateEntry(bucket, wantedPath, outcome);
        if ok {
          classifyBucketPath[bucket] := wantedPath;
        }
      }
    }

    /** The loop over the buckets, up to the first unconfirmed update. */
    method WriteBuckets(share: nat, outcomes: seq<Outcome>) returns (stop: nat)
      requires Valid() && |outcomes| == BUCKETS
      modifies classifyBucketPath, hardwarePath
      ensures var c := old(State());
        && stop == StopAt(c.software, share, outcomes, 0)
        && classifyBucketPath[..] == Rewritten(c.software, share, stop)
        && hardwarePath[..] == HardwareAt(c, share, outcomes, stop)
    {
      ghost var c := State();
      stop := 0;
      while stop < BUCKETS
        invariant stop <= StopAt(c.software, share, outcomes, 0)
        invariant classifyBucketPath[..] == Rewritten(c.software, share, stop)
        invariant hardwarePath[..] == Pushed(c.software, c.hardware, share, stop)
      {
        assert classifyBucketPath[stop] == classifyBucketPath[..][stop] == c.software[stop];
        MapsStep(c, share, stop);
        var ok := WriteBucket(stop, if stop < share then 0 else 1, outcomes[stop]);
        if !ok {
          return;
        }
        stop := stop + 1;
      }
    }

    method ApplyPathShare(share: nat, outcomes: seq<Outcome>)
      requires Valid() && |outcomes| == BUCKETS
      modifies this`appliedPath0Share, classifyBucketPath, hardwarePath
      ensures Valid()
      ensures State() == if forcePath >= 0 then old(State()) else ApplyShare(old(State()), share, outcomes)
    {
      if forcePath >= 0 || share > BUCKETS || share == appliedPath0Share {
        return;
      }
      ghost var c := State();
      var stop := WriteBuckets(share, outcomes);
      if stop == BUCKETS {
        appliedPath0Share := share;
      }
    }
  }

  // ---------- laws ----------

  /** `applied` describes the software map. */
  ghost predicate Exact(c: Control) {
    |c.software| == BUCKETS && forall b :: 0 <= b < BUCKETS ==> c.software[b] == Wanted(b, c.applied)
  }

  predicate Skipped(c: Control, share: nat) { share > BUCKETS || share == c.applied }

  /** A call that is not skipped and runs into no failure. */
  predicate Completes(c: Control, share: nat, outcomes: seq<Outcome>)
    requires |c.software| == |outcomes| == BUCKETS
  {
    !Skipped(c, share) && StopAt(c.software, share, outcomes, 0) == BUCKETS
  }

  /** The two maps stay equal unless the call ended on an update whose confirmation was lost. */
  lemma MapsAgree(c: Control, share: nat, outcomes: seq<Outcome>)
    requires WellSized(c) && |outcomes| == BUCKETS && c.software == c.hardware
    ensures var k := StopAt(c.software, share, outcomes, 0);
      var c' := ApplyShare(c, share, outcomes);
      c'.software == c'.hardware <==> Skipped(c, share) || k == BUCKETS || outcomes[k] == Refused
  {
    var k := StopAt(c.software, share, outcomes, 0);
    var c' := ApplyShare(c, share, outcomes);
    if !Skipped(c, share) && k < BUCKETS && outcomes[k] == Unconfirmed {
      assert c'.software[k] != c'.hardware[k];
    } else {
      assert forall b :: 0 <= b < BUCKETS ==> c'.software[b] == c'.hardware[b];
    }
  }

  /** A completed call leaves exactly the wanted map, whatever the buckets were before. */
  lemma CompletedExact(c: Control, share: nat, outcomes: seq<Outcome>)
    requires WellSized(c) && |outcomes| == BUCKETS && Completes(c, share, outcomes)
    ensures Exact(ApplyShare(c, share, outcomes)) && ApplyShare(c, share, outcomes).applied == share
  {
  }

  /** The buckets a call rewrites in software. */
  function Touched(c: Control, share: nat, outcomes: seq<Outcome>): set<nat>
    requires WellSized(c) && |outcomes| == BUCKETS
  {
    set b: nat | b < BUCKETS && ApplyShare(c, share, outcomes).software[b] != c.software[b]
  }

  function Interval(lo: nat, hi: nat): (s: set<nat>)
    requires lo <= hi
    ensures (forall b :: b in s <==> lo <= b < hi) && |s| == hi - lo
    decreases hi
  {
    if lo == hi then {} else Interval(lo, hi - 1) + {hi - 1}
  }

  /** From an exact map a completed call rewrites exactly the buckets between the two shares. */
  lemma TouchedBetween(c: Control, share: nat, outcomes: seq<Outcome>)
    requires WellSized(c) && |outcomes| == BUCKETS && Exact(c) && c.applied <= BUCKETS && Completes(c, share, outcomes)
    ensures var lo, hi := Min(c.applied, share), Max(c.applied, share);
      Touched(c, share, outcomes) == Interval(lo, hi) && |Touched(c, share, outcomes)| == hi - lo
  {
    var lo, hi := Min(c.applied, share), Max(c.applied, share);
    assert Touched(c, share, outcomes) == Interval(lo, hi);
  }

  /** Every bucket from `from` on is where `applied` says. */
  ghost predicate ExactFrom(c: Control, from: nat)
    requires WellSized(c)
  {
    forall b :: from <= b < BUCKETS ==> c.software[b] == Wanted(b, c.applied)
  }

  /**
   When `applied` describes the map after a call, exactly: it completed, or it was skipped and
   did so before, or it failed so early that it had only rewritten buckets both shares want on path 0.
   */
  lemma ExactAfter(c: Control, share: nat, outcomes: seq<Outcome>)
    requires WellSized(c) && |outcomes| == BUCKETS
    ensures var k := StopAt(c.software, share, outcomes, 0);
      Exact(ApplyShare(c, share, outcomes)) <==>
      if Skipped(c, share) then Exact(c)
      else k == BUCKETS || (k <= Min(share, c.applied) && ExactFrom(c, k))
  {
    var k := StopAt(c.software, share, outcomes, 0);
    var c' := ApplyShare(c, share, outcomes);
    if !Skipped(c, share) && k < BUCKETS {
      if k > Min(share, c.applied) {
        var b := Min(share, c.applied);
        assert c'.software[b] == Wanted(b, share) != Wanted(b, c.applied);
      }
      if Exact(c') {
        assert forall b :: k <= b < BUCKETS ==> c'.software[b] == c.software[b];
      }
    }
  }

  /**
   The promised retry. A further call without failures repairs a map that a failed call left
   behind if and only if its target differs from the share recorded as applied.
   */
  lemma RepairIffDifferent(c: Control, share: nat, outcomes: seq<Outcome>)
    requires WellSized(c) && !Exact(c) && share <= BUCKETS
    requires |outcomes| == BUCKETS && forall b :: 0 <= b < BUCKETS ==> outcomes[b] == Confirmed
    ensures Exact(ApplyShare(c, share, outcomes)) <==> share != c.applied
  {
    ExactAfter(c, share, outcomes);
  }

  function MapOf(share: nat): (m: seq<PathId>)
    ensures |m| == BUCKETS && forall b :: 0 <= b < BUCKETS ==> m[b] == Wanted(b, share)
  {
    seq(BUCKETS, b requires 0 <= b < BUCKETS => Wanted(b, share))
  }

  function Confirmations(): seq<Outcome> { seq(BUCKETS, _ => Confirmed) }

  /** 32 to 40 fails at bucket 35, then 32 is wanted again: the call is skipped and 35 buckets stay on path 0. */
  lemma EarlyOutKeepsDamage()
    ensures var c := Control(MapOf(32), MapOf(32), 32);
      var c1 := ApplyShare(c, 40, Confirmations()[35 := Refused]);
      var c2 := ApplyShare(c1, 32, Confirmations());
      Exact(c) && c2 == c1 && c2.applied == 32 && c2.software[34] == c2.hardware[34] == 0 && !Exact(c2)
  {
    var c := Control(MapOf(32), MapOf(32), 32);
    var o := Confirmations()[35 := Refused];
    var k := StopAt(c.software, 40, o, 0);
    assert o[35] == Refused && c.software[35] == 1;
    assert k == 35;
    assert ApplyShare(c, 40, o).software[34] == 0;
  }

  // ---------- runs of calls ----------

  datatype Call = Call(share: nat, outcomes: seq<Outcome>)

  ghost predicate UsableCalls(calls: seq<Call>) {
    forall i :: 0 <= i < |calls| ==> |calls[i].outcomes| == BUCKETS
  }

  function Calls(c: Control, calls: seq<Call>): (r: Control)
    requires WellSized(c) && UsableCalls(calls)
    ensures WellSized(r)
  {
    if |calls| == 0 then c
    else
      var last := calls[|calls| - 1];
      ApplyShare(Calls(c, calls[..|calls| - 1]), last.share, last.outcomes)
  }

  /** Did the last call that was not skipped stop early? */
  predicate Outstanding(c: Control, calls: seq<Call>)
    requires WellSized(c) && UsableCalls(calls)
  {
    |calls| > 0 &&
    var before := Calls(c, calls[..|calls| - 1]);
    var last := calls[|calls| - 1];
    if Skipped(before, last.share) then Outstanding(c, calls[..|calls| - 1])
    else !Completes(before, last.share, last.outcomes)
  }

  function OnPath0(m: seq<PathId>): nat {
    if |m| == 0 then 0 else OnPath0(m[..|m| - 1]) + if m[|m| - 1] == 0 then 1 else 0
  }

  lemma {:induction false} CountOfShare(m: seq<PathId>, share: nat)
    requires forall b :: 0 <= b < |m| ==> m[b] == Wanted(b, share)
    ensures OnPath0(m) == Min(share, |m|)
  {
    if |m| > 0 { CountOfShare(m[..|m| - 1], share); }
  }

  lemma {:induction false} SettledCalls(c: Control, calls: seq<Call>)
    requires WellSized(c) && UsableCalls(calls) && Exact(c) && c.applied <= BUCKETS
    ensures Calls(c, calls).applied <= BUCKETS
    ensures !Outstanding(c, calls) ==> Exact(Calls(c, calls))
  {
    if |calls| > 0 {
      SettledCalls(c, calls[..|calls| - 1]);
      ExactAfter(Calls(c, calls[..|calls| - 1]), calls[|calls| - 1].share, calls[|calls| - 1].outcomes);
    }
  }

  /** With no unfinished call outstanding, `applied` is the number of buckets on path 0. */
  lemma {:induction false} AppliedIsCount(c: Control, calls: seq<Call>)
    requires WellSized(c) && UsableCalls(calls) && Exact(c) && c.applied <= BUCKETS && !Outstanding(c, calls)
    ensures OnPath0(Calls(c, calls).software) == Calls(c, calls).applied
  {
    SettledCalls(c, calls);
    CountOfShare(Calls(c, calls).software, Calls(c, calls).applied);
  }

  // ---------- the two maps over a run of calls ----------

  /** Does a call from `c` get as far as updating bucket `b`? */
  predicate Issued(c: Control, call: Call, b: nat)
    requires WellSized(c) && |call.outcomes| == BUCKETS && b < BUCKETS
  {
    !Skipped(c, call.share) && b <= StopAt(c.software, call.share, call.outcomes, 0) &&
    c.software[b] != Wanted(b, call.share)
  }

  /** The last update of bucket `b` that was not refused had its confirmation lost. */
  predicate LostAt(c: Control, calls: seq<Call>, b: nat)
    requires WellSized(c) && UsableCalls(calls) && b < BUCKETS
  {
    |calls| > 0 &&
    var earlier, last := calls[..|calls| - 1], calls[|calls| - 1];
    if Issued(Calls(c, earlier), last, b) && last.outcomes[b] != Refused then last.outcomes[b] == Unconfirmed
    else LostAt(c, earlier, b)
  }

  /** What one call does to one bucket, in software and in hardware. */
  lemma BucketAfter(c: Control, call: Call, b: nat)
    requires WellSized(c) && |call.outcomes| == BUCKETS && b < BUCKETS
    ensures var c' := ApplyShare(c, call.share, call.outcomes); var w := Wanted(b, call.share);
      && c'.software[b] == (if Issued(c, call, b) && call.outcomes[b] == Confirmed then w else c.software[b])
      && c'.hardware[b] == (if Issued(c, call, b) && call.outcomes[b] != Refused then w else c.hardware[b])
  {
  }

  /**
   The exact condition, over any sequence of targets and any pattern of failures: the two maps
   agree on a bucket unless the last update of it that took effect went unconfirmed.
   */
  lemma {:induction false} AgreeUnlessLost(c: Control, calls: seq<Call>, b: nat)
    requires WellSized(c) && UsableCalls(calls) && b < BUCKETS && c.software[b] == c.hardware[b]
    ensures Calls(c, calls).software[b] == Calls(c, calls).hardware[b] <==> !LostAt(c, calls, b)
  {
    if |calls| > 0 {
      AgreeUnlessLost(c, calls[..|calls| - 1], b);
      BucketAfter(Calls(c, calls[..|calls| - 1]), calls[|calls| - 1], b);
    }
  }

  predicate NothingLost(calls: seq<Call>) { forall i :: 0 <= i < |calls| ==> Unconfirmed !in calls[i].outcomes }

  lemma {:induction false} NotLost(c: Control, calls: seq<Call>, b: nat)
    requires WellSized(c) && UsableCalls(calls) && b < BUCKETS && NothingLost(calls)
    ensures !LostAt(c, calls, b)
  {
    if |calls| > 0 {
      assert calls[|calls| - 1].outcomes[b] in calls[|calls| - 1].outcomes;
      NotLost(c, calls[..|calls| - 1], b);
    }
  }

  /** However many updates are refused: as long as no confirmation is lost the maps stay equal. */
  lemma {:induction false} MapsStayEqual(c: Control, calls: seq<Call>)
    requires WellSized(c) && UsableCalls(calls) && c.software == c.hardware && NothingLost(calls)
    ensures Calls(c, calls).software == Calls(c, calls).hardware
  {
    forall b | 0 <= b < BUCKETS ensures Calls(c, calls).software[b] == Calls(c, calls).hardware[b] {
      NotLost(c, calls, b);
      AgreeUnlessLost(c, calls, b);
    }
  }

  ghost predicate LastCompletes(c: Control, calls: seq<Call>)
    requires WellSized(c) && UsableCalls(calls)
  {
    |calls| > 0 &&
    Completes(Calls(c, calls[..|calls| - 1]), calls[|calls| - 1].share, calls[|calls| - 1].outcomes)
  }

  /** What a completed call guarantees about the hardware: the wanted path on every bucket that is not lost. */
  lemma {:induction false} CompletedHardware(c: Control, calls: seq<Call>, b: nat)
    requires WellSized(c) && UsableCalls(calls) && b < BUCKETS && c.software[b] == c.hardware[b]
    requires LastCompletes(c, calls)
    ensures Calls(c, calls).hardware[b] == Wanted(b, Calls(c, calls).applied) <==> !LostAt(c, calls, b)
  {
    CompletedExact(Calls(c, calls[..|calls| - 1]), calls[|calls| - 1].share, calls[|calls| - 1].outcomes);
    AgreeUnlessLost(c, calls, b);
  }

  /** So the hardware carries the recorded share of the buckets after a completed call when nothing is lost. */
  lemma {:induction false} CompletedShare(c: Control, calls: seq<Call>)
    requires WellSized(c) && UsableCalls(calls) && c.software == c.hardware && LastCompletes(c, calls)
    requires forall b :: 0 <= b < BUCKETS ==> !LostAt(c, calls, b)
    ensures OnPath0(Calls(c, calls).hardware) == Calls(c, calls).applied == calls[|calls| - 1].share
  {
    forall b | 0 <= b < BUCKETS ensures Calls(c, calls).hardware[b] == Wanted(b, Calls(c, calls).applied) {
      CompletedHardware(c, calls, b);
    }
    CountOfShare(Calls(c, calls).hardware, Calls(c, calls).applied);
  }

  /**
   A completed call does not bring a lost bucket back: after 32 to 40 with the confirmation of
   bucket 32 lost, a fully confirmed 32 to 20 completes and still leaves that bucket on path 0.
   */
  lemma LostSurvivesCompletion()
    ensures var c := Control(MapOf(32), MapOf(32), 32);
      var c1 := ApplyShare(c, 40, Confirmations()[32 := Unconfirmed]);
      var c2 := ApplyShare(c1, 20, Confirmations());
      && c1.software[32] == 1 && c1.hardware[32] == 0
      && Completes(c1, 20, Confirmations()) && c2.applied == 20 && Exact(c2) && c2.hardware[32] == 0
  {
    var c := Control(MapOf(32), MapOf(32), 32);
    var o := Confirmations()[32 := Unconfirmed];
    assert o[32] == Unconfirmed && c.software[32] == 1;
    assert StopAt(c.software, 40, o, 0) == 32;
    var c1 := ApplyShare(c, 40, o);
    assert c1.software[32] == 1 == Wanted(32, 20);
    CompletedExact(c1, 20, Confirmations());
  }

  /** The first three buckets belong to path 0 and the last three to path 1. */
  ghost predicate KeepsMinimum(m: seq<PathId>) {
    |m| == BUCKETS && (forall b :: 0 <= b < MIN_BUCKETS ==> m[b] == 0)
    && (forall b :: BUCKETS - MIN_BUCKETS <= b < BUCKETS ==> m[b] == 1)
  }

  lemma {:induction false} CallKeepsMinimum(c: Control, share: nat, outcomes: seq<Outcome>)
    requires WellSized(c) && |outcomes| == BUCKETS && MIN_BUCKETS <= share <= BUCKETS - MIN_BUCKETS
    ensures KeepsMinimum(c.software) ==> KeepsMinimum(ApplyShare(c, share, outcomes).software)
    ensures KeepsMinimum(c.software) && KeepsMinimum(c.hardware) ==>
            KeepsMinimum(ApplyShare(c, share, outcomes).hardware)
  {
  }

  /**
   Whatever fails and however often, as long as the targets come from the share computation
   each path keeps at least three buckets, in software and in hardware.
   */
  lemma {:induction false} MinimumKept(c: Control, calls: seq<Call>)
    requires WellSized(c) && UsableCalls(calls) && KeepsMinimum(c.software) && KeepsMinimum(c.hardware)
    requires forall i :: 0 <= i < |calls| ==> MIN_BUCKETS <= calls[i].share <= BUCKETS - MIN_BUCKETS
    ensures KeepsMinimum(Calls(c, calls).software) && KeepsMinimum(Calls(c, calls).hardware)
  {
    if |calls| > 0 {
      var last := calls[|calls| - 1];
      MinimumKept(c, calls[..|calls| - 1]);
      CallKeepsMinimum(Calls(c, calls[..|calls| - 1]), last.share, last.outcomes);
    }
  }
}
