/**
 The share updates as the pipes see them: the hardware map of the share control is the bucket
 map of the pipe graph, through every partial update and any sequence of them.
 */
module ShareInstall {
  import opened Pipes
  import opened SteerTables
  import opened SteerPipeline
  import opened SteerBuild
  import opened ShareControl
  import opened SteerEndToEnd

  /** One entry update that takes effect. */
  datatype Move = Move(bucket: nat, path: PathId)

  /** The updates of one call that take effect, from a bucket on and in order; the first unconfirmed one is the last. */
  function MovesFrom(sw: seq<PathId>, share: nat, outcomes: seq<Outcome>, from: nat): (ms: seq<Move>)
    requires |sw| == |outcomes| == BUCKETS && from <= BUCKETS
    ensures forall i :: 0 <= i < |ms| ==> from <= ms[i].bucket < BUCKETS
    decreases BUCKETS - from
  {
    if from == BUCKETS then []
    else
      var w := Wanted(from, share);
      if sw[from] == w then MovesFrom(sw, share, outcomes, from + 1)
      else match outcomes[from]
        case Confirmed => [Move(from, w)] + MovesFrom(sw, share, outcomes, from + 1)
        case Unconfirmed => [Move(from, w)]
        case Refused => []
  }

  function MovesOf(c: Control, call: Call): (ms: seq<Move>)
    requires WellSized(c) && |call.outcomes| == BUCKETS
    ensures InRange(ms)
  {
    if Skipped(c, call.share) then [] else MovesFrom(c.software, call.share, call.outcomes, 0)
  }

  predicate InRange(ms: seq<Move>) { forall i :: 0 <= i < |ms| ==> ms[i].bucket < BUCKETS }

  function Moved(m: seq<PathId>, ms: seq<Move>): (r: seq<PathId>)
    requires |m| == BUCKETS && InRange(ms)
    ensures |r| == BUCKETS
    decreases |ms|
  {
    if |ms| == 0 then m else Moved(m[ms[0].bucket := ms[0].path], ms[1..])
  }

  /** The hardware map that a call from bucket `from` on leaves, bucket by bucket. */
  lemma {:induction false} MovesFromMean(
      sw: seq<PathId>, hw: seq<PathId>, share: nat, outcomes: seq<Outcome>, from: nat, b: nat)
    requires |sw| == |hw| == |outcomes| == BUCKETS && from <= BUCKETS && b < BUCKETS
    ensures Moved(hw, MovesFrom(sw, share, outcomes, from))[b] ==
            if from <= b <= StopAt(sw, share, outcomes, from) && sw[b] != Wanted(b, share) && outcomes[b] != Refused
            then Wanted(b, share) else hw[b]
    decreases BUCKETS - from
  {
    if from < BUCKETS {
      var w := Wanted(from, share);
      var ms := MovesFrom(sw, share, outcomes, from);
      if sw[from] == w {
        MovesFromMean(sw, hw, share, outcomes, from + 1, b);
      } else if outcomes[from] == Confirmed {
        assert ms[1..] == MovesFrom(sw, share, outcomes, from + 1);
        MovesFromMean(sw, hw[from := w], share, outcomes, from + 1, b);
      } else if outcomes[from] == Unconfirmed {
        assert ms[1..] == [];
      }
    }
  }

  /** The updates of a call turn the hardware map into the one the share control says. */
  lemma MovesMean(c: Control, call: Call)
    requires WellSized(c) && |call.outcomes| == BUCKETS
    ensures Moved(c.hardware, MovesOf(c, call)) == ApplyShare(c, call.share, call.outcomes).hardware
  {
    if !Skipped(c, call.share) {
      forall b | 0 <= b < BUCKETS
        ensures Moved(c.hardware, MovesOf(c, call))[b] == ApplyShare(c, call.share, call.outcomes).hardware[b]
      {
        MovesFromMean(c.software, c.hardware, call.share, call.outcomes, 0, b);
        BucketAfter(c, call, b);
      }
    }
  }

  /** A running egress host whose classifier is not forced to one path. */
  ghost predicate Splits(h: Host) { Running(h) && DoEgress(h.o) && h.o.forcePath.None? }

  /** The host after a list of entry updates: the pipes changed one by one, and nothing else. */
  ghost function Install(h: Host, ms: seq<Move>): (h': Host)
    requires Splits(h) && InRange(ms)
    ensures Splits(h') && h' == Host(h'.graph, h.o, h.layout, Moved(h.buckets, ms), h.cnp)
    decreases |ms|
  {
    if |ms| == 0 then h
    else
      BucketMoved(h.graph, h.o, h.layout, h.buckets, h.cnp, ms[0].bucket, ms[0].path);
      var g := Retargeted(h.graph, h.layout, ms[0].bucket, ms[0].path);
      Install(h.(graph := g, buckets := h.buckets[ms[0].bucket := ms[0].path]), ms[1..])
  }

  /** The host after a sequence of share updates. */
  ghost function InstallCalls(h: Host, c: Control, calls: seq<Call>): (h': Host)
    requires Splits(h) && WellSized(c) && UsableCalls(calls)
    ensures Splits(h') && h'.o == h.o && h'.layout == h.layout && h'.cnp == h.cnp
  {
    if |calls| == 0 then h
    else
      var earlier := calls[..|calls| - 1];
      Install(InstallCalls(h, c, earlier), MovesOf(Calls(c, earlier), calls[|calls| - 1]))
  }

  lemma CallInstalled(h: Host, c: Control, call: Call)
    requires Splits(h) && WellSized(c) && |call.outcomes| == BUCKETS && h.buckets == c.hardware
    ensures Install(h, MovesOf(c, call)).buckets == ApplyShare(c, call.share, call.outcomes).hardware
  {
    MovesMean(c, call);
  }

  /**
   Any sequence of share updates, however many of their entry updates are refused or lose their
   confirmation, leaves the graph as built with exactly the hardware map of the share control.
   */
  lemma {:induction false} CallsInstalled(h: Host, c: Control, calls: seq<Call>)
    requires Splits(h) && WellSized(c) && UsableCalls(calls) && h.buckets == c.hardware
    ensures InstallCalls(h, c, calls).buckets == Calls(c, calls).hardware
  {
    if |calls| > 0 {
      var earlier := calls[..|calls| - 1];
      CallsInstalled(h, c, earlier);
      CallInstalled(InstallCalls(h, c, earlier), Calls(c, earlier), calls[|calls| - 1]);
    }
  }

  /** RoCE data then leaves on the path that the hardware map has for its bucket. */
  lemma TrafficFollows(h: Host, c: Control, calls: seq<Call>, p: Packet)
    requires Splits(h) && WellSized(c) && UsableCalls(calls) && h.buckets == c.hardware
    requires IsSf(h.o, p.port) && Data(p.frame)
    ensures var path := Calls(c, calls).hardware[p.hash % BUCKETS];
      Through(InstallCalls(h, c, calls), p) == [Delivered(WIRE, p.frame.(tos := PathBit(path) | ECT0))]
  {
    CallsInstalled(h, c, calls);
    Sends(InstallCalls(h, c, calls), p);
  }

  /**
   From the built map on, after a completed update and with no lost bucket, the recorded share is
   the number of hash values out of 64 that leave on path 0.
   */
  lemma CompletedTraffic(h: Host, c: Control, calls: seq<Call>)
    requires Splits(h) && WellSized(c) && UsableCalls(calls) && h.buckets == c.hardware == c.software
    requires LastCompletes(c, calls) && forall b :: 0 <= b < BUCKETS ==> !LostAt(c, calls, b)
    ensures OnPath0(Leaving(h.o, InstallCalls(h, c, calls).buckets, BUCKETS)) == calls[|calls| - 1].share
  {
    CallsInstalled(h, c, calls);
    CompletedShare(c, calls);
    ShareOfTraffic(h.o, Calls(c, calls).hardware, calls[|calls| - 1].share);
  }
}
