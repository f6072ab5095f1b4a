/**
 The start-up code that builds the steering pipelines pipe by pipe, and the two updates made
 while packets flow: moving a bucket to the other path, and adding a CNP entry. The result is
 `Wired`, so that it means what the pipeline is proved to mean.
 */
module SteerBuild {
  import opened Words
  import opened Sampling
  import opened Pipes
  import opened SteerTables
  import opened SteerPipeline

  /** The classifier starts with half of the buckets on each path. */
  function InitialBuckets(n: nat): (bs: seq<PathId>)
    ensures |bs| == n && forall b :: 0 <= b < n ==> bs[b] == if b < BUCKETS / 2 then 0 else 1
  {
    if n == 0 then [] else InitialBuckets(n - 1) + [if n - 1 < BUCKETS / 2 then 0 else 1]
  }

  method CreateDeliver(port: FlowPort, destPort: nat) returns (n: nat)
    requires Ordered(port.pipes)
    modifies port
    ensures Ordered(port.pipes) && old(port.pipes) <= port.pipes && At(port.pipes, n, DeliverPipe(destPort))
  {
    n := port.CreatePipe(DeliverPipe(destPort));
  }

  method CreateTerminals(port: FlowPort, o: Opts) returns (t: Terminals)
    requires Ordered(port.pipes)
    modifies port
    ensures Ordered(port.pipes) && old(port.pipes) <= port.pipes && EndsAt(port.pipes, o, t)
  {
    var sf0 := CreateDeliver(port, SF0);
    var wire := CreateDeliver(port, WIRE);
    var sf1, receiver := 0, sf0;
    if DoIngress(o) {
      sf1 := CreateDeliver(port, SF1);
      receiver := port.CreatePipe(ReceiverPipe(o, sf0, sf1));
    }
    t := Terminals(sf0, wire, sf1, receiver);
  }

  /** The sampling stage of a path: mark all, mark none, or a random mask in between. */
  method CreateCeTarget(port: FlowPort, intended: real, mark: nat, clear: nat) returns (selected: nat)
    requires Ordered(port.pipes) && mark < |port.pipes| && clear < |port.pipes|
    modifies port
    ensures Ordered(port.pipes) && old(port.pipes) <= port.pipes && selected < |port.pipes|
    ensures match CeTarget(intended, WIDTH)
            case MarkAll => selected == mark
            case MarkNone => selected == clear
            case Sample(mask) => At(port.pipes, selected, SamplePipe(mask, mark, clear))
  {
    var c := ChooseCe(intended);
    match c
    case MarkAll => selected := mark;
    case MarkNone => selected := clear;
    case Sample(mask) => selected := port.CreatePipe(SamplePipe(mask, mark, clear));
  }

  method CreateMarker(port: FlowPort, o: Opts, path: PathId, clear: nat, receiver: nat) returns (m: Marker)
    requires Ordered(port.pipes) && clear < |port.pipes| && receiver < |port.pipes|
    modifies port
    ensures Ordered(port.pipes) && old(port.pipes) <= port.pipes && MarkerAt(port.pipes, o, path, m, clear, receiver)
  {
    var mark := port.CreatePipe(MarkPipe(receiver));
    var selected := CreateCeTarget(port, if path == 0 then o.percent0 else o.percent1, mark, clear);
    var ipMatch := port.CreatePipe(IpMatchPipe(Ip(o, path), selected, clear));
    m := Marker(mark, selected, ipMatch);
  }

  method CreateMarkers(port: FlowPort, o: Opts, clear: nat, receiver: nat) returns (path0: Marker, path1: Marker)
    requires Ordered(port.pipes) && clear < |port.pipes| && receiver < |port.pipes|
    modifies port
    ensures Ordered(port.pipes) && old(port.pipes) <= port.pipes
    ensures MarkerAt(port.pipes, o, 0, path0, clear, receiver) && MarkerAt(port.pipes, o, 1, path1, clear, receiver)
  {
    path0 := CreateMarker(port, o, 0, clear, receiver);
    ghost var g := port.pipes;
    path1 := CreateMarker(port, o, 1, clear, receiver);
    MarkerExtends(g, port.pipes, o, 0, path0, clear, receiver);
  }

  method CreatePathDemux(port: FlowPort, path0: nat, path1: nat, clear: nat, receiver: nat)
    returns (demux: nat, roce: nat)
    requires Ordered(port.pipes) && path0 < |port.pipes| && path1 < |port.pipes|
    requires clear < |port.pipes| && receiver < |port.pipes|
    modifies port
    ensures Ordered(port.pipes) && old(port.pipes) <= port.pipes
    ensures At(port.pipes, demux, PathDemuxPipe(path0, path1, clear)) && At(port.pipes, roce, RocePipe(demux, receiver))
  {
    demux := port.CreatePipe(PathDemuxPipe(path0, path1, clear));
    roce := port.CreatePipe(RocePipe(demux, receiver));
  }

  method CreateIngress(port: FlowPort, o: Opts, t: Terminals) returns (i: IngressPart, wireTarget: nat)
    requires Ordered(port.pipes) && EndsAt(port.pipes, o, t)
    modifies port
    ensures Ordered(port.pipes) && old(port.pipes) <= port.pipes && IngressAt(port.pipes, o, t, i, wireTarget)
  {
    wireTarget := t.receiver;
    i := IngressPart(0, Marker(0, 0, 0), Marker(0, 0, 0), 0, 0);
    if DoIngress(o) {
      var clear := port.CreatePipe(ClearPipe(t.receiver));
      var path0, path1 := CreateMarkers(port, o, clear, t.receiver);
      ghost var g := port.pipes;
      var demux, roce := CreatePathDemux(port, path0.ipMatch, path1.ipMatch, clear, t.receiver);
      MarkerExtends(g, port.pipes, o, 0, path0, clear, t.receiver);
      MarkerExtends(g, port.pipes, o, 1, path1, clear, t.receiver);
      wireTarget := roce;
      i := IngressPart(clear, path0, path1, demux, roce);
    }
  }

  method CreateClassifier(port: FlowPort, rewrite0: nat, rewrite1: nat) returns (dispatch: nat, classify: nat)
    requires Ordered(port.pipes) && rewrite0 < |port.pipes| && rewrite1 < |port.pipes|
    modifies port
    ensures Ordered(port.pipes) && old(port.pipes) <= port.pipes
    ensures At(port.pipes, dispatch, DispatchPipe(InitialBuckets(BUCKETS), rewrite0, rewrite1))
    ensures At(port.pipes, classify, ClassifyPipe(dispatch)) && rewrite0 < dispatch && rewrite1 < dispatch
  {
    dispatch := port.CreatePipe(DispatchPipe(InitialBuckets(BUCKETS), rewrite0, rewrite1));
    classify := port.CreatePipe(ClassifyPipe(dispatch));
  }

  method CreateRewrites(port: FlowPort, t: Terminals, wire1: nat) returns (cnp: nat, rewrite0: nat, rewrite1: nat)
    requires Ordered(port.pipes) && t.sf0 < |port.pipes| && t.wire < |port.pipes| && wire1 < |port.pipes|
    modifies port
    ensures Ordered(port.pipes) && old(port.pipes) <= port.pipes && t.sf0 < cnp
    ensures At(port.pipes, cnp, CnpPipe([], t.sf0, wire1))
    ensures At(port.pipes, rewrite0, RewritePipe(0, t.wire)) && At(port.pipes, rewrite1, RewritePipe(1, t.wire))
  {
    cnp := port.CreatePipe(CnpPipe([], t.sf0, wire1));
    rewrite0 := port.CreatePipe(RewritePipe(0, t.wire));
    rewrite1 := port.CreatePipe(RewritePipe(1, t.wire));
  }

  method CreateEgress(port: FlowPort, o: Opts, t: Terminals, wire1: nat)
    returns (e: EgressPart, wireTarget: nat, sfTarget: nat)
    requires Ordered(port.pipes) && EndsAt(port.pipes, o, t) && wire1 < |port.pipes|
    modifies port
    ensures Ordered(port.pipes) && old(port.pipes) <= port.pipes
    ensures EgressAt(port.pipes, o, t, e, wire1, wireTarget, sfTarget, InitialBuckets(BUCKETS), [])
  {
    wireTarget, sfTarget := wire1, t.wire;
    e := EgressPart(0, 0, 0, 0, 0, 0);
    if DoEgress(o) {
      var cnp, rewrite0, rewrite1 := CreateRewrites(port, t, wire1);
      wireTarget := cnp;
      var dispatch, classify := 0, 0;
      if o.forcePath.Some? {
        sfTarget := port.CreatePipe(RocePipe(if o.forcePath.value == 0 then rewrite0 else rewrite1, t.wire));
      } else {
        dispatch, classify := CreateClassifier(port, rewrite0, rewrite1);
        sfTarget := port.CreatePipe(RocePipe(classify, t.wire));
      }
      e := EgressPart(cnp, rewrite0, rewrite1, dispatch, classify, sfTarget);
    }
  }

  method InstallQp1Clones(port: FlowPort, t: Terminals, wireTarget: nat, sfTarget: nat) returns (q: Qp1Part)
    requires Ordered(port.pipes) && wireTarget < |port.pipes| && sfTarget < |port.pipes| &&
            t.receiver < |port.pipes| && t.wire < |port.pipes|
    modifies port
    ensures Ordered(port.pipes) && old(port.pipes) <= port.pipes && Qp1At(port.pipes, t, q, wireTarget, sfTarget)
  {
    var rss := port.CreatePipe(RssPipe());
    var floodWire := port.CreatePipe(FloodPipe(ToPipe(t.receiver), ToPipe(rss)));
    var wire := port.CreatePipe(Qp1Pipe(floodWire, wireTarget));
    var floodSf := port.CreatePipe(FloodPipe(ToPipe(t.wire), ToPipe(rss)));
    var sf := port.CreatePipe(Qp1Pipe(floodSf, sfTarget));
    q := Qp1Part(rss, floodWire, wire, floodSf, sf);
  }

  method InstallArpPaths(port: FlowPort, o: Opts, q: Qp1Part) returns (a: ArpPart, wireTarget: nat, sfTarget: nat)
    requires Ordered(port.pipes) && q.wire < |port.pipes| && q.sf < |port.pipes|
    modifies port
    ensures Ordered(port.pipes) && old(port.pipes) <= port.pipes && ArpAt(port.pipes, o, q, a, wireTarget, sfTarget)
  {
    wireTarget, sfTarget := q.wire, q.sf;
    a := ArpPart(0, 0, 0);
    if DoIngress(o) {
      var flood := port.CreatePipe(FloodPipe(ToPort(SF0), ToPort(SF1)));
      wireTarget := port.CreatePipe(ArpPipe(ToPipe(flood), q.wire));
      sfTarget := port.CreatePipe(ArpPipe(ToPort(WIRE), q.sf));
      a := ArpPart(flood, wireTarget, sfTarget);
    }
  }

  method StartDirections(port: FlowPort, o: Opts)
      returns (t: Terminals, i: IngressPart, wire1: nat, e: EgressPart, wire2: nat, sf2: nat)
    requires Ordered(port.pipes)
    modifies port
    ensures Ordered(port.pipes) && EndsAt(port.pipes, o, t) && IngressAt(port.pipes, o, t, i, wire1)
    ensures EgressAt(port.pipes, o, t, e, wire1, wire2, sf2, InitialBuckets(BUCKETS), [])
  {
    t := CreateTerminals(port, o);
    ghost var g := port.pipes;
    i, wire1 := CreateIngress(port, o, t);
    ghost var h := port.pipes;
    EndsExtend(g, h, o, t);
    e, wire2, sf2 := CreateEgress(port, o, t, wire1);
    EndsExtend(h, port.pipes, o, t);
    IngressExtends(h, port.pipes, o, t, i, wire1);
  }

  method StartObservers(port: FlowPort, o: Opts, t: Terminals, wire2: nat, sf2: nat)
      returns (q: Qp1Part, a: ArpPart, wire3: nat, sf3: nat, root: nat)
    requires Ordered(port.pipes) && wire2 < |port.pipes| && sf2 < |port.pipes| && t.receiver < |port.pipes| &&
            t.wire < |port.pipes|
    modifies port
    ensures Ordered(port.pipes) && old(port.pipes) <= port.pipes && Qp1At(port.pipes, t, q, wire2, sf2)
    ensures ArpAt(port.pipes, o, q, a, wire3, sf3) && At(port.pipes, root, RootPipe(o, sf3, wire3))
  {
    q := InstallQp1Clones(port, t, wire2, sf2);
    a, wire3, sf3 := InstallArpPaths(port, o, q);
    root := port.CreatePipe(RootPipe(o, sf3, wire3));
  }

  method Start(port: FlowPort, o: Opts) returns (l: Layout)
    requires port.pipes == []
    modifies port
    ensures Wired(port.pipes, o, l, InitialBuckets(BUCKETS), [])
  {
    var t, i, wire1, e, wire2, sf2 := StartDirections(port, o);
    ghost var g := port.pipes;
    var q, a, wire3, sf3, root := StartObservers(port, o, t, wire2, sf2);
    EndsExtend(g, port.pipes, o, t);
    IngressExtends(g, port.pipes, o, t, i, wire1);
    EgressExtends(g, port.pipes, o, t, e, wire1, wire2, sf2, InitialBuckets(BUCKETS), []);
    l := Layout(t, i, wire1, e, wire2, sf2, q, a, wire3, sf3, root);
  }

  /** The graph with the forward of one bucket's entry replaced. */
  function Retargeted(g: seq<Pipe>, l: Layout, bucket: nat, path: PathId): seq<Pipe>
    requires l.egress.dispatch < |g| && g[l.egress.dispatch].Basic? && bucket < |g[l.egress.dispatch].entries|
  {
    var d := l.egress.dispatch;
    var es := g[d].entries;
    var target := if path == 0 then l.egress.rewrite0 else l.egress.rewrite1;
    g[d := g[d].(entries := es[bucket := es[bucket].(fwd := ToPipe(target))])]
  }

  /** Moves one bucket: the entry's forward is replaced, nothing else. */
  method MoveBucket(port: FlowPort, ghost o: Opts, l: Layout, ghost buckets: seq<PathId>, ghost cnp: seq<nat>,
                    bucket: nat, path: PathId)
    requires Wired(port.pipes, o, l, buckets, cnp) && DoEgress(o) && o.forcePath.None? && bucket < BUCKETS
    modifies port
    ensures Wired(port.pipes, o, l, buckets[bucket := path], cnp)
  {
    BucketMoved(port.pipes, o, l, buckets, cnp, bucket, path);
    port.pipes := Retargeted(port.pipes, l, bucket, path);
  }

  method AddCnpEntry(port: FlowPort, ghost o: Opts, l: Layout, ghost buckets: seq<PathId>, ghost cnp: seq<nat>,
                     qpn: nat)
    requires Wired(port.pipes, o, l, buckets, cnp) && DoEgress(o)
    modifies port
    ensures Wired(port.pipes, o, l, buckets, cnp + [qpn])
  {
    var c := l.egress.cnp;
    var entries := port.pipes[c].entries + [Entry(CnpMatch(qpn), Keep, ToPipe(l.ends.sf0))];
    CnpAdded(port.pipes, o, l, buckets, cnp, qpn);
    port.pipes := port.pipes[c := port.pipes[c].(entries := entries)];
  }

  const MAX_CNP_TRACKED: nat := 64

  /** Each counted sender once, and no more than there are entries. */
  ghost predicate CnpListOk(cnp: seq<nat>) {
    |cnp| <= MAX_CNP_TRACKED && forall i, j :: 0 <= i < j < |cnp| ==> cnp[i] != cnp[j]
  }

  method IsCounted(cnp: seq<nat>, qpn: nat) returns (known: bool)
    ensures known <==> qpn in cnp
  {
    var i := 0;
    while i < |cnp|
      invariant i <= |cnp| && forall j :: 0 <= j < i ==> cnp[j] != qpn
    {
      if cnp[i] == qpn {
        return true;
      }
      i := i + 1;
    }
    return false;
  }

  /** Whether a learned sender's CNPs get an entry: not twice, not past capacity, and only with the CNP pipe. */
  method WantsCnpEntry(o: Opts, cnp: seq<nat>, senderQpn: u32) returns (wanted: bool)
    ensures wanted <==> DoEgress(o) && senderQpn % TWO_24 !in cnp && |cnp| < MAX_CNP_TRACKED
    ensures wanted && CnpListOk(cnp) ==> CnpListOk(cnp + [senderQpn % TWO_24])
  {
    var known := IsCounted(cnp, senderQpn % TWO_24);
    wanted := DoEgress(o) && !known && |cnp| < MAX_CNP_TRACKED;
  }

  // ---------- later stages leave earlier ones in place ----------

  lemma EndsExtend(g: seq<Pipe>, h: seq<Pipe>, o: Opts, t: Terminals)
    requires g <= h && EndsAt(g, o, t)
    ensures EndsAt(h, o, t)
  {
  }

  lemma MarkerExtends(g: seq<Pipe>, h: seq<Pipe>, o: Opts, path: PathId, m: Marker, clear: nat, receiver: nat)
    requires g <= h && MarkerAt(g, o, path, m, clear, receiver)
    ensures MarkerAt(h, o, path, m, clear, receiver)
  {
  }

  lemma IngressExtends(g: seq<Pipe>, h: seq<Pipe>, o: Opts, t: Terminals, i: IngressPart, wire1: nat)
    requires g <= h && IngressAt(g, o, t, i, wire1)
    ensures IngressAt(h, o, t, i, wire1)
  {
    if DoIngress(o) {
      MarkerExtends(g, h, o, 0, i.path0, i.clear, t.receiver);
      MarkerExtends(g, h, o, 1, i.path1, i.clear, t.receiver);
    }
  }

  lemma EgressExtends(g: seq<Pipe>, h: seq<Pipe>, o: Opts, t: Terminals, e: EgressPart,
                      wire1: nat, wire2: nat, sf2: nat,
                      buckets: seq<PathId>, cnp: seq<nat>)
    requires g <= h && EgressAt(g, o, t, e, wire1, wire2, sf2, buckets, cnp)
    ensures EgressAt(h, o, t, e, wire1, wire2, sf2, buckets, cnp)
  {
  }

  // ---------- live updates ----------

  /** Only the dispatch and the CNP pipe have entries of this shape, or none. */
  predicate Live(x: Pipe) {
    x.Basic? && (|x.entries| == 0 || x.entries[0].match_.bucket.Some? || x.entries[0].match_.opcode.Some?)
  }

  lemma AtStays(g: seq<Pipe>, d: nat, y: Pipe, n: nat, x: Pipe)
    requires d < |g| && Live(g[d]) && !Live(x) && At(g, n, x)
    ensures At(g[d := y], n, x)
  {
  }

  lemma EndsStay(g: seq<Pipe>, d: nat, y: Pipe, o: Opts, t: Terminals)
    requires d < |g| && Live(g[d]) && EndsAt(g, o, t)
    ensures EndsAt(g[d := y], o, t)
  {
  }

  lemma MarkerStays(g: seq<Pipe>, d: nat, y: Pipe, o: Opts, path: PathId, m: Marker, clear: nat, receiver: nat)
    requires d < |g| && Live(g[d]) && MarkerAt(g, o, path, m, clear, receiver)
    ensures MarkerAt(g[d := y], o, path, m, clear, receiver)
  {
    AtStays(g, d, y, m.mark, MarkPipe(receiver));
    AtStays(g, d, y, m.ipMatch, IpMatchPipe(Ip(o, path), m.selected, clear));
    var c := Marking(o, path);
    if c.Sample? { AtStays(g, d, y, m.selected, SamplePipe(c.mask, m.mark, clear)); }
  }

  lemma IngressStays(g: seq<Pipe>, d: nat, y: Pipe, o: Opts, t: Terminals, i: IngressPart, wire1: nat)
    requires d < |g| && Live(g[d]) && IngressAt(g, o, t, i, wire1)
    ensures IngressAt(g[d := y], o, t, i, wire1)
  {
    if DoIngress(o) {
      MarkerStays(g, d, y, o, 0, i.path0, i.clear, t.receiver);
      MarkerStays(g, d, y, o, 1, i.path1, i.clear, t.receiver);
      AtStays(g, d, y, i.clear, ClearPipe(t.receiver));
      AtStays(g, d, y, i.demux, PathDemuxPipe(i.path0.ipMatch, i.path1.ipMatch, i.clear));
      AtStays(g, d, y, i.roce, RocePipe(i.demux, t.receiver));
    }
  }

  lemma Qp1Stays(g: seq<Pipe>, d: nat, y: Pipe, t: Terminals, q: Qp1Part, wire2: nat, sf2: nat)
    requires d < |g| && Live(g[d]) && Qp1At(g, t, q, wire2, sf2)
    ensures Qp1At(g[d := y], t, q, wire2, sf2)
  {
  }

  lemma ArpStays(g: seq<Pipe>, d: nat, y: Pipe, o: Opts, q: Qp1Part, a: ArpPart, wire3: nat, sf3: nat)
    requires d < |g| && Live(g[d]) && ArpAt(g, o, q, a, wire3, sf3)
    ensures ArpAt(g[d := y], o, q, a, wire3, sf3)
  {
  }

  lemma RootStays(g: seq<Pipe>, d: nat, y: Pipe, o: Opts, root: nat, sf3: nat, wire3: nat)
    requires d < |g| && Live(g[d]) && At(g, root, RootPipe(o, sf3, wire3))
    ensures At(g[d := y], root, RootPipe(o, sf3, wire3))
  {
    AtStays(g, d, y, root, RootPipe(o, sf3, wire3));
  }

  /** Replacing a live pipe by one whose forwards are as old keeps the rest of the build. */
  lemma RestStays(g: seq<Pipe>, d: nat, y: Pipe, o: Opts, l: Layout, buckets: seq<PathId>, cnp: seq<nat>)
    requires Wired(g, o, l, buckets, cnp) && d < |g| && Live(g[d]) && PipeOk(y, d)
    ensures var h := g[d := y];
      && Ordered(h) && EndsAt(h, o, l.ends) && IngressAt(h, o, l.ends, l.ingress, l.wire1)
      && Qp1At(h, l.ends, l.qp1, l.wire2, l.sf2) && ArpAt(h, o, l.qp1, l.arp, l.wire3, l.sf3)
      && At(h, l.root, RootPipe(o, l.sf3, l.wire3))
  {
    EndsStay(g, d, y, o, l.ends);
    IngressStays(g, d, y, o, l.ends, l.ingress, l.wire1);
    Qp1Stays(g, d, y, l.ends, l.qp1, l.wire2, l.sf2);
    ArpStays(g, d, y, o, l.qp1, l.arp, l.wire3, l.sf3);
    RootStays(g, d, y, o, l.root, l.sf3, l.wire3);
  }

  lemma DispatchMoved(buckets: seq<PathId>, path0: nat, path1: nat, bucket: nat, path: PathId)
    requires bucket < |buckets|
    ensures var es := DispatchEntries(buckets, path0, path1);
      DispatchEntries(buckets[bucket := path], path0, path1) ==
      es[bucket := es[bucket].(fwd := ToPipe(if path == 0 then path0 else path1))]
  {
  }

  lemma DispatchOk(buckets: seq<PathId>, path0: nat, path1: nat, d: nat)
    requires path0 < d && path1 < d && |buckets| == BUCKETS
    ensures PipeOk(DispatchPipe(buckets, path0, path1), d) && Live(DispatchPipe(buckets, path0, path1))
  {
  }

  lemma EgressMoved(g: seq<Pipe>, o: Opts, t: Terminals, e: EgressPart, wire1: nat, wire2: nat, sf2: nat,
                    buckets: seq<PathId>, cnp: seq<nat>, moved: seq<PathId>)
    requires EgressAt(g, o, t, e, wire1, wire2, sf2, buckets, cnp) && DoEgress(o) && o.forcePath.None?
    requires |buckets| == |moved| == BUCKETS
    ensures EgressAt(g[e.dispatch := DispatchPipe(moved, e.rewrite0, e.rewrite1)],
                     o, t, e, wire1, wire2, sf2, moved, cnp)
  {
    var d, y := e.dispatch, DispatchPipe(moved, e.rewrite0, e.rewrite1);
    AtStays(g, d, y, e.rewrite0, RewritePipe(0, t.wire));
    AtStays(g, d, y, e.rewrite1, RewritePipe(1, t.wire));
    AtStays(g, d, y, e.classify, ClassifyPipe(d));
    AtStays(g, d, y, e.roce, RocePipe(e.classify, t.wire));
    assert |cnp| > 0 ==> g[e.cnp].entries[0].match_.bucket.None?;
    assert g[d].entries[0].match_.bucket.Some?;
    assert e.cnp != d;
  }

  /** A live share update: the new graph is the built one with the new bucket map. */
  lemma BucketMoved(g: seq<Pipe>, o: Opts, l: Layout, buckets: seq<PathId>, cnp: seq<nat>, bucket: nat, path: PathId)
    requires Wired(g, o, l, buckets, cnp) && DoEgress(o) && o.forcePath.None? && bucket < BUCKETS
    ensures Wired(Retargeted(g, l, bucket, path), o, l, buckets[bucket := path], cnp)
  {
    var e, moved := l.egress, buckets[bucket := path];
    DispatchMoved(buckets, e.rewrite0, e.rewrite1, bucket, path);
    DispatchOk(buckets, e.rewrite0, e.rewrite1, e.dispatch);
    DispatchOk(moved, e.rewrite0, e.rewrite1, e.dispatch);
    RestStays(g, e.dispatch, DispatchPipe(moved, e.rewrite0, e.rewrite1), o, l, buckets, cnp);
    EgressMoved(g, o, l.ends, e, l.wire1, l.wire2, l.sf2, buckets, cnp, moved);
  }

  lemma CnpAppended(cnp: seq<nat>, qpn: nat, sf0: nat)
    ensures CnpEntries(cnp + [qpn], sf0) == CnpEntries(cnp, sf0) + [Entry(CnpMatch(qpn), Keep, ToPipe(sf0))]
  {
    assert (cnp + [qpn])[..|cnp|] == cnp;
  }

  lemma EgressCounts(g: seq<Pipe>, o: Opts, t: Terminals, e: EgressPart, wire1: nat, wire2: nat, sf2: nat,
                     buckets: seq<PathId>, cnp: seq<nat>, more: seq<nat>)
    requires EgressAt(g, o, t, e, wire1, wire2, sf2, buckets, cnp) && DoEgress(o) && |buckets| == BUCKETS
    ensures EgressAt(g[e.cnp := CnpPipe(more, t.sf0, wire1)], o, t, e, wire1, wire2, sf2, buckets, more)
  {
    var c, y := e.cnp, CnpPipe(more, t.sf0, wire1);
    AtStays(g, c, y, e.rewrite0, RewritePipe(0, t.wire));
    AtStays(g, c, y, e.rewrite1, RewritePipe(1, t.wire));
    if o.forcePath.None? {
      AtStays(g, c, y, e.classify, ClassifyPipe(e.dispatch));
      AtStays(g, c, y, e.roce, RocePipe(e.classify, t.wire));
      assert |cnp| > 0 ==> g[c].entries[0].match_.bucket.None?;
      assert g[e.dispatch].entries[0].match_.bucket.Some?;
      assert e.dispatch != c;
    } else {
      AtStays(g, c, y, e.roce, RocePipe(if o.forcePath.value == 0 then e.rewrite0 else e.rewrite1, t.wire));
    }
  }

  lemma CnpOk(g: seq<Pipe>, c: nat, cnp: seq<nat>, sf0: nat, miss: nat, qpn: nat)
    requires Ordered(g) && At(g, c, CnpPipe(cnp, sf0, miss)) && sf0 < c
    ensures Live(g[c]) && PipeOk(CnpPipe(cnp + [qpn], sf0, miss), c)
  {
    assert PipeOk(g[c], c);
  }

  /** A CNP entry added later: the new graph is the built one that also counts `qpn`. */
  lemma CnpAdded(g: seq<Pipe>, o: Opts, l: Layout, buckets: seq<PathId>, cnp: seq<nat>, qpn: nat)
    requires Wired(g, o, l, buckets, cnp) && DoEgress(o)
    ensures var c := l.egress.cnp;
      var es := g[c].entries + [Entry(CnpMatch(qpn), Keep, ToPipe(l.ends.sf0))];
      Wired(g[c := g[c].(entries := es)], o, l, buckets, cnp + [qpn])
  {
    var c, y := l.egress.cnp, CnpPipe(cnp + [qpn], l.ends.sf0, l.wire1);
    CnpAppended(cnp, qpn, l.ends.sf0);
    CnpOk(g, c, cnp, l.ends.sf0, l.wire1, qpn);
    RestStays(g, c, y, o, l, buckets, cnp);
    EgressCounts(g, o, l.ends, l.egress, l.wire1, l.wire2, l.sf2, buckets, cnp, cnp + [qpn]);
  }
}
