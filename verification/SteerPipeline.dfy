/**
 The DOCA 3.x steering pipelines as `steer_start` builds them for each role, and what they
 mean for every packet. The builder creates one pipe at a time; the meaning is a table-free
 function of the packet, the current bucket map and the tracked CNP entries.
 */
module SteerPipeline {
  import opened Words
  import opened Sampling
  import opened Pipes
  import opened SteerTables

  const WIRE: nat := 0
  const SF0: nat := 1
  const SF1: nat := 2
  const QP1: nat := 1
  const OPCODE_CNP: u8 := 0x81
  const PATH_BIT: bv8 := 0x04
  const CE: bv8 := 0x03
  const ECT0: bv8 := 0x02
  const ECN_MASK: bv8 := 0x03
  const WIDTH: nat := RANDOM_FIELD_WIDTH

  datatype Role = Ingress | Egress | Both

  datatype Opts = Opts(role: Role, forcePath: Option<PathId>, ips: PathIps, percent0: real, percent1: real)

  predicate DoIngress(o: Opts) { !o.role.Egress? }

  predicate DoEgress(o: Opts) { !o.role.Ingress? }

  function Ip(o: Opts, path: PathId): u32 { if path == 0 then o.ips.path0 else o.ips.path1 }

  function Marking(o: Opts, path: PathId): Ce { CeTarget(if path == 0 then o.percent0 else o.percent1, WIDTH) }

  function PathBit(path: PathId): bv8 { if path == 0 then 0 else PATH_BIT }

  // ---------- the pipes ----------

  function One(m: Match, a: Action, hit: nat, miss: Fwd): Pipe { Basic([Entry(m, a, ToPipe(hit))], miss, None) }

  function DeliverPipe(port: nat): Pipe { Basic([Entry(IP4, Keep, ToPort(port))], Library, None) }

  function ReceiverPipe(o: Opts, sf0: nat, sf1: nat): Pipe {
    Basic([Entry(IP4.(dstIp := Some(o.ips.path0)), Keep, ToPipe(sf0)),
           Entry(IP4.(dstIp := Some(o.ips.path1)), Keep, ToPipe(sf1))], ToPipe(sf0), None)
  }

  function ClearPipe(next: nat): Pipe { One(IP4, WriteTos(0, PATH_BIT), next, Library) }

  function MarkPipe(next: nat): Pipe { One(IP4, WriteTos(CE, PATH_BIT | ECN_MASK), next, Library) }

  function IpMatchPipe(ip: u32, selected: nat, clear: nat): Pipe {
    One(IP4.(dstIp := Some(ip)), Keep, selected, ToPipe(clear))
  }

  function PathDemuxPipe(path0: nat, path1: nat, clear: nat): Pipe {
    Basic([Entry(IP4.(tos := PathBit(0), tosMask := PATH_BIT), Keep, ToPipe(path0)),
           Entry(IP4.(tos := PathBit(1), tosMask := PATH_BIT), Keep, ToPipe(path1))], ToPipe(clear), None)
  }

  function RocePipe(hit: nat, bypass: nat): Pipe { One(ROCE, Keep, hit, ToPipe(bypass)) }

  function RewritePipe(path: PathId, next: nat): Pipe { One(IP4, WriteTos(PathBit(path) | ECT0, 0xFF), next, Library) }

  function DispatchEntry(bucket: nat, path: PathId, path0: nat, path1: nat): Entry {
    Entry(ANY.(bucket := Some(bucket)), Keep, ToPipe(if path == 0 then path0 else path1))
  }

  function DispatchEntries(buckets: seq<PathId>, path0: nat, path1: nat): (es: seq<Entry>)
    ensures |es| == |buckets|
    ensures forall b :: 0 <= b < |es| ==> es[b] == DispatchEntry(b, buckets[b], path0, path1)
  {
    if |buckets| == 0 then []
    else
      var b := |buckets| - 1;
      DispatchEntries(buckets[..b], path0, path1) + [DispatchEntry(b, buckets[b], path0, path1)]
  }

  function DispatchPipe(buckets: seq<PathId>, path0: nat, path1: nat): Pipe {
    Basic(DispatchEntries(buckets, path0, path1), Library, None)
  }

  function ClassifyEntries(n: nat, dispatch: nat): (es: seq<Entry>)
    ensures |es| == n && forall b :: 0 <= b < n ==> es[b] == Entry(ANY, SetBucket(b), ToPipe(dispatch))
  {
    if n == 0 then [] else ClassifyEntries(n - 1, dispatch) + [Entry(ANY, SetBucket(n - 1), ToPipe(dispatch))]
  }

  function ClassifyPipe(dispatch: nat): Pipe { Hash(ClassifyEntries(BUCKETS, dispatch)) }

  function CnpMatch(qpn: nat): Match { ROCE.(opcode := Some(OPCODE_CNP), destQp := Some(qpn)) }

  function CnpEntries(qpns: seq<nat>, sf0: nat): (es: seq<Entry>)
    ensures |es| == |qpns| && forall i :: 0 <= i < |es| ==> es[i] == Entry(CnpMatch(qpns[i]), Keep, ToPipe(sf0))
  {
    if |qpns| == 0 then []
    else CnpEntries(qpns[..|qpns| - 1], sf0) + [Entry(CnpMatch(qpns[|qpns| - 1]), Keep, ToPipe(sf0))]
  }

  function CnpPipe(qpns: seq<nat>, sf0: nat, miss: nat): Pipe { Basic(CnpEntries(qpns, sf0), ToPipe(miss), None) }

  function RssPipe(): Pipe { Basic([Entry(IP4, Keep, ToCpu(0))], Library, None) }

  function FloodPipe(a: Fwd, b: Fwd): Pipe { Flood([a, b]) }

  function Qp1Pipe(flood: nat, miss: nat): Pipe { One(ROCE.(destQp := Some(QP1)), Keep, flood, ToPipe(miss)) }

  function ArpPipe(hit: Fwd, miss: nat): Pipe { Basic([Entry(ANY.(arp := true), Keep, hit)], ToPipe(miss), None) }

  function RootPipe(o: Opts, sf: nat, wire: nat): Pipe {
    Basic([FromPort(WIRE, ToPipe(wire)), FromPort(SF0, ToPipe(sf))] +
          if DoIngress(o) then [FromPort(SF1, ToPipe(sf))] else [], Drop, None)
  }

  // ---------- where the pipes are ----------

  datatype Terminals = Terminals(sf0: nat, wire: nat, sf1: nat, receiver: nat)

  datatype Marker = Marker(mark: nat, selected: nat, ipMatch: nat)

  datatype IngressPart = IngressPart(clear: nat, path0: Marker, path1: Marker, demux: nat, roce: nat)

  datatype EgressPart = EgressPart(cnp: nat, rewrite0: nat, rewrite1: nat, dispatch: nat, classify: nat, roce: nat)

  datatype Qp1Part = Qp1Part(rss: nat, floodWire: nat, wire: nat, floodSf: nat, sf: nat)

  datatype ArpPart = ArpPart(flood: nat, wire: nat, sf: nat)

  /** `wireN` and `sfN` are the fates of the two directions after each stage. */
  datatype Layout = Layout(
    ends: Terminals, ingress: IngressPart, wire1: nat, egress: EgressPart, wire2: nat, sf2: nat,
    qp1: Qp1Part, arp: ArpPart, wire3: nat, sf3: nat, root: nat)

  predicate EndsAt(g: seq<Pipe>, o: Opts, t: Terminals) {
    && At(g, t.sf0, DeliverPipe(SF0)) && At(g, t.wire, DeliverPipe(WIRE)) && t.receiver < |g|
    && if DoIngress(o) then At(g, t.sf1, DeliverPipe(SF1)) && g[t.receiver] == ReceiverPipe(o, t.sf0, t.sf1)
       else t.receiver == t.sf0
  }

  predicate MarkerAt(g: seq<Pipe>, o: Opts, path: PathId, m: Marker, clear: nat, receiver: nat) {
    && At(g, m.mark, MarkPipe(receiver))
    && At(g, m.ipMatch, IpMatchPipe(Ip(o, path), m.selected, clear))
    && match Marking(o, path)
       case MarkAll => m.selected == m.mark
       case MarkNone => m.selected == clear
       case Sample(mask) => At(g, m.selected, SamplePipe(mask, m.mark, clear))
  }

  predicate IngressAt(g: seq<Pipe>, o: Opts, t: Terminals, i: IngressPart, wire1: nat) {
    wire1 < |g| &&
    if DoIngress(o) then
      && At(g, i.clear, ClearPipe(t.receiver))
      && MarkerAt(g, o, 0, i.path0, i.clear, t.receiver)
      && MarkerAt(g, o, 1, i.path1, i.clear, t.receiver)
      && At(g, i.demux, PathDemuxPipe(i.path0.ipMatch, i.path1.ipMatch, i.clear))
      && At(g, i.roce, RocePipe(i.demux, t.receiver))
      && wire1 == i.roce
    else wire1 == t.receiver
  }

  predicate EgressAt(g: seq<Pipe>, o: Opts, t: Terminals, e: EgressPart, wire1: nat, wire2: nat, sf2: nat,
                     buckets: seq<PathId>, cnp: seq<nat>)
  {
    wire2 < |g| && sf2 < |g| &&
    if DoEgress(o) then
      && At(g, e.cnp, CnpPipe(cnp, t.sf0, wire1)) && wire2 == e.cnp && t.sf0 < e.cnp
      && At(g, e.rewrite0, RewritePipe(0, t.wire))
      && At(g, e.rewrite1, RewritePipe(1, t.wire))
      && sf2 == e.roce
      && (if o.forcePath.Some?
          then At(g, e.roce, RocePipe(if o.forcePath.value == 0 then e.rewrite0 else e.rewrite1, t.wire))
          else && At(g, e.dispatch, DispatchPipe(buckets, e.rewrite0, e.rewrite1))
               && e.rewrite0 < e.dispatch && e.rewrite1 < e.dispatch
               && At(g, e.classify, ClassifyPipe(e.dispatch))
               && At(g, e.roce, RocePipe(e.classify, t.wire)))
    else wire2 == wire1 && sf2 == t.wire
  }

  predicate Qp1At(g: seq<Pipe>, t: Terminals, q: Qp1Part, wire2: nat, sf2: nat) {
    && At(g, q.rss, RssPipe())
    && At(g, q.floodWire, FloodPipe(ToPipe(t.receiver), ToPipe(q.rss)))
    && At(g, q.wire, Qp1Pipe(q.floodWire, wire2))
    && At(g, q.floodSf, FloodPipe(ToPipe(t.wire), ToPipe(q.rss)))
    && At(g, q.sf, Qp1Pipe(q.floodSf, sf2))
  }

  predicate ArpAt(g: seq<Pipe>, o: Opts, q: Qp1Part, a: ArpPart, wire3: nat, sf3: nat) {
    wire3 < |g| && sf3 < |g| &&
    if DoIngress(o) then
      && At(g, a.flood, FloodPipe(ToPort(SF0), ToPort(SF1)))
      && At(g, a.wire, ArpPipe(ToPipe(a.flood), q.wire)) && wire3 == a.wire
      && At(g, a.sf, ArpPipe(ToPort(WIRE), q.sf)) && sf3 == a.sf
    else wire3 == q.wire && sf3 == q.sf
  }

  /** The graph is the one `steer_start` builds, with this bucket map and these CNP entries. */
  ghost predicate Wired(g: seq<Pipe>, o: Opts, l: Layout, buckets: seq<PathId>, cnp: seq<nat>) {
    && Ordered(g) && |buckets| == BUCKETS
    && EndsAt(g, o, l.ends)
    && IngressAt(g, o, l.ends, l.ingress, l.wire1)
    && EgressAt(g, o, l.ends, l.egress, l.wire1, l.wire2, l.sf2, buckets, cnp)
    && Qp1At(g, l.ends, l.qp1, l.wire2, l.sf2)
    && ArpAt(g, o, l.qp1, l.arp, l.wire3, l.sf3)
    && At(g, l.root, RootPipe(o, l.sf3, l.wire3))
  }

  // ---------- what the pipeline means ----------

  function ReceiverPort(o: Opts, f: Frame): nat {
    if DoIngress(o) && f.dstIp == o.ips.path1 != o.ips.path0 then SF1 else SF0
  }

  function PathOf(tos: bv8): PathId { if tos & PATH_BIT == 0 then 0 else 1 }

  predicate Sampled(c: Ce, random: nat) { c.MarkAll? || (c.Sample? && Hit(random, c.mask)) }

  /** CE for a sampled packet on its receiver's own path; the path bit goes either way. */
  function IngressTos(o: Opts, p: Packet): bv8 {
    var path := PathOf(p.frame.tos);
    if p.frame.dstIp == Ip(o, path) && Sampled(Marking(o, path), p.random)
    then Masked(p.frame.tos, CE, PATH_BIT | ECN_MASK) else Masked(p.frame.tos, 0, PATH_BIT)
  }

  function EgressPath(o: Opts, buckets: seq<PathId>, hash: nat): PathId
    requires |buckets| == BUCKETS
  {
    if o.forcePath.Some? then o.forcePath.value else buckets[hash % BUCKETS]
  }

  predicate IsQp1(f: Frame) { f.roce && f.destQp == QP1 }

  predicate IsCountedCnp(f: Frame, cnp: seq<nat>) { f.roce && f.opcode == OPCODE_CNP && f.destQp in cnp }

  function FromWire(o: Opts, cnp: seq<nat>, p: Packet): seq<Delivery> {
    var f := p.frame;
    if IsQp1(f) then [Delivered(ReceiverPort(o, f), f), Cpu(0, f)]
    else if DoEgress(o) && IsCountedCnp(f, cnp) then [Delivered(SF0, f)]
    else if DoIngress(o) && f.roce then [Delivered(ReceiverPort(o, f), f.(tos := IngressTos(o, p)))]
    else [Delivered(ReceiverPort(o, f), f)]
  }

  function FromSf(o: Opts, buckets: seq<PathId>, p: Packet): seq<Delivery>
    requires |buckets| == BUCKETS
  {
    var f := p.frame;
    if IsQp1(f) then [Delivered(WIRE, f), Cpu(0, f)]
    else if DoEgress(o) && f.roce then [Delivered(WIRE, f.(tos := PathBit(EgressPath(o, buckets, p.hash)) | ECT0))]
    else [Delivered(WIRE, f)]
  }

  predicate IsSf(o: Opts, port: nat) { port == SF0 || (DoIngress(o) && port == SF1) }

  function Meaning(o: Opts, buckets: seq<PathId>, cnp: seq<nat>, p: Packet): seq<Delivery>
    requires |buckets| == BUCKETS
  {
    if p.port == WIRE then
      if p.frame.l3.Ip4? then FromWire(o, cnp, p) else [Delivered(SF0, p.frame), Delivered(SF1, p.frame)]
    else if IsSf(o, p.port) then
      if p.frame.l3.Ip4? then FromSf(o, buckets, p) else [Delivered(WIRE, p.frame)]
    else []
  }

  /** IPv4 always, ARP where the role handles it; the rest is the library's. */
  predicate Handled(o: Opts, p: Packet) { p.frame.l3.Ip4? || (DoIngress(o) && p.frame.l3.Arp?) }

  // ---------- one lemma per pipe ----------

  lemma Delivers(g: seq<Pipe>, n: nat, port: nat, p: Packet)
    requires Ordered(g) && At(g, n, DeliverPipe(port)) && p.frame.l3.Ip4?
    ensures Walk(g, n, p) == [Delivered(port, p.frame)]
  {
    OneEntry(g, n, p);
  }

  lemma Conditional(g: seq<Pipe>, n: nat, m: Match, a: Action, hit: nat, miss: Fwd, p: Packet)
    requires Ordered(g) && At(g, n, One(m, a, hit, miss))
    ensures hit < n && Earlier(miss, n)
    ensures Walk(g, n, p) == if Matches(m, p) then Walk(g, hit, Act(a, p)) else Send(g, n, miss, p)
  {
    OneEntry(g, n, p);
  }

  lemma Receives(g: seq<Pipe>, o: Opts, t: Terminals, p: Packet)
    requires Ordered(g) && EndsAt(g, o, t) && p.frame.l3.Ip4?
    ensures Walk(g, t.receiver, p) == [Delivered(ReceiverPort(o, p.frame), p.frame)]
  {
    Delivers(g, t.sf0, SF0, p);
    if DoIngress(o) {
      Delivers(g, t.sf1, SF1, p);
      TwoEntries(g, t.receiver, p);
    }
  }

  lemma Clears(g: seq<Pipe>, o: Opts, t: Terminals, n: nat, p: Packet)
    requires Ordered(g) && EndsAt(g, o, t) && At(g, n, ClearPipe(t.receiver)) && p.frame.l3.Ip4?
    ensures Walk(g, n, p) == [Delivered(ReceiverPort(o, p.frame), p.frame.(tos := Masked(p.frame.tos, 0, PATH_BIT)))]
  {
    Conditional(g, n, IP4, WriteTos(0, PATH_BIT), t.receiver, Library, p);
    Receives(g, o, t, Act(WriteTos(0, PATH_BIT), p));
  }

  lemma Marks(g: seq<Pipe>, o: Opts, t: Terminals, n: nat, p: Packet)
    requires Ordered(g) && EndsAt(g, o, t) && At(g, n, MarkPipe(t.receiver)) && p.frame.l3.Ip4?
    ensures Walk(g, n, p) ==
      [Delivered(ReceiverPort(o, p.frame), p.frame.(tos := Masked(p.frame.tos, CE, PATH_BIT | ECN_MASK)))]
  {
    var a := WriteTos(CE, PATH_BIT | ECN_MASK);
    Conditional(g, n, IP4, a, t.receiver, Library, p);
    Receives(g, o, t, Act(a, p));
  }

  /** A path's marker: eligible by address, then sampled. */
  lemma MarksPath(g: seq<Pipe>, o: Opts, t: Terminals, clear: nat, path: PathId, m: Marker, p: Packet)
    requires Ordered(g) && EndsAt(g, o, t) && At(g, clear, ClearPipe(t.receiver))
    requires MarkerAt(g, o, path, m, clear, t.receiver) && p.frame.l3.Ip4?
    ensures Walk(g, m.ipMatch, p) ==
            Walk(g, if p.frame.dstIp == Ip(o, path) && Sampled(Marking(o, path), p.random) then m.mark else clear, p)
  {
    Conditional(g, m.ipMatch, IP4.(dstIp := Some(Ip(o, path))), Keep, m.selected, ToPipe(clear), p);
    var c := Marking(o, path);
    if c.Sample? {
      Conditional(g, m.selected, ANY.(randomMask := c.mask), Keep, m.mark, ToPipe(clear), p);
    }
  }

  lemma DemuxesPath(g: seq<Pipe>, n: nat, path0: nat, path1: nat, clear: nat, p: Packet)
    requires Ordered(g) && At(g, n, PathDemuxPipe(path0, path1, clear)) && p.frame.l3.Ip4?
    ensures path0 < n && path1 < n && Walk(g, n, p) == Walk(g, if PathOf(p.frame.tos) == 0 then path0 else path1, p)
  {
    TwoEntries(g, n, p);
    PathBitDecides(p.frame.tos);
  }

  lemma PathBitDecides(tos: bv8)
    ensures tos & PATH_BIT == 0 || tos & PATH_BIT == PATH_BIT
  {
  }

  lemma ChecksRoce(g: seq<Pipe>, n: nat, hit: nat, bypass: nat, p: Packet)
    requires Ordered(g) && At(g, n, RocePipe(hit, bypass)) && p.frame.l3.Ip4?
    ensures hit < n && bypass < n && Walk(g, n, p) == Walk(g, if p.frame.roce then hit else bypass, p)
  {
    Conditional(g, n, ROCE, Keep, hit, ToPipe(bypass), p);
  }

  lemma WireIngress(g: seq<Pipe>, o: Opts, t: Terminals, i: IngressPart, wire1: nat, p: Packet)
    requires Ordered(g) && EndsAt(g, o, t) && IngressAt(g, o, t, i, wire1) && p.frame.l3.Ip4?
    ensures Walk(g, wire1, p) == [Delivered(ReceiverPort(o, p.frame),
      if DoIngress(o) && p.frame.roce then p.frame.(tos := IngressTos(o, p)) else p.frame)]
  {
    Receives(g, o, t, p);
    if DoIngress(o) {
      ChecksRoce(g, i.roce, i.demux, t.receiver, p);
      DemuxesPath(g, i.demux, i.path0.ipMatch, i.path1.ipMatch, i.clear, p);
      var path := PathOf(p.frame.tos);
      var m := if path == 0 then i.path0 else i.path1;
      MarksPath(g, o, t, i.clear, path, m, p);
      Clears(g, o, t, i.clear, p);
      Marks(g, o, t, m.mark, p);
    }
  }

  lemma CountsCnp(g: seq<Pipe>, n: nat, cnp: seq<nat>, sf0: nat, miss: nat, p: Packet)
    requires Ordered(g) && At(g, n, CnpPipe(cnp, sf0, miss)) && p.frame.l3.Ip4?
    ensures miss < n && (|cnp| > 0 ==> sf0 < n)
    ensures IsCountedCnp(p.frame, cnp) ==> |cnp| > 0 && Walk(g, n, p) == Walk(g, sf0, p)
    ensures !IsCountedCnp(p.frame, cnp) ==> Walk(g, n, p) == Walk(g, miss, p)
  {
    assert PipeOk(g[n], n);
    var es := g[n].entries;
    var i := FirstHit(es, p);
    if |cnp| > 0 { assert Earlier(es[0].fwd, n); }
    if IsCountedCnp(p.frame, cnp) {
      var j :| 0 <= j < |cnp| && cnp[j] == p.frame.destQp;
      assert Matches(es[j].match_, p);
    }
    if i < |es| { assert Walk(g, n, p) == Send(g, n, es[i].fwd, p) + []; }
  }

  lemma Rewrites(g: seq<Pipe>, o: Opts, t: Terminals, n: nat, path: PathId, p: Packet)
    requires Ordered(g) && EndsAt(g, o, t) && At(g, n, RewritePipe(path, t.wire)) && p.frame.l3.Ip4?
    ensures Walk(g, n, p) == [Delivered(WIRE, p.frame.(tos := PathBit(path) | ECT0))]
  {
    var a := WriteTos(PathBit(path) | ECT0, 0xFF);
    Conditional(g, n, IP4, a, t.wire, Library, p);
    Delivers(g, t.wire, WIRE, Act(a, p));
  }

  /** The dispatch pipe sends a packet of bucket `b` where the bucket map says. */
  lemma Dispatches(g: seq<Pipe>, n: nat, buckets: seq<PathId>, path0: nat, path1: nat, p: Packet)
    requires Ordered(g) && At(g, n, DispatchPipe(buckets, path0, path1)) && p.bucket < |buckets|
    ensures var target := if buckets[p.bucket] == 0 then path0 else path1;
      target < n && Walk(g, n, p) == Walk(g, target, p)
  {
    assert PipeOk(g[n], n);
    var es := g[n].entries;
    assert Matches(es[p.bucket].match_, p);
    var i := FirstHit(es, p);
    assert Matches(es[i].match_, p) && i == p.bucket && Earlier(es[i].fwd, n);
    assert Walk(g, n, p) == Send(g, n, es[i].fwd, p) + [];
  }

  lemma Classifies(g: seq<Pipe>, o: Opts, t: Terminals, e: EgressPart, buckets: seq<PathId>, p: Packet)
    requires Ordered(g) && EndsAt(g, o, t) && |buckets| == BUCKETS && p.frame.l3.Ip4?
    requires At(g, e.rewrite0, RewritePipe(0, t.wire)) && At(g, e.rewrite1, RewritePipe(1, t.wire))
    requires At(g, e.dispatch, DispatchPipe(buckets, e.rewrite0, e.rewrite1)) &&
            At(g, e.classify, ClassifyPipe(e.dispatch))
    ensures Walk(g, e.classify, p) == [Delivered(WIRE, p.frame.(tos := PathBit(buckets[p.hash % BUCKETS]) | ECT0))]
  {
    var b := p.hash % BUCKETS;
    var q := Act(SetBucket(b), p);
    assert PipeOk(g[e.classify], e.classify);
    assert g[e.classify].entries[b] == Entry(ANY, SetBucket(b), ToPipe(e.dispatch));
    assert Walk(g, e.classify, p) == Walk(g, e.dispatch, q);
    Dispatches(g, e.dispatch, buckets, e.rewrite0, e.rewrite1, q);
    Rewrites(g, o, t, if buckets[b] == 0 then e.rewrite0 else e.rewrite1, buckets[b], q);
  }

  lemma SfEgress(g: seq<Pipe>, o: Opts, t: Terminals, e: EgressPart, wire1: nat, wire2: nat, sf2: nat,
                 buckets: seq<PathId>, cnp: seq<nat>, p: Packet)
    requires Ordered(g) && EndsAt(g, o, t) && EgressAt(g, o, t, e, wire1, wire2, sf2, buckets, cnp)
    requires |buckets| == BUCKETS && p.frame.l3.Ip4?
    ensures Walk(g, sf2, p) == [Delivered(WIRE,
      if DoEgress(o) && p.frame.roce then p.frame.(tos := PathBit(EgressPath(o, buckets, p.hash)) | ECT0) else p.frame)]
  {
    Delivers(g, t.wire, WIRE, p);
    if DoEgress(o) {
      if o.forcePath.None? {
        ChecksRoce(g, e.roce, e.classify, t.wire, p);
        Classifies(g, o, t, e, buckets, p);
      } else {
        var hit := if o.forcePath.value == 0 then e.rewrite0 else e.rewrite1;
        ChecksRoce(g, e.roce, hit, t.wire, p);
        Rewrites(g, o, t, hit, o.forcePath.value, p);
      }
    }
  }

  /** The QP1 stage: one untouched delivery and one copy to the CPU, or the next stage. */
  lemma ClonesQp1(g: seq<Pipe>, check: nat, flood: nat, rss: nat, normal: nat, miss: nat, port: nat, p: Packet)
    requires Ordered(g) && At(g, rss, RssPipe()) && normal < |g| && At(g, flood, FloodPipe(ToPipe(normal), ToPipe(rss)))
    requires At(g, check, Qp1Pipe(flood, miss)) && p.frame.l3.Ip4?
    requires Walk(g, normal, p) == [Delivered(port, p.frame)]
    ensures miss < check
    ensures Walk(g, check, p) == if IsQp1(p.frame) then [Delivered(port, p.frame), Cpu(0, p.frame)]
            else Walk(g, miss, p)
  {
    Conditional(g, check, ROCE.(destQp := Some(QP1)), Keep, flood, ToPipe(miss), p);
    FloodOfTwo(g, flood, p);
    OneEntry(g, rss, p);
  }

  lemma WireStages(g: seq<Pipe>, o: Opts, l: Layout, buckets: seq<PathId>, cnp: seq<nat>, p: Packet)
    requires Wired(g, o, l, buckets, cnp) && p.frame.l3.Ip4?
    ensures Walk(g, l.qp1.wire, p) == FromWire(o, cnp, p)
  {
    Receives(g, o, l.ends, p);
    ClonesQp1(g, l.qp1.wire, l.qp1.floodWire, l.qp1.rss, l.ends.receiver, l.wire2, ReceiverPort(o, p.frame), p);
    WireIngress(g, o, l.ends, l.ingress, l.wire1, p);
    if DoEgress(o) {
      CountsCnp(g, l.egress.cnp, cnp, l.ends.sf0, l.wire1, p);
      Delivers(g, l.ends.sf0, SF0, p);
    }
  }

  lemma SfStages(g: seq<Pipe>, o: Opts, l: Layout, buckets: seq<PathId>, cnp: seq<nat>, p: Packet)
    requires Wired(g, o, l, buckets, cnp) && p.frame.l3.Ip4?
    ensures Walk(g, l.qp1.sf, p) == FromSf(o, buckets, p)
  {
    Delivers(g, l.ends.wire, WIRE, p);
    ClonesQp1(g, l.qp1.sf, l.qp1.floodSf, l.qp1.rss, l.ends.wire, l.sf2, WIRE, p);
    SfEgress(g, o, l.ends, l.egress, l.wire1, l.wire2, l.sf2, buckets, cnp, p);
  }

  lemma ArpStage(g: seq<Pipe>, n: nat, hit: Fwd, miss: nat, p: Packet)
    requires Ordered(g) && At(g, n, ArpPipe(hit, miss))
    ensures miss < n && Earlier(hit, n)
    ensures Walk(g, n, p) == if p.frame.l3.Arp? then Send(g, n, hit, p) else Walk(g, miss, p)
  {
    OneEntry(g, n, p);
  }

  lemma FloodsArp(g: seq<Pipe>, n: nat, p: Packet)
    requires Ordered(g) && At(g, n, FloodPipe(ToPort(SF0), ToPort(SF1)))
    ensures Walk(g, n, p) == [Delivered(SF0, p.frame), Delivered(SF1, p.frame)]
  {
    FloodOfTwo(g, n, p);
  }

  lemma TopWire(g: seq<Pipe>, o: Opts, l: Layout, buckets: seq<PathId>, cnp: seq<nat>, p: Packet)
    requires Wired(g, o, l, buckets, cnp) && Handled(o, p)
    ensures Walk(g, l.wire3, p) ==
      if p.frame.l3.Ip4? then FromWire(o, cnp, p) else [Delivered(SF0, p.frame), Delivered(SF1, p.frame)]
  {
    if p.frame.l3.Ip4? { WireStages(g, o, l, buckets, cnp, p); }
    if DoIngress(o) {
      ArpStage(g, l.arp.wire, ToPipe(l.arp.flood), l.qp1.wire, p);
      FloodsArp(g, l.arp.flood, p);
    }
  }

  lemma TopSf(g: seq<Pipe>, o: Opts, l: Layout, buckets: seq<PathId>, cnp: seq<nat>, p: Packet)
    requires Wired(g, o, l, buckets, cnp) && Handled(o, p)
    ensures Walk(g, l.sf3, p) == if p.frame.l3.Ip4? then FromSf(o, buckets, p) else [Delivered(WIRE, p.frame)]
  {
    if p.frame.l3.Ip4? { SfStages(g, o, l, buckets, cnp, p); }
    if DoIngress(o) { ArpStage(g, l.arp.sf, ToPort(WIRE), l.qp1.sf, p); }
  }

  lemma MatchesPort(port: nat, fwd: Fwd, p: Packet)
    ensures Matches(FromPort(port, fwd).match_, p) <==> p.port == port
  {
  }

  lemma Demuxes(g: seq<Pipe>, o: Opts, n: nat, sf: nat, wire: nat, p: Packet)
    requires Ordered(g) && At(g, n, RootPipe(o, sf, wire))
    ensures sf < n && wire < n
    ensures Walk(g, n, p) == if p.port == WIRE then Walk(g, wire, p) else if IsSf(o, p.port) then Walk(g, sf, p) else []
  {
    assert PipeOk(g[n], n);
    var es := g[n].entries;
    assert Earlier(es[0].fwd, n) && Earlier(es[1].fwd, n);
    MatchesPort(WIRE, ToPipe(wire), p);
    MatchesPort(SF0, ToPipe(sf), p);
    MatchesPort(SF1, ToPipe(sf), p);
    var i := FirstHit(es, p);
    assert es[0] == FromPort(WIRE, ToPipe(wire)) && es[1] == FromPort(SF0, ToPipe(sf));
    assert |es| == 3 ==> es[2] == FromPort(SF1, ToPipe(sf));
    if i < |es| { assert Walk(g, n, p) == Send(g, n, es[i].fwd, p) + []; }
  }

  /** The built pipeline refines its meaning: every handled packet, from any port, for every role. */
  lemma PipelineMeans(g: seq<Pipe>, o: Opts, l: Layout, buckets: seq<PathId>, cnp: seq<nat>, p: Packet)
    requires Wired(g, o, l, buckets, cnp) && Handled(o, p)
    ensures Walk(g, l.root, p) == Meaning(o, buckets, cnp, p)
  {
    Demuxes(g, o, l.root, l.sf3, l.wire3, p);
    if p.port == WIRE { TopWire(g, o, l, buckets, cnp, p); } else { TopSf(g, o, l, buckets, cnp, p); }
  }
}
