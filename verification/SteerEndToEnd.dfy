/**
 A packet's whole way: out of the sender's SF through the egress pipeline, over the wire, and
 through the receiver's ingress pipeline into an SF; and the way back. Both ends may play any
 role that sends or receives data, the default one for both directions included.
 */
module SteerEndToEnd {
  import opened Words
  import opened Sampling
  import opened Pipes
  import opened SteerTables
  import opened SteerPipeline
  import ShareControl

  /** A host with its pipelines as built for its role, and the current bucket map and CNP entries. */
  datatype Host = Host(graph: seq<Pipe>, o: Opts, layout: Layout, buckets: seq<PathId>, cnp: seq<nat>)

  ghost predicate Running(h: Host) { Wired(h.graph, h.o, h.layout, h.buckets, h.cnp) }

  /** What leaves a host's pipelines for a packet they handle: IPv4, and ARP with ingress. */
  ghost function Through(h: Host, p: Packet): (out: seq<Delivery>)
    requires Running(h) && Handled(h.o, p)
    ensures out == Meaning(h.o, h.buckets, h.cnp, p)
  {
    PipelineMeans(h.graph, h.o, h.layout, h.buckets, h.cnp, p);
    Walk(h.graph, h.layout.root, p)
  }

  /** A frame arriving from the wire: the parser's metadata is the receiving host's own. */
  function Arrive(f: Frame, random: u16, hash: nat, bucket: nat): Packet { Packet(f, WIRE, random, hash, bucket) }

  /** Port of the SF that owns receiver address `r`. */
  function SfOf(r: PathId): nat { 1 + r }

  /** The sending host's byte. */
  function SentTos(h: Host, hash: nat): bv8
    requires |h.buckets| == BUCKETS
  {
    PathBit(EgressPath(h.o, h.buckets, hash)) | ECT0
  }

  lemma WrittenBytes(path: PathId)
    ensures PathBit(path) | ECT0 == if path == 0 then ECT0 else 0x06
    ensures var tos := PathBit(path) | ECT0;
      PathOf(tos) == path && Masked(tos, CE, PATH_BIT | ECN_MASK) == CE && Masked(tos, 0, PATH_BIT) == ECT0
  {
  }

  // ---------- data ----------

  /** What the receiver's SF is promised: CE when the bucket's path is the address's and it was sampled. */
  function PromisedTos(o: Opts, path: PathId, r: PathId, random: u16): bv8 {
    if path == r && Sampled(Marking(o, r), random) then CE else ECT0
  }

  predicate Data(f: Frame) { f.l3.Ip4? && f.roce && f.destQp != QP1 }

  lemma ArrivesAt(o: Opts, cnp: seq<nat>, q: Packet, r: PathId, path: PathId)
    requires DoIngress(o) && o.ips.path0 != o.ips.path1 && q.frame.dstIp == Ip(o, r) && Data(q.frame)
    requires q.frame.tos == PathBit(path) | ECT0
    ensures FromWire(o, cnp, q) ==
            if DoEgress(o) && IsCountedCnp(q.frame, cnp) then [Delivered(SF0, q.frame)]
            else [Delivered(SfOf(r), q.frame.(tos := PromisedTos(o, path, r, q.random)))]
  {
    WrittenBytes(path);
  }

  lemma Sends(h: Host, p: Packet)
    requires Running(h) && DoEgress(h.o) && IsSf(h.o, p.port) && Data(p.frame)
    ensures Through(h, p) == [Delivered(WIRE, p.frame.(tos := SentTos(h, p.hash)))]
  {
  }

  lemma TakesIn(h: Host, q: Packet, r: PathId, path: PathId)
    requires Running(h) && DoIngress(h.o) && h.o.ips.path0 != h.o.ips.path1 && q.frame.dstIp == Ip(h.o, r)
    requires q.port == WIRE && Data(q.frame) && q.frame.tos == PathBit(path) | ECT0
    ensures Through(h, q) ==
            if DoEgress(h.o) && IsCountedCnp(q.frame, h.cnp) then [Delivered(SF0, q.frame)]
            else [Delivered(SfOf(r), q.frame.(tos := PromisedTos(h.o, path, r, q.random)))]
  {
    ArrivesAt(h.o, h.cnp, q, r, path);
  }

  /**
   Data from the sender to receiver address `r`: one copy, on that address's SF, marked CE
   exactly when its bucket's path is `r` and it was sampled, and ECT(0) otherwise. Only a CNP
   that the receiving host counts as a sender goes to SF 0 as it came off the wire.
   */
  lemma DataEndToEnd(h1: Host, h2: Host, p: Packet, r: PathId, random: u16, hash: nat, bucket: nat)
    requires Running(h1) && DoEgress(h1.o) && Running(h2) && DoIngress(h2.o)
    requires h2.o.ips.path0 != h2.o.ips.path1 && p.frame.dstIp == Ip(h2.o, r)
    requires IsSf(h1.o, p.port) && Data(p.frame)
    ensures var path := EgressPath(h1.o, h1.buckets, p.hash);
      var onWire := p.frame.(tos := PathBit(path) | ECT0);
      && Through(h1, p) == [Delivered(WIRE, onWire)]
      && Through(h2, Arrive(onWire, random, hash, bucket)) ==
         if DoEgress(h2.o) && IsCountedCnp(p.frame, h2.cnp) then [Delivered(SF0, onWire)]
         else [Delivered(SfOf(r), p.frame.(tos := PromisedTos(h2.o, path, r, random)))]
  {
    var path := EgressPath(h1.o, h1.buckets, p.hash);
    var onWire := p.frame.(tos := PathBit(path) | ECT0);
    Sends(h1, p);
    TakesIn(h2, Arrive(onWire, random, hash, bucket), r, path);
  }

  lemma SameDelivery(f: Frame, path: PathId, r: PathId, promised: bv8)
    requires promised == CE || promised == ECT0
    ensures Delivered(SF0, f.(tos := PathBit(path) | ECT0)) == Delivered(SfOf(r), f.(tos := promised)) <==>
            r == 0 && path == 0 && promised == ECT0
  {
    WrittenBytes(path);
    assert f.(tos := promised).tos == promised && f.(tos := PathBit(path) | ECT0).tos == PathBit(path) | ECT0;
  }

  /** The promise is kept exactly when the packet is not such a CNP, or is one for SF 0 on path 0 that nobody marks. */
  lemma DataPromisedIff(h1: Host, h2: Host, p: Packet, r: PathId, random: u16, hash: nat, bucket: nat)
    requires Running(h1) && DoEgress(h1.o) && Running(h2) && DoIngress(h2.o)
    requires h2.o.ips.path0 != h2.o.ips.path1 && p.frame.dstIp == Ip(h2.o, r)
    requires IsSf(h1.o, p.port) && Data(p.frame)
    ensures var path := EgressPath(h1.o, h1.buckets, p.hash);
      Through(h2, Arrive(p.frame.(tos := PathBit(path) | ECT0), random, hash, bucket)) ==
      [Delivered(SfOf(r), p.frame.(tos := PromisedTos(h2.o, path, r, random)))]
      <==>
      !(DoEgress(h2.o) && IsCountedCnp(p.frame, h2.cnp)) || (r == 0 && path == 0 && !Sampled(Marking(h2.o, 0), random))
  {
    var path := EgressPath(h1.o, h1.buckets, p.hash);
    DataEndToEnd(h1, h2, p, r, random, hash, bucket);
    SameDelivery(p.frame, path, r, PromisedTos(h2.o, path, r, random));
  }

  // ---------- how much of the data is marked ----------

  /** Treated data for receiver address `r` whose bucket is on path `r`, as it arrives from the wire. */
  predicate OnOwnPath(h: Host, f: Frame, r: PathId) {
    && DoIngress(h.o) && h.o.ips.path0 != h.o.ips.path1 && Data(f)
    && f.dstIp == (if r == 0 then h.o.ips.path0 else h.o.ips.path1) && f.tos == (if r == 0 then 0x02 else 0x06)
    && !(DoEgress(h.o) && IsCountedCnp(f, h.cnp))
  }

  /** The configured percentage of a receiver address. */
  function Percent(o: Opts, r: PathId): real { if r == 0 then o.percent0 else o.percent1 }

  /** The packet is delivered with CE when the hardware draws this random value. */
  ghost predicate DeliversCe(h: Host, f: Frame, random: u16, hash: nat, bucket: nat)
    requires Running(h) && f.l3.Ip4?
  {
    var out := Through(h, Arrive(f, random, hash, bucket));
    |out| == 1 && out[0].frame.tos == CE
  }

  /** How many of the random values below `n` deliver CE. */
  ghost function CeValues(h: Host, f: Frame, hash: nat, bucket: nat, n: nat): nat
    requires Running(h) && f.l3.Ip4? && n <= 0x1_0000
  {
    if n == 0 then 0
    else CeValues(h, f, hash, bucket, n - 1) + if DeliversCe(h, f, n - 1, hash, bucket) then 1 else 0
  }

  /** Marked exactly when the address's sampler selects the value. */
  lemma DeliversCeIff(h: Host, f: Frame, r: PathId, random: u16, hash: nat, bucket: nat)
    requires Running(h) && OnOwnPath(h, f, r)
    ensures DeliversCe(h, f, random, hash, bucket) <==> Sampled(CeTarget(Percent(h.o, r), WIDTH), random)
  {
    WrittenBytes(r);
    TakesIn(h, Arrive(f, random, hash, bucket), r, r);
    assert CE != ECT0;
  }

  function SampledValues(c: Ce, n: nat): nat {
    if n == 0 then 0 else SampledValues(c, n - 1) + if Sampled(c, n - 1) then 1 else 0
  }

  lemma {:induction false} SampledValuesAre(c: Ce, n: nat)
    ensures SampledValues(c, n) == if c.MarkAll? then n else if c.MarkNone? then 0 else Hits(c.mask, n)
  {
    if n > 0 { SampledValuesAre(c, n - 1); }
  }

  lemma {:induction false} CeValuesAre(h: Host, f: Frame, c: Ce, hash: nat, bucket: nat, n: nat)
    requires Running(h) && f.l3.Ip4? && n <= 0x1_0000
    requires forall random: u16 :: DeliversCe(h, f, random, hash, bucket) <==> Sampled(c, random)
    ensures CeValues(h, f, hash, bucket, n) == SampledValues(c, n)
  {
    if n > 0 { CeValuesAre(h, f, c, hash, bucket, n - 1); }
  }

  lemma {:induction false} CeValuesSampled(h: Host, f: Frame, r: PathId, hash: nat, bucket: nat)
    requires Running(h) && OnOwnPath(h, f, r)
    ensures CeValues(h, f, hash, bucket, 0x1_0000) == SampledValues(CeTarget(Percent(h.o, r), WIDTH), 0x1_0000)
    ensures forall random: u16 ::
              DeliversCe(h, f, random, hash, bucket) <==> Sampled(CeTarget(Percent(h.o, r), WIDTH), random)
  {
    var c := CeTarget(Percent(h.o, r), WIDTH);
    forall random: u16 ensures DeliversCe(h, f, random, hash, bucket) <==> Sampled(c, random) {
      DeliversCeIff(h, f, r, random, hash, bucket);
    }
    CeValuesAre(h, f, c, hash, bucket, 0x1_0000);
  }

  /**
   The marking rate of a receiver address, by its own percentage. From 50 percent up every random
   value delivers CE, from 0 down none does. In between, as only the packets on the address's own
   path can be marked, twice the percentage is asked of them: the 65536 values are hit so often that
   half of their share is below the percentage by less than a factor of two, exactly when twice the
   percentage is at least two values; and the number of values is a power of two.
   */
  lemma {:induction false} MarkingRate(h: Host, f: Frame, r: PathId, hash: nat, bucket: nat)
    requires Running(h) && OnOwnPath(h, f, r)
    ensures var percent := if r == 0 then h.o.percent0 else h.o.percent1;
      var n := CeValues(h, f, hash, bucket, 0x1_0000);
      var overall := n as real * 100.0 / 65536.0 / 2.0;
      && (percent >= 50.0 ==> n == 0x1_0000 && forall random: u16 :: DeliversCe(h, f, random, hash, bucket))
      && (percent <= 0.0 ==> n == 0 && forall random: u16 :: !DeliversCe(h, f, random, hash, bucket))
      && (0.0 < percent < 50.0 ==>
            && (exists i: nat :: n == Pow2(i))
            && (percent / 2.0 < overall <= percent <==> 2.0 * percent >= 200.0 / 65536.0)
            && (2.0 * percent < 200.0 / 65536.0 ==> overall > percent))
  {
    var percent := Percent(h.o, r);
    CeValuesSampled(h, f, r, hash, bucket);
    SampledValuesAre(CeTarget(percent, WIDTH), 0x1_0000);
    if 0.0 < percent < 50.0 { SampledShare(percent); }
  }

  lemma {:induction false} SampledShare(percent: real)
    requires 0.0 < percent < 50.0
    ensures var ce := CeTarget(percent, WIDTH);
      && ce.Sample? && (exists i: nat :: Hits(ce.mask, 0x1_0000) == Pow2(i))
      && var overall := Hits(ce.mask, 0x1_0000) as real * 100.0 / 65536.0 / 2.0;
        && (percent / 2.0 < overall <= percent <==> 2.0 * percent >= 200.0 / 65536.0)
        && (2.0 * percent < 200.0 / 65536.0 ==> overall > percent)
  {
    OverallRateIff(percent, WIDTH);
    WordIsPow();
    SupportedIsShare(15, 16);
    assert Pow2(1) == 2;
    var i := SampledPower(percent, WIDTH);
  }

  // ---------- the way back ----------

  /** What the ingress pipeline does not treat: it is delivered as it arrives. */
  predicate Bypasses(o: Opts, cnp: seq<nat>, f: Frame) {
    IsQp1(f) || !f.roce || !DoIngress(o) || (DoEgress(o) && IsCountedCnp(f, cnp))
  }

  /** From an SF of host 2 over the wire into host 1: one delivery each time, nothing changed. */
  ghost predicate ComesBack(h1: Host, h2: Host, p: Packet, random: u16, hash: nat, bucket: nat)
    requires Running(h1) && Running(h2) && p.frame.l3.Ip4?
  {
    var out := Through(h1, Arrive(p.frame, random, hash, bucket));
    Through(h2, p) == [Delivered(WIRE, p.frame)] && |out| == 1 && out[0].Delivered? && out[0].frame == p.frame
  }

  lemma UntouchedByte(tos: bv8)
    ensures Masked(tos, 0, PATH_BIT) == tos <==> tos & PATH_BIT == 0
    ensures Masked(tos, CE, PATH_BIT | ECN_MASK) == tos <==> tos & PATH_BIT == 0 && tos & ECN_MASK == CE
  {
  }

  /** The role writes no byte, or writes the one that is there. */
  predicate SentAsIs(h: Host, p: Packet)
    requires |h.buckets| == BUCKETS
  {
    !DoEgress(h.o) || !p.frame.roce || p.frame.tos == SentTos(h, p.hash)
  }

  /** The role does not look, or the path bit is clear and CE set if the packet is sampled. */
  predicate TakenAsIs(o: Opts, cnp: seq<nat>, f: Frame, random: u16) {
    Bypasses(o, cnp, f) ||
    (f.tos & PATH_BIT == 0 && (f.dstIp == Ip(o, 0) && Sampled(Marking(o, 0), random) ==> f.tos & ECN_MASK == CE))
  }

  lemma SameByte(f: Frame, tos: bv8)
    ensures f.(tos := tos) == f <==> tos == f.tos
  {
    assert f.(tos := tos).tos == tos;
  }

  lemma TakenMeans(o: Opts, cnp: seq<nat>, q: Packet)
    requires !IsQp1(q.frame)
    ensures var out := FromWire(o, cnp, q);
      |out| == 1 && out[0].Delivered? && (out[0].frame == q.frame <==> TakenAsIs(o, cnp, q.frame, q.random))
  {
    UntouchedByte(q.frame.tos);
    SameByte(q.frame, IngressTos(o, q));
  }

  lemma SentMeans(h: Host, p: Packet)
    requires |h.buckets| == BUCKETS && !IsQp1(p.frame)
    ensures FromSf(h.o, h.buckets, p) == [Delivered(WIRE, p.frame)] <==> SentAsIs(h, p)
  {
    SameByte(p.frame, SentTos(h, p.hash));
  }

  /** Reverse traffic, packet by packet and for every pair of roles: when it comes through unchanged. */
  lemma ReverseUnchanged(h1: Host, h2: Host, p: Packet, random: u16, hash: nat, bucket: nat)
    requires Running(h1) && Running(h2) && IsSf(h2.o, p.port) && p.frame.l3.Ip4? && !IsQp1(p.frame)
    ensures ComesBack(h1, h2, p, random, hash, bucket) <==>
            SentAsIs(h2, p) && TakenAsIs(h1.o, h1.cnp, p.frame, random)
  {
    SentMeans(h2, p);
    TakenMeans(h1.o, h1.cnp, Arrive(p.frame, random, hash, bucket));
  }

  /** All of it comes through unchanged. */
  ghost predicate ReverseClean(h1: Host, h2: Host)
    requires Running(h1) && Running(h2)
  {
    forall p: Packet, random: u16, hash: nat, bucket: nat ::
      IsSf(h2.o, p.port) && p.frame.l3.Ip4? && !IsQp1(p.frame) ==> ComesBack(h1, h2, p, random, hash, bucket)
  }

  lemma OddByte(path: PathId)
    ensures PathBit(path) | ECT0 != 0x04 && (0x04 as bv8) & PATH_BIT != 0
  {
  }

  /** RoCE data, not a CNP, with just the path bit set. */
  function OddPacket(): (p: Packet)
    ensures p.port == SF0 && Data(p.frame) && p.frame.tos == 0x04 && p.frame.opcode == 0
  {
    Packet(Frame(Ip4, 0x04, 0, 0, true, 2, 0, []), SF0, 0, 0, 0)
  }

  /** Every host that writes the byte changes it on the way out, and every one that treats it on the way in. */
  lemma OddPacketChanges(h2: Host, o1: Opts, cnp: seq<nat>, p: Packet)
    requires |h2.buckets| == BUCKETS && !(o1.role.Egress? && h2.o.role.Ingress?)
    requires Data(p.frame) && p.frame.tos == 0x04 && p.frame.opcode == 0
    ensures !(SentAsIs(h2, p) && TakenAsIs(o1, cnp, p.frame, 0))
  {
    OddByte(EgressPath(h2.o, h2.buckets, p.hash));
  }

  lemma ReverseTouched(h1: Host, h2: Host)
    requires Running(h1) && Running(h2) && !(h1.o.role.Egress? && h2.o.role.Ingress?)
    ensures !ReverseClean(h1, h2)
  {
    var p := OddPacket();
    OddPacketChanges(h2, h1.o, h1.cnp, p);
    ReverseUnchanged(h1, h2, p, 0, 0, 0);
  }

  /** Exactly when the one host only sends data and the other only receives it; never with a host that does both. */
  lemma ReverseCleanIff(h1: Host, h2: Host)
    requires Running(h1) && Running(h2)
    ensures ReverseClean(h1, h2) <==> h1.o.role.Egress? && h2.o.role.Ingress?
  {
    if h1.o.role.Egress? && h2.o.role.Ingress? {
      forall p: Packet, random: u16, hash: nat, bucket: nat | IsSf(h2.o, p.port) && p.frame.l3.Ip4? && !IsQp1(p.frame)
        ensures ComesBack(h1, h2, p, random, hash, bucket)
      {
        ReverseUnchanged(h1, h2, p, random, hash, bucket);
      }
    } else {
      ReverseTouched(h1, h2);
    }
  }

  /** A connection-management packet on either host: one untouched delivery and one untouched CPU copy. */
  lemma Qp1Cloned(h: Host, p: Packet)
    requires Running(h) && p.frame.l3.Ip4? && p.frame.roce && p.frame.destQp == 1
    requires p.port == WIRE || IsSf(h.o, p.port)
    ensures var port := if p.port == WIRE then ReceiverPort(h.o, p.frame) else WIRE;
      Through(h, p) == [Delivered(port, p.frame), Cpu(0, p.frame)]
  {
  }

  /**
   Which SF gets what arrives, for every role and every IPv4 packet: the second one exactly with
   ingress and for the address of path 1, as long as the two addresses differ and it is no counted CNP.
   Traffic that is not RoCE is delivered once and unchanged.
   */
  lemma ReceivedBy(h: Host, p: Packet)
    requires Running(h) && p.port == WIRE && p.frame.l3.Ip4?
    ensures var out := Through(h, p);
      var second := DoIngress(h.o) && h.o.ips.path0 != h.o.ips.path1 && p.frame.dstIp == h.o.ips.path1;
      var counted := DoEgress(h.o) && p.frame.roce && p.frame.destQp != 1 && p.frame.opcode == 0x81 &&
                     p.frame.destQp in h.cnp;
      && |out| > 0 && out[0].Delivered? && out[0].port == (if second && !counted then SF1 else SF0)
      && (!p.frame.roce ==> out == [Delivered(if second then SF1 else SF0, p.frame)])
  {
  }

  /** What an SF sends, for every role: to the wire, once; QP1 with a CPU copy; unchanged unless it is RoCE data. */
  lemma SentBy(h: Host, p: Packet)
    requires Running(h) && IsSf(h.o, p.port) && p.frame.l3.Ip4?
    ensures var out := Through(h, p);
      && |out| == (if p.frame.roce && p.frame.destQp == 1 then 2 else 1)
      && out[0].Delivered? && out[0].port == WIRE && out[0].frame == p.frame.(tos := out[0].frame.tos)
      && (|out| == 2 ==> out[1] == Cpu(0, p.frame))
      && (!p.frame.roce || p.frame.destQp == 1 || h.o.role.Ingress? ==> out[0].frame == p.frame)
  {
    FromSfIs(h.o, h.buckets, p);
  }

  lemma FromSfIs(o: Opts, buckets: seq<PathId>, p: Packet)
    requires |buckets| == BUCKETS
    ensures var out := FromSf(o, buckets, p);
      && |out| == (if p.frame.roce && p.frame.destQp == 1 then 2 else 1)
      && out[0].Delivered? && out[0].port == WIRE && out[0].frame == p.frame.(tos := out[0].frame.tos)
      && (|out| == 2 ==> out[1] == Cpu(0, p.frame))
      && (!p.frame.roce || p.frame.destQp == 1 || o.role.Ingress? ==> out[0].frame == p.frame)
  {
  }

  /** ARP, on a host with ingress: from the wire to both SFs, from an SF to the wire. */
  lemma ArpThrough(h: Host, p: Packet)
    requires Running(h) && DoIngress(h.o) && p.frame.l3.Arp?
    ensures p.port == WIRE ==> Through(h, p) == [Delivered(SF0, p.frame), Delivered(SF1, p.frame)]
    ensures p.port == SF0 || p.port == SF1 ==> Through(h, p) == [Delivered(WIRE, p.frame)]
  {
  }

  /** What comes from no known port is dropped; an egress-only host knows one SF. */
  lemma UnknownPort(h: Host, p: Packet)
    requires Running(h) && Handled(h.o, p)
    ensures Through(h, p) == [] <==> p.port > 2 || (p.port == 2 && h.o.role.Egress?)
  {
  }

  /** A forced path takes all RoCE data, whatever its hash: byte 0x02 for path 0, 0x06 for path 1. */
  lemma ForcedPath(h: Host, p: Packet)
    requires Running(h) && DoEgress(h.o) && h.o.forcePath.Some? && IsSf(h.o, p.port) && Data(p.frame)
    ensures Through(h, p) == [Delivered(WIRE, p.frame.(tos := if h.o.forcePath.value == 0 then 0x02 else 0x06))]
  {
    Sends(h, p);
    WrittenBytes(h.o.forcePath.value);
  }

  /** Otherwise the bucket of the hash decides: its low six bits. */
  lemma BucketPath(h: Host, p: Packet)
    requires Running(h) && DoEgress(h.o) && h.o.forcePath.None? && IsSf(h.o, p.port) && Data(p.frame)
    ensures Through(h, p) ==
            [Delivered(WIRE, p.frame.(tos := if h.buckets[p.hash % 64] == 0 then 0x02 else 0x06))]
  {
    Sends(h, p);
    WrittenBytes(h.buckets[p.hash % 64]);
  }

  // ---------- the private path bit ----------

  predicate HasPathBit(f: Frame) { f.tos & PATH_BIT != 0 }

  lemma IngressByte(tos: bv8)
    ensures Masked(tos, CE, PATH_BIT | ECN_MASK) & PATH_BIT == 0 && Masked(tos, 0, PATH_BIT) & PATH_BIT == 0
    ensures Masked(tos, CE, PATH_BIT | ECN_MASK) & 0xF8 == tos & 0xF8 && Masked(tos, 0, PATH_BIT) & 0xF8 == tos & 0xF8
    ensures Masked(tos, CE, PATH_BIT | ECN_MASK) & ECN_MASK == CE &&
            Masked(tos, 0, PATH_BIT) & ECN_MASK == tos & ECN_MASK
  {
  }

  /** The byte with the path bit cleared, the other DSCP bits as they were, and the ECN field as it was or CE. */
  predicate CleanedFrom(tos: bv8, clean: bv8) {
    clean & PATH_BIT == 0 && clean & 0xF8 == tos & 0xF8 &&
    (clean & ECN_MASK == CE || clean & ECN_MASK == tos & ECN_MASK)
  }

  lemma TreatedFrame(o: Opts, cnp: seq<nat>, q: Packet)
    ensures var out := FromWire(o, cnp, q);
      if Bypasses(o, cnp, q.frame) then |out| > 0 && forall i :: 0 <= i < |out| ==> out[i].frame == q.frame
      else
        && |out| == 1 && out[0].Delivered?
        && out[0].frame == q.frame.(tos := out[0].frame.tos) && CleanedFrom(q.frame.tos, out[0].frame.tos)
  {
    IngressByte(q.frame.tos);
  }

  /**
   What arrives from the wire, for every role: a packet the ingress pipeline treats is delivered
   once, with the path bit clear, the other DSCP bits as they were, and the ECN field as it was
   or CE; every other packet reaches the SFs and the CPU exactly as it came.
   */
  lemma PathBitHidden(h: Host, p: Packet)
    requires Running(h) && p.port == WIRE && p.frame.l3.Ip4?
    ensures var out := Through(h, p);
      if Bypasses(h.o, h.cnp, p.frame) then |out| > 0 && forall i :: 0 <= i < |out| ==> out[i].frame == p.frame
      else
        && |out| == 1 && out[0].Delivered?
        && out[0].frame == p.frame.(tos := out[0].frame.tos) && CleanedFrom(p.frame.tos, out[0].frame.tos)
  {
    TreatedFrame(h.o, h.cnp, p);
  }

  /** Exactly when the path bit leaves the pipeline: it came in with it, and bypassed the ingress pipeline. */
  lemma PathBitLeavesIff(h: Host, p: Packet)
    requires Running(h) && p.port == WIRE && p.frame.l3.Ip4?
    ensures var out := Through(h, p);
      && |out| > 0
      && forall i :: 0 <= i < |out| ==>
           (HasPathBit(out[i].frame) <==> HasPathBit(p.frame) && Bypasses(h.o, h.cnp, p.frame))
  {
    PathBitHidden(h, p);
  }

  /**
   In the default role, the one for both directions, the bit does reach an SF: a CNP for a counted
   sender, addressed to path 1 and carrying the byte that hosts of this role write for path 1, is
   delivered with the bit, and on SF 0 instead of the SF that owns the address.
   */
  lemma CountedCnpLeaks(h: Host, qpn: nat)
    requires Running(h) && h.o.role.Both? && h.o.ips.path0 != h.o.ips.path1 && qpn in h.cnp && qpn != QP1
    ensures var f := Frame(Ip4, 0x06, 0, h.o.ips.path1, true, qpn, OPCODE_CNP, []);
      && Through(h, Packet(f, WIRE, 0, 0, 0)) == [Delivered(SF0, f)]
      && HasPathBit(f) && ReceiverPort(h.o, f) == SF1
  {
    assert HasPathBit(Frame(Ip4, 0x06, 0, h.o.ips.path1, true, qpn, OPCODE_CNP, []));
  }

  // ---------- the other DSCP bits ----------

  /**
   The egress write covers the whole byte, not just the path bit: it keeps the other DSCP bits
   exactly when they are all zero, so the class of a packet sent as DSCP 26 is lost.
   */
  lemma EgressKeepsDscpIff(h: Host, p: Packet)
    requires Running(h) && DoEgress(h.o) && IsSf(h.o, p.port) && Data(p.frame)
    ensures var out := Through(h, p);
      |out| == 1 && (out[0].frame.tos & 0xF8 == p.frame.tos & 0xF8 <==> p.frame.tos & 0xF8 == 0)
  {
    LowByte(EgressPath(h.o, h.buckets, p.hash));
  }

  /** DSCP 26 with ECT(0), the byte 0x6A, leaves as 0x02 or 0x06. */
  lemma Dscp26Lost(h: Host, p: Packet)
    requires Running(h) && DoEgress(h.o) && IsSf(h.o, p.port) && Data(p.frame) && p.frame.tos == 0x6A
    ensures var out := Through(h, p); |out| == 1 && (out[0].frame.tos == 0x02 || out[0].frame.tos == 0x06)
  {
    WrittenBytes(EgressPath(h.o, h.buckets, p.hash));
  }

  lemma LowByte(path: PathId)
    ensures (PathBit(path) | ECT0) & 0xF8 == 0
  {
  }

  // ---------- the bucket map is the share ----------

  /** The paths on which the hash values 0 .. n-1 leave. */
  function Leaving(o: Opts, buckets: seq<PathId>, n: nat): (paths: seq<PathId>)
    requires |buckets| == BUCKETS
    ensures |paths| == n && forall h :: 0 <= h < n ==> paths[h] == EgressPath(o, buckets, h)
  {
    if n == 0 then [] else Leaving(o, buckets, n - 1) + [EgressPath(o, buckets, n - 1)]
  }

  lemma ModBuckets(h: nat)
    requires h < BUCKETS
    ensures h % BUCKETS == h
  {
  }

  /**
   Of every 64 hash values as many leave on path 0 as there are buckets on it; with the map of
   share `s` installed these are `s`.
   */
  lemma ShareOfTraffic(o: Opts, buckets: seq<PathId>, share: nat)
    requires |buckets| == BUCKETS && o.forcePath.None?
    ensures ShareControl.OnPath0(Leaving(o, buckets, BUCKETS)) == ShareControl.OnPath0(buckets)
    ensures buckets == ShareControl.MapOf(share) ==>
            ShareControl.OnPath0(Leaving(o, buckets, BUCKETS)) == Min(share, BUCKETS)
  {
    var paths := Leaving(o, buckets, BUCKETS);
    forall h | 0 <= h < BUCKETS ensures paths[h] == buckets[h] { ModBuckets(h); }
    assert paths == buckets;
    if buckets == ShareControl.MapOf(share) { ShareControl.CountOfShare(buckets, share); }
  }
}
