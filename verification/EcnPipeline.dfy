/**
 The three ECN-marking programs: the plain solution, the DOCA 2.x capture by a shared mirror and
 the DOCA 3.x capture by flooding. The solution refines the no-op forwarder, its two counters
 add up to the traffic, and the two captures mean the same.
 */
module EcnPipeline {
  import opened Words
  import opened Sampling
  import opened Pipes

  const PF: nat := 0
  const SF: nat := 1
  const CE: bv8 := 0x03
  const WIDTH: nat := RANDOM_FIELD_WIDTH

  datatype Program = Solution | Mirroring(capture: bool) | Flooding(capture: bool)

  predicate Captures(g: Program) { !g.Solution? && g.capture }

  // ---------- the pipes ----------

  /** The solution's fallback takes everything; the capturing programs' takes IPv4 only. */
  function PassthroughPipe(g: Program): Pipe {
    Basic([Entry(if g.Solution? then ANY else IP4, Keep, ToPort(SF))], Library, None)
  }

  function CpuPipe(): Pipe { Basic([Entry(IP4, Keep, ToCpu(0))], Library, None) }

  function MirrorOf(g: Program, l: Layout): Option<Fwd> {
    if g.Mirroring? && g.capture then Some(ToPipe(l.cpu)) else None
  }

  function HitOf(g: Program, l: Layout): Fwd { if g.Flooding? && g.capture then ToPipe(l.flood) else ToPort(SF) }

  /** PASS and MARK; MARK writes the whole ToS byte. */
  function ForwardPipe(g: Program, l: Layout, mark: bool): Pipe {
    Basic([Entry(IP4, if mark then WriteTos(CE, 0xFF) else Keep, HitOf(g, l))], ToPipe(l.passthrough), MirrorOf(g, l))
  }

  /** The no-op root and the real one differ in where the wire goes. */
  function RootPipe(wire: Fwd): Pipe { Basic([FromPort(PF, wire), FromPort(SF, ToPort(PF))], Drop, None) }

  datatype Layout = Layout(passthrough: nat, cpu: nat, flood: nat, pass: nat, mark: nat, target: nat, root: nat)

  predicate CaptureAt(g: seq<Pipe>, prog: Program, l: Layout) {
    Captures(prog) ==>
      At(g, l.cpu, CpuPipe()) && (prog.Flooding? ==> At(g, l.flood, Flood([ToPipe(l.passthrough), ToPipe(l.cpu)])))
  }

  predicate TargetAt(g: seq<Pipe>, percent: real, l: Layout) {
    if percent >= 100.0 then l.target == l.mark
    else if percent <= 0.0 then l.target == l.pass
    else At(g, l.target, SamplePipe(Mask(MaskBits(percent, WIDTH)), l.mark, l.pass))
  }

  /** The graph is the one `build_pipeline` builds; there is no MARK at 0 percent. */
  ghost predicate Built(g: seq<Pipe>, prog: Program, percent: real, l: Layout) {
    && Ordered(g)
    && At(g, l.passthrough, PassthroughPipe(prog))
    && CaptureAt(g, prog, l)
    && At(g, l.pass, ForwardPipe(prog, l, false))
    && (percent > 0.0 ==> At(g, l.mark, ForwardPipe(prog, l, true)))
    && TargetAt(g, percent, l)
    && At(g, l.root, RootPipe(ToPipe(l.target)))
  }

  // ---------- the builder ----------

  /** The mirroring program creates its CPU pipe before the fallback, the flooding one after it. */
  method CreateEnds(port: FlowPort, prog: Program) returns (passthrough: nat, cpu: nat, flood: nat)
    requires port.pipes == []
    modifies port
    ensures Ordered(port.pipes) && At(port.pipes, passthrough, PassthroughPipe(prog)) && flood < |port.pipes|
    ensures cpu < |port.pipes|
    ensures Captures(prog) ==>
      At(port.pipes, cpu, CpuPipe()) &&
        (prog.Flooding? ==> At(port.pipes, flood, Flood([ToPipe(passthrough), ToPipe(cpu)])))
  {
    cpu, flood := 0, 0;
    if prog.Mirroring? && prog.capture {
      cpu := port.CreatePipe(CpuPipe());
    }
    passthrough := port.CreatePipe(PassthroughPipe(prog));
    if prog.Flooding? && prog.capture {
      cpu := port.CreatePipe(CpuPipe());
      flood := port.CreatePipe(Flood([ToPipe(passthrough), ToPipe(cpu)]));
    }
  }

  method CreateTarget(port: FlowPort, percent: real, mark: nat, pass: nat) returns (target: nat)
    requires Ordered(port.pipes) && mark < |port.pipes| && pass < |port.pipes|
    modifies port
    ensures Ordered(port.pipes) && old(port.pipes) <= port.pipes && target < |port.pipes|
    ensures if percent >= 100.0 then target == mark
            else if percent <= 0.0 then target == pass
            else At(port.pipes, target, SamplePipe(Mask(MaskBits(percent, WIDTH)), mark, pass))
  {
    if percent >= 100.0 {
      target := mark;
    } else if percent <= 0.0 {
      target := pass;
    } else {
      var mask := GetRandomMask(percent);
      target := port.CreatePipe(SamplePipe(mask, mark, pass));
    }
  }

  method CreateForwards(port: FlowPort, prog: Program, percent: real, passthrough: nat, cpu: nat, flood: nat)
      returns (l: Layout)
    requires Ordered(port.pipes) && passthrough < |port.pipes| && cpu < |port.pipes| && flood < |port.pipes|
    modifies port
    ensures Ordered(port.pipes) && old(port.pipes) <= port.pipes && l.pass < |port.pipes| && l.mark < |port.pipes|
    ensures l.passthrough == passthrough && l.cpu == cpu && l.flood == flood
    ensures At(port.pipes, l.pass, ForwardPipe(prog, l, false))
    ensures percent > 0.0 ==> At(port.pipes, l.mark, ForwardPipe(prog, l, true))
  {
    l := Layout(passthrough, cpu, flood, 0, 0, 0, 0);
    var pass := port.CreatePipe(ForwardPipe(prog, l, false));
    var mark := 0;
    if percent > 0.0 {
      mark := port.CreatePipe(ForwardPipe(prog, l, true));
    }
    l := Layout(passthrough, cpu, flood, pass, mark, 0, 0);
  }

  method BuildPipeline(port: FlowPort, prog: Program, percent: real) returns (l: Layout)
    requires port.pipes == []
    modifies port
    ensures Built(port.pipes, prog, percent, l)
  {
    var passthrough, cpu, flood := CreateEnds(port, prog);
    l := CreateForwards(port, prog, percent, passthrough, cpu, flood);
    var target := CreateTarget(port, percent, l.mark, l.pass);
    var root := port.CreatePipe(RootPipe(ToPipe(target)));
    l := l.(target := target, root := root);
  }

  // ---------- what the programs mean ----------

  predicate Selected(percent: real, random: nat) {
    percent >= 100.0 || (percent > 0.0 && Hit(random, Mask(MaskBits(percent, WIDTH))))
  }

  predicate WireIp4(p: Packet) { p.port == PF && p.frame.l3.Ip4? }

  function Out(percent: real, p: Packet): Frame {
    if WireIp4(p) && Selected(percent, p.random) then p.frame.(tos := CE) else p.frame
  }

  function Meaning(prog: Program, percent: real, p: Packet): seq<Delivery> {
    var f := Out(percent, p);
    if WireIp4(p) then [Delivered(SF, f)] + if Captures(prog) then [Cpu(0, f)] else []
    else if p.port == PF then [if prog.Solution? then Delivered(SF, f) else Undecided(f)]
    else if p.port == SF then [Delivered(PF, f)]
    else []
  }

  lemma Captured(g: seq<Pipe>, prog: Program, l: Layout, p: Packet)
    requires Ordered(g) && At(g, l.passthrough, PassthroughPipe(prog)) && CaptureAt(g, prog, l) && p.frame.l3.Ip4?
    ensures Walk(g, l.passthrough, p) == [Delivered(SF, p.frame)]
    ensures Captures(prog) ==> Walk(g, l.cpu, p) == [Cpu(0, p.frame)]
    ensures Captures(prog) && prog.Flooding? ==> Walk(g, l.flood, p) == [Delivered(SF, p.frame), Cpu(0, p.frame)]
  {
    OneEntry(g, l.passthrough, p);
    if Captures(prog) {
      OneEntry(g, l.cpu, p);
      if prog.Flooding? { FloodOfTwo(g, l.flood, p); }
    }
  }

  /** PASS and MARK on IPv4: one delivery, and one copy of the same packet when capturing. */
  lemma Forwards(g: seq<Pipe>, prog: Program, l: Layout, n: nat, mark: bool, p: Packet)
    requires Ordered(g) && At(g, l.passthrough, PassthroughPipe(prog)) && CaptureAt(g, prog, l)
    requires At(g, n, ForwardPipe(prog, l, mark)) && p.frame.l3.Ip4?
    ensures var f := if mark then p.frame.(tos := CE) else p.frame;
      Walk(g, n, p) == [Delivered(SF, f)] + if Captures(prog) then [Cpu(0, f)] else []
  {
    assert PipeOk(g[n], n);
    var e := g[n].entries[0];
    var q := Act(e.action, p);
    Captured(g, prog, l, q);
    assert Matches(e.match_, p) && FirstHit(g[n].entries, p) == 0;
    assert q.frame == if mark then p.frame.(tos := CE) else p.frame;
    assert Walk(g, n, p) == Send(g, n, e.fwd, q) + if g[n].mirror.Some? then Send(g, n, g[n].mirror.value, q) else [];
  }

  lemma FallsThrough(g: seq<Pipe>, prog: Program, l: Layout, n: nat, mark: bool, p: Packet)
    requires Ordered(g) && At(g, l.passthrough, PassthroughPipe(prog)) && At(g, n, ForwardPipe(prog, l, mark))
    requires !p.frame.l3.Ip4?
    ensures Walk(g, n, p) == [if prog.Solution? then Delivered(SF, p.frame) else Undecided(p.frame)]
  {
    assert PipeOk(g[n], n);
    assert !Matches(g[n].entries[0].match_, p) && FirstHit(g[n].entries, p) == 1;
    OneEntry(g, l.passthrough, p);
  }

  lemma Samples(g: seq<Pipe>, prog: Program, percent: real, l: Layout, p: Packet)
    requires Built(g, prog, percent, l)
    ensures var n := if Selected(percent, p.random) then l.mark else l.pass;
      n < |g| && l.target < |g| && Walk(g, l.target, p) == Walk(g, n, p)
  {
    if 0.0 < percent < 100.0 { OneEntry(g, l.target, p); }
  }

  lemma Roots(g: seq<Pipe>, n: nat, wire: Fwd, p: Packet)
    requires Ordered(g) && At(g, n, RootPipe(wire))
    ensures Earlier(wire, n)
    ensures Walk(g, n, p) == if p.port == PF then Send(g, n, wire, p)
            else if p.port == SF then [Delivered(PF, p.frame)] else []
  {
    TwoEntries(g, n, p);
  }

  /** Every program, every percentage, every packet. */
  lemma ProgramMeans(g: seq<Pipe>, prog: Program, percent: real, l: Layout, p: Packet)
    requires Built(g, prog, percent, l)
    ensures Walk(g, l.root, p) == Meaning(prog, percent, p)
  {
    Roots(g, l.root, ToPipe(l.target), p);
    if p.port == PF {
      Samples(g, prog, percent, l, p);
      var marked := Selected(percent, p.random);
      var n := if marked then l.mark else l.pass;
      if p.frame.l3.Ip4? { Forwards(g, prog, l, n, marked, p); } else { FallsThrough(g, prog, l, n, marked, p); }
    }
  }

  // ---------- the main results ----------

  /** The two sides agree up to the ToS byte of the packets they deliver. */
  ghost predicate SameFate(a: seq<Delivery>, b: seq<Delivery>) {
    && |a| == |b| <= 1
    && (|a| == 1 ==> a[0].Delivered? && b[0].Delivered? && a[0].port == b[0].port
                     && a[0].frame == b[0].frame.(tos := a[0].frame.tos))
  }

  /** The packet is delivered with CE when the hardware draws this random value. */
  ghost predicate LeavesCe(g: seq<Pipe>, root: nat, p: Packet, random: u16)
    requires Ordered(g) && root < |g|
  {
    var out := Walk(g, root, p.(random := random));
    |out| > 0 && out[0].Delivered? && out[0].frame.tos == CE
  }

  /** How many of the random values below `n` mark the packet. */
  ghost function CeValues(g: seq<Pipe>, root: nat, p: Packet, n: nat): nat
    requires Ordered(g) && root < |g| && n <= 0x1_0000
  {
    if n == 0 then 0 else CeValues(g, root, p, n - 1) + if LeavesCe(g, root, p, n - 1) then 1 else 0
  }

  lemma LeavesCeIff(g: seq<Pipe>, prog: Program, percent: real, l: Layout, p: Packet, random: u16)
    requires Built(g, prog, percent, l) && WireIp4(p) && p.frame.tos != CE
    ensures LeavesCe(g, l.root, p, random) <==> Selected(percent, random)
  {
    ProgramMeans(g, prog, percent, l, p.(random := random));
  }

  lemma {:induction false} CeValuesAre(g: seq<Pipe>, prog: Program, percent: real, l: Layout, p: Packet, n: nat)
    requires Built(g, prog, percent, l) && WireIp4(p) && p.frame.tos != CE && n <= 0x1_0000
    ensures CeValues(g, l.root, p, n) ==
            if percent >= 100.0 then n else if percent <= 0.0 then 0 else Hits(Mask(MaskBits(percent, WIDTH)), n)
  {
    if n > 0 {
      CeValuesAre(g, prog, percent, l, p, n - 1);
      LeavesCeIff(g, prog, percent, l, p, n - 1);
    }
  }

  lemma {:induction false} MaskShare(percent: real)
    requires 0.0 < percent < 100.0
    ensures var n := Hits(Mask(MaskBits(percent, WIDTH)), 0x1_0000);
      var share := n as real * 100.0 / 65536.0;
      && (exists i: nat :: n == Pow2(i))
      && (share <= percent < 2.0 * share <==> percent >= 100.0 / 65536.0)
      && (percent < 100.0 / 65536.0 ==> n == 1)
  {
    WordIsPow();
    RoundsDownIff(percent, WIDTH);
    HitsOfMask(MaskBits(percent, WIDTH), WIDTH);
    SupportedIsShare(WIDTH, WIDTH);
    if percent < Supported(WIDTH) { TinyRequestRoundsUp(percent, WIDTH); }
  }

  /**
   The marking rate of every program: all random values from 100 percent up, none from 0 down, and
   in between a power of two of the 65536 values, whose share is the percentage rounded down by less
   than half, exactly when the percentage is at least one value; below that it is one value.
   */
  lemma {:induction false} MarkingRate(g: seq<Pipe>, prog: Program, percent: real, l: Layout, p: Packet)
    requires Built(g, prog, percent, l) && WireIp4(p) && p.frame.tos != CE
    ensures var n := CeValues(g, l.root, p, 0x1_0000);
      var share := n as real * 100.0 / 65536.0;
      if percent >= 100.0 then n == 0x1_0000
      else if percent <= 0.0 then n == 0
      else
        && (exists i: nat :: n == Pow2(i))
        && (share <= percent < 2.0 * share <==> percent >= 100.0 / 65536.0)
        && (percent < 100.0 / 65536.0 ==> n == 1)
  {
    CeValuesAre(g, prog, percent, l, p, 0x1_0000);
    if 0.0 < percent < 100.0 { MaskShare(percent); }
  }

  /**
   The solution refines the no-op forwarder: every packet has the same fate, and its ToS byte
   changes, to CE, exactly when it is a selected IPv4 packet from the wire not yet carrying 0x03.
   */
  lemma RefinesNop(g: seq<Pipe>, percent: real, l: Layout, p: Packet)
    requires Built(g, Solution, percent, l)
    ensures var nop := [RootPipe(ToPort(SF))];
      && Ordered(nop) && SameFate(Walk(g, l.root, p), Walk(nop, 0, p))
      && (Walk(g, l.root, p) != Walk(nop, 0, p) <==> WireIp4(p) && Selected(percent, p.random) && p.frame.tos != CE)
  {
    var nop := [RootPipe(ToPort(SF))];
    ProgramMeans(g, Solution, percent, l, p);
    assert PipeOk(nop[0], 0);
    Roots(nop, 0, ToPort(SF), p);
    if WireIp4(p) && Selected(percent, p.random) && p.frame.tos != CE {
      assert Walk(g, l.root, p)[0].frame.tos == CE;
      assert Walk(nop, 0, p)[0].frame.tos == p.frame.tos;
    }
  }

  /** Capturing by mirror and by flood: the same deliveries and the same copies, in the same order. */
  lemma MirrorIsFlood(g2: seq<Pipe>, l2: Layout, g3: seq<Pipe>, l3: Layout, percent: real, capture: bool, p: Packet)
    requires Built(g2, Mirroring(capture), percent, l2) && Built(g3, Flooding(capture), percent, l3)
    ensures Walk(g2, l2.root, p) == Walk(g3, l3.root, p)
    ensures WireIp4(p) ==> var f := Out(percent, p);
      Walk(g3, l3.root, p) == if capture then [Delivered(SF, f), Cpu(0, f)] else [Delivered(SF, f)]
  {
    ProgramMeans(g2, Mirroring(capture), percent, l2, p);
    ProgramMeans(g3, Flooding(capture), percent, l3, p);
  }

  /**
   What every program does with IPv4, by port: from the uplink to the SF, copied to the CPU when
   capturing, the ToS byte untouched or CE; from the SF to the uplink unchanged; nothing else passes.
   */
  lemma ForwardsIpv4(g: seq<Pipe>, prog: Program, percent: real, l: Layout, p: Packet)
    requires Built(g, prog, percent, l) && p.frame.l3.Ip4?
    ensures var out := Walk(g, l.root, p);
      if p.port == 0 then
        && |out| == (if !prog.Solution? && prog.capture then 2 else 1)
        && out[0] == Delivered(1, p.frame.(tos := out[0].frame.tos))
        && (out[0].frame.tos == p.frame.tos || out[0].frame.tos == 0x03)
        && (|out| == 2 ==> out[1] == Cpu(0, out[0].frame))
      else out == if p.port == 1 then [Delivered(0, p.frame)] else []
  {
    ProgramMeans(g, prog, percent, l, p);
    assert Out(percent, p) == p.frame.(tos := Out(percent, p).tos);
  }

  // ---------- the two counters ----------

  /** Hits of pipe `c` over a whole stream of packets. */
  ghost function Counter(g: seq<Pipe>, root: nat, c: nat, ps: seq<Packet>): nat
    requires Ordered(g) && root < |g|
  {
    if |ps| == 0 then 0 else Counter(g, root, c, ps[..|ps| - 1]) + Count(g, root, c, ps[|ps| - 1])
  }

  function Wire4(ps: seq<Packet>): nat {
    if |ps| == 0 then 0 else Wire4(ps[..|ps| - 1]) + if WireIp4(ps[|ps| - 1]) then 1 else 0
  }

  function Marked(percent: real, ps: seq<Packet>): nat {
    if |ps| == 0 then 0
    else
      var p := ps[|ps| - 1];
      Marked(percent, ps[..|ps| - 1]) + if WireIp4(p) && Selected(percent, p.random) then 1 else 0
  }

  lemma CountsHere(g: seq<Pipe>, prog: Program, l: Layout, n: nat, mark: bool, c: nat, p: Packet)
    requires Ordered(g) && At(g, l.passthrough, PassthroughPipe(prog)) && At(g, n, ForwardPipe(prog, l, mark))
    requires c > l.passthrough && (Captures(prog) ==> c > if prog.Flooding? then l.flood else l.cpu)
    ensures Count(g, n, c, p) == if c == n && p.frame.l3.Ip4? then 1 else 0
  {
    assert PipeOk(g[n], n);
    var e := g[n].entries[0];
    var q := Act(e.action, p);
    if p.frame.l3.Ip4? {
      assert Matches(e.match_, p) && FirstHit(g[n].entries, p) == 0;
      SentBelow(g, n, e.fwd, c, q);
      if g[n].mirror.Some? { SentBelow(g, n, g[n].mirror.value, c, q); }
    } else {
      assert !Matches(e.match_, p) && FirstHit(g[n].entries, p) == 1;
      SentBelow(g, n, ToPipe(l.passthrough), c, p);
    }
  }

  /** What is sent to a pipe older than `c` is not counted at `c`. */
  lemma SentBelow(g: seq<Pipe>, n: nat, f: Fwd, c: nat, p: Packet)
    requires Ordered(g) && n < |g| && Earlier(f, n) && (f.ToPipe? ==> f.pipe < c)
    ensures CountSent(g, n, f, c, p) == 0
  {
    if f.ToPipe? { CountsOnlyBelow(g, f.pipe, c, p); }
  }

  lemma CountOne(g: seq<Pipe>, n: nat, c: nat, p: Packet)
    requires Ordered(g) && n < |g| && g[n].Basic? && |g[n].entries| == 1 && g[n].mirror.None? && c != n
    ensures var e := g[n].entries[0];
      && Earlier(e.fwd, n) && Earlier(g[n].miss, n)
      && Count(g, n, c, p) ==
         if Matches(e.match_, p) then CountSent(g, n, e.fwd, c, Act(e.action, p)) else CountSent(g, n, g[n].miss, c, p)
  {
    assert PipeOk(g[n], n);
    assert FirstHit(g[n].entries, p) == if Matches(g[n].entries[0].match_, p) then 0 else 1;
  }

  lemma RootCounts(g: seq<Pipe>, n: nat, wire: nat, c: nat, p: Packet)
    requires Ordered(g) && At(g, n, RootPipe(ToPipe(wire))) && c != n
    ensures wire < n && Count(g, n, c, p) == if p.port == PF then Count(g, wire, c, p) else 0
  {
    assert PipeOk(g[n], n);
    var es := g[n].entries;
    assert FirstHit(es, p) == if p.port == PF then 0 else if p.port == SF then 1 else 2;
  }

  lemma TargetCounts(g: seq<Pipe>, prog: Program, percent: real, l: Layout, c: nat, p: Packet)
    requires Built(g, prog, percent, l) && (0.0 < percent < 100.0 ==> c != l.target)
    ensures var n := if Selected(percent, p.random) then l.mark else l.pass;
      n < |g| && l.target < |g| && Count(g, l.target, c, p) == Count(g, n, c, p)
  {
    if 0.0 < percent < 100.0 { CountOne(g, l.target, c, p); }
  }

  /** Each IPv4 packet from the wire is counted once: at MARK if it was selected, else at PASS. */
  lemma CountsOnce(g: seq<Pipe>, prog: Program, percent: real, l: Layout, p: Packet)
    requires Built(g, prog, percent, l)
    ensures Count(g, l.root, l.pass, p) == if WireIp4(p) && !Selected(percent, p.random) then 1 else 0
    ensures percent > 0.0 ==> Count(g, l.root, l.mark, p) == if WireIp4(p) && Selected(percent, p.random) then 1 else 0
  {
    CountsAt(g, prog, percent, l, false, p);
    if percent > 0.0 { CountsAt(g, prog, percent, l, true, p); }
  }

  lemma EndsBelow(g: seq<Pipe>, prog: Program, l: Layout, c: nat, mark: bool)
    requires Ordered(g) && At(g, c, ForwardPipe(prog, l, mark))
    ensures c > l.passthrough && (Captures(prog) ==> c > if prog.Flooding? then l.flood else l.cpu)
  {
    assert PipeOk(g[c], c);
    assert Earlier(g[c].entries[0].fwd, c);
  }

  lemma CountsAt(g: seq<Pipe>, prog: Program, percent: real, l: Layout, mark: bool, p: Packet)
    requires Built(g, prog, percent, l) && (mark ==> percent > 0.0)
    ensures Count(g, l.root, if mark then l.mark else l.pass, p) ==
      if WireIp4(p) && Selected(percent, p.random) == mark then 1 else 0
  {
    var c := if mark then l.mark else l.pass;
    EndsBelow(g, prog, l, c, mark);
    RootCounts(g, l.root, l.target, c, p);
    TargetCounts(g, prog, percent, l, c, p);
    var hit := Selected(percent, p.random);
    var n := if hit then l.mark else l.pass;
    assert (c == n) == (hit == mark) by { if c == n { assert g[c].entries[0].action == g[n].entries[0].action; } }
    CountsHere(g, prog, l, n, hit, c, p);
  }

  /** The two counters of the report: over any stream they add up to the IPv4 packets from the wire. */
  lemma {:induction false} CountersAddUp(g: seq<Pipe>, prog: Program, percent: real, l: Layout, ps: seq<Packet>)
    requires Built(g, prog, percent, l)
    ensures Counter(g, l.root, l.pass, ps) == Wire4(ps) - Marked(percent, ps)
    ensures percent > 0.0 ==> Counter(g, l.root, l.mark, ps) == Marked(percent, ps)
    ensures percent <= 0.0 ==> Marked(percent, ps) == 0
  {
    if |ps| > 0 {
      CountersAddUp(g, prog, percent, l, ps[..|ps| - 1]);
      CountsOnce(g, prog, percent, l, ps[|ps| - 1]);
    }
  }
}
