/**
 Hardware packet pipes as data, with an interpreter. A pipe is a list of entries (match,
 action, forward) with a miss forward; a flooding pipe copies a packet to every target; a
 hash pipe picks one entry. A graph lists pipes in creation order, and a pipe can only be
 forwarded to once it exists.
 */
module Pipes {
  import opened Words
  import opened Sampling

  datatype L3 = Ip4 | Arp | OtherL3

  /** What is on the wire. The address, RoCE and ToS fields mean something for IPv4 only. */
  datatype Frame = Frame(
    l3: L3, tos: bv8, srcIp: u32, dstIp: u32, roce: bool, destQp: nat, opcode: u8, payload: seq<u8>)

  /** What the parser adds: source port, random value, hash of the packet, scratch bucket. */
  datatype Packet = Packet(frame: Frame, port: nat, random: u16, hash: nat, bucket: nat)

  /** A field that is None, or a ToS or random bit outside its mask, is not compared. */
  datatype Match = Match(
    port: Option<nat>, ip4: bool, arp: bool, roce: bool, dstIp: Option<u32>, destQp: Option<nat>,
    opcode: Option<u8>, bucket: Option<nat>, tos: bv8, tosMask: bv8, randomMask: nat)

  const ANY := Match(None, false, false, false, None, None, None, None, 0, 0, 0)
  const IP4 := ANY.(ip4 := true)
  const ROCE := IP4.(roce := true)

  predicate Wants<T(==)>(o: Option<T>, x: T) { o.None? || o.value == x }

  predicate Matches(m: Match, p: Packet) {
    && Wants(m.port, p.port)
    && (m.ip4 ==> p.frame.l3.Ip4?)
    && (m.arp ==> p.frame.l3.Arp?)
    && (m.roce ==> p.frame.roce)
    && Wants(m.dstIp, p.frame.dstIp)
    && Wants(m.destQp, p.frame.destQp)
    && Wants(m.opcode, p.frame.opcode)
    && Wants(m.bucket, p.bucket)
    && p.frame.tos & m.tosMask == m.tos & m.tosMask
    && Hit(p.random, m.randomMask)
  }

  datatype Action = Keep | WriteTos(value: bv8, mask: bv8) | SetBucket(bucket: nat)

  function Masked(tos: bv8, value: bv8, mask: bv8): bv8 { (tos & !mask) | (value & mask) }

  function Act(a: Action, p: Packet): Packet {
    match a
    case Keep => p
    case WriteTos(value, mask) => p.(frame := p.frame.(tos := Masked(p.frame.tos, value, mask)))
    case SetBucket(b) => p.(bucket := b)
  }

  /** `Library` is a NULL miss forward: what becomes of the packet is the library's choice. */
  datatype Fwd = ToPort(port: nat) | ToPipe(pipe: nat) | ToCpu(queue: nat) | Drop | Library

  datatype Entry = Entry(match_: Match, action: Action, fwd: Fwd)

  /** `mirror`, if any, gets a copy of every hit after the entry's action. */
  datatype Pipe =
    | Basic(entries: seq<Entry>, miss: Fwd, mirror: Option<Fwd>)
    | Flood(targets: seq<Fwd>)
    | Hash(entries: seq<Entry>)

  /** Index of the first matching entry, or their number. */
  function FirstHit(es: seq<Entry>, p: Packet): (i: nat)
    ensures i <= |es| && (i < |es| ==> Matches(es[i].match_, p))
    ensures forall j :: 0 <= j < i ==> !Matches(es[j].match_, p)
  {
    if |es| == 0 || Matches(es[0].match_, p) then 0 else 1 + FirstHit(es[1..], p)
  }

  // ---------- graphs in creation order ----------

  predicate Earlier(f: Fwd, n: nat) { f.ToPipe? ==> f.pipe < n }

  ghost predicate EarlierAll(es: seq<Entry>, n: nat) { forall i :: 0 <= i < |es| ==> Earlier(es[i].fwd, n) }

  /** Every hit, miss, mirror and flooding forward of the pipe goes to one of the first `n` pipes. */
  ghost predicate PipeOk(x: Pipe, n: nat) {
    match x
    case Basic(es, miss, mirror) => EarlierAll(es, n) && Earlier(miss, n) && (mirror.Some? ==> Earlier(mirror.value, n))
    case Flood(ts) => forall i :: 0 <= i < |ts| ==> Earlier(ts[i], n)
    case Hash(es) => |es| > 0 && EarlierAll(es, n)
  }

  ghost predicate Ordered(g: seq<Pipe>) { forall n :: 0 <= n < |g| ==> PipeOk(g[n], n) }

  lemma {:induction false} AppendOrdered(g: seq<Pipe>, x: Pipe)
    requires Ordered(g) && PipeOk(x, |g|)
    ensures Ordered(g + [x])
  {
  }

  predicate At(g: seq<Pipe>, n: nat, x: Pipe) { n < |g| && g[n] == x }

  // ---------- pipes several programs share ----------

  /** A random test that sends a fraction of the packets one way and the rest another. */
  function SamplePipe(mask: nat, hit: nat, miss: nat): Pipe {
    Basic([Entry(ANY.(randomMask := mask), Keep, ToPipe(hit))], ToPipe(miss), None)
  }

  function FromPort(port: nat, fwd: Fwd): Entry { Entry(ANY.(port := Some(port)), Keep, fwd) }

  // ---------- building a graph ----------

  /** A port under construction: its pipes, in creation order. */
  class FlowPort {
    var pipes: seq<Pipe>

    constructor ()
      ensures pipes == []
    {
      pipes := [];
    }

    /** A pipe may only forward to pipes that exist already. */
    method CreatePipe(x: Pipe) returns (n: nat)
      requires Ordered(pipes) && PipeOk(x, |pipes|)
      modifies this
      ensures n == |old(pipes)| && pipes == old(pipes) + [x] && Ordered(pipes)
    {
      AppendOrdered(pipes, x);
      n := |pipes|;
      pipes := pipes + [x];
    }
  }

  // ---------- what a graph does with a packet ----------

  datatype Delivery = Delivered(port: nat, frame: Frame) | Cpu(queue: nat, frame: Frame) | Undecided(frame: Frame)

  /** The packets that leave the graph when `p` enters pipe `n`. */
  ghost function Walk(g: seq<Pipe>, n: nat, p: Packet): seq<Delivery>
    requires Ordered(g) && n < |g|
    decreases n, 1, 0
  {
    match g[n]
    case Basic(es, miss, mirror) =>
      var i := FirstHit(es, p);
      if i == |es| then Send(g, n, miss, p)
      else
        var q := Act(es[i].action, p);
        Send(g, n, es[i].fwd, q) + if mirror.Some? then Send(g, n, mirror.value, q) else []
    case Flood(ts) => SendAll(g, n, ts, |ts|, p)
    case Hash(es) => Send(g, n, es[p.hash % |es|].fwd, Act(es[p.hash % |es|].action, p))
  }

  ghost function Send(g: seq<Pipe>, n: nat, f: Fwd, p: Packet): seq<Delivery>
    requires Ordered(g) && n < |g| && Earlier(f, n)
    decreases n, 0, 0
  {
    match f
    case ToPort(d) => [Delivered(d, p.frame)]
    case ToPipe(k) => Walk(g, k, p)
    case ToCpu(q) => [Cpu(q, p.frame)]
    case Drop => []
    case Library => [Undecided(p.frame)]
  }

  ghost function SendAll(g: seq<Pipe>, n: nat, ts: seq<Fwd>, k: nat, p: Packet): seq<Delivery>
    requires Ordered(g) && n < |g| && k <= |ts| && forall i :: 0 <= i < |ts| ==> Earlier(ts[i], n)
    decreases n, 0, k + 1
  {
    if k == 0 then [] else SendAll(g, n, ts, k - 1, p) + Send(g, n, ts[k - 1], p)
  }

  // ---------- counters ----------

  /** How often entries of pipe `c` are hit when `p` enters pipe `n`. */
  ghost function Count(g: seq<Pipe>, n: nat, c: nat, p: Packet): nat
    requires Ordered(g) && n < |g|
    decreases n, 1, 0
  {
    match g[n]
    case Basic(es, miss, mirror) =>
      var i := FirstHit(es, p);
      if i == |es| then CountSent(g, n, miss, c, p)
      else
        var q := Act(es[i].action, p);
        (if n == c then 1 else 0) + CountSent(g, n, es[i].fwd, c, q) +
        if mirror.Some? then CountSent(g, n, mirror.value, c, q) else 0
    case Flood(ts) => CountAll(g, n, ts, |ts|, c, p)
    case Hash(es) => CountSent(g, n, es[p.hash % |es|].fwd, c, Act(es[p.hash % |es|].action, p))
  }

  ghost function CountSent(g: seq<Pipe>, n: nat, f: Fwd, c: nat, p: Packet): nat
    requires Ordered(g) && n < |g| && Earlier(f, n)
    decreases n, 0, 0
  {
    if f.ToPipe? then Count(g, f.pipe, c, p) else 0
  }

  ghost function CountAll(g: seq<Pipe>, n: nat, ts: seq<Fwd>, k: nat, c: nat, p: Packet): nat
    requires Ordered(g) && n < |g| && k <= |ts| && forall i :: 0 <= i < |ts| ==> Earlier(ts[i], n)
    decreases n, 0, k + 1
  {
    if k == 0 then 0 else CountAll(g, n, ts, k - 1, c, p) + CountSent(g, n, ts[k - 1], c, p)
  }

  /** A pipe counts nothing of what enters below it. */
  lemma {:induction false} CountsOnlyBelow(g: seq<Pipe>, n: nat, c: nat, p: Packet)
    requires Ordered(g) && n < |g| && n < c
    ensures Count(g, n, c, p) == 0
    decreases n, 1, 0
  {
    match g[n]
    case Basic(es, miss, mirror) =>
      var i := FirstHit(es, p);
      if i == |es| {
        SendsOnlyBelow(g, n, miss, c, p);
      } else {
        SendsOnlyBelow(g, n, es[i].fwd, c, Act(es[i].action, p));
        if mirror.Some? { SendsOnlyBelow(g, n, mirror.value, c, Act(es[i].action, p)); }
      }
    case Flood(ts) => FloodsOnlyBelow(g, n, ts, |ts|, c, p);
    case Hash(es) => SendsOnlyBelow(g, n, es[p.hash % |es|].fwd, c, Act(es[p.hash % |es|].action, p));
  }

  lemma {:induction false} SendsOnlyBelow(g: seq<Pipe>, n: nat, f: Fwd, c: nat, p: Packet)
    requires Ordered(g) && n < |g| && n < c && Earlier(f, n)
    ensures CountSent(g, n, f, c, p) == 0
    decreases n, 0, 0
  {
    if f.ToPipe? { CountsOnlyBelow(g, f.pipe, c, p); }
  }

  lemma {:induction false} FloodsOnlyBelow(g: seq<Pipe>, n: nat, ts: seq<Fwd>, k: nat, c: nat, p: Packet)
    requires Ordered(g) && n < |g| && n < c && k <= |ts| && forall i :: 0 <= i < |ts| ==> Earlier(ts[i], n)
    ensures CountAll(g, n, ts, k, c, p) == 0
    decreases n, 0, k + 1
  {
    if k > 0 {
      FloodsOnlyBelow(g, n, ts, k - 1, c, p);
      SendsOnlyBelow(g, n, ts[k - 1], c, p);
    }
  }

  // ---------- termination ----------

  ghost predicate Forwards(x: Pipe, f: Fwd) {
    match x
    case Basic(es, miss, mirror) =>
      (exists i :: 0 <= i < |es| && es[i].fwd == f) || miss == f || mirror == Some(f)
    case Flood(ts) => f in ts
    case Hash(es) => exists i :: 0 <= i < |es| && es[i].fwd == f
  }

  /** A way a packet may take: each pipe has some forward to the next. */
  ghost predicate Route(g: seq<Pipe>, path: seq<nat>) {
    && (forall i :: 0 <= i < |path| ==> path[i] < |g|)
    && (forall i :: 0 <= i < |path| - 1 ==> Forwards(g[path[i]], ToPipe(path[i + 1])))
  }

  /** Every route visits ever older pipes: no pipe twice, and at most as many as were created. */
  lemma {:induction false} RouteEnds(g: seq<Pipe>, path: seq<nat>)
    requires Ordered(g) && Route(g, path) && |path| > 0
    ensures |path| <= path[0] + 1 <= |g|
    ensures forall i :: 0 < i < |path| ==> path[i] < path[i - 1]
  {
    if |path| > 1 {
      assert PipeOk(g[path[0]], path[0]) && Forwards(g[path[0]], ToPipe(path[0 + 1]));
      var rest := path[1..];
      forall i | 0 <= i < |rest| - 1 ensures Forwards(g[rest[i]], ToPipe(rest[i + 1])) {
        assert Forwards(g[path[i + 1]], ToPipe(path[i + 1 + 1]));
      }
      RouteEnds(g, rest);
      forall i | 0 < i < |path| ensures path[i] < path[i - 1] {
        if i > 1 { assert rest[i - 1] < rest[i - 1 - 1]; }
      }
    }
  }

  /** Later pipes do not change what an earlier pipe does. */
  lemma {:induction false} LaterIrrelevant(g: seq<Pipe>, h: seq<Pipe>, n: nat, p: Packet)
    requires Ordered(g) && Ordered(g + h) && n < |g|
    ensures Walk(g + h, n, p) == Walk(g, n, p)
    decreases n, 1, 0
  {
    match g[n]
    case Basic(es, miss, mirror) =>
      var i := FirstHit(es, p);
      if i == |es| {
        LaterSend(g, h, n, miss, p);
      } else {
        LaterSend(g, h, n, es[i].fwd, Act(es[i].action, p));
        if mirror.Some? { LaterSend(g, h, n, mirror.value, Act(es[i].action, p)); }
      }
    case Flood(ts) => LaterSendAll(g, h, n, ts, |ts|, p);
    case Hash(es) => LaterSend(g, h, n, es[p.hash % |es|].fwd, Act(es[p.hash % |es|].action, p));
  }

  lemma {:induction false} LaterSend(g: seq<Pipe>, h: seq<Pipe>, n: nat, f: Fwd, p: Packet)
    requires Ordered(g) && Ordered(g + h) && n < |g| && Earlier(f, n)
    ensures Send(g + h, n, f, p) == Send(g, n, f, p)
    decreases n, 0, 0
  {
    if f.ToPipe? { LaterIrrelevant(g, h, f.pipe, p); }
  }

  lemma {:induction false} LaterSendAll(g: seq<Pipe>, h: seq<Pipe>, n: nat, ts: seq<Fwd>, k: nat, p: Packet)
    requires Ordered(g) && Ordered(g + h) && n < |g| && k <= |ts| && forall i :: 0 <= i < |ts| ==> Earlier(ts[i], n)
    ensures SendAll(g + h, n, ts, k, p) == SendAll(g, n, ts, k, p)
    decreases n, 0, k + 1
  {
    if k > 0 {
      LaterSendAll(g, h, n, ts, k - 1, p);
      LaterSend(g, h, n, ts[k - 1], p);
    }
  }

  /** A flooding pipe with two targets serves both, in order. */
  lemma FloodOfTwo(g: seq<Pipe>, n: nat, p: Packet)
    requires Ordered(g) && n < |g| && g[n].Flood? && |g[n].targets| == 2
    ensures Earlier(g[n].targets[0], n) && Earlier(g[n].targets[1], n)
    ensures Walk(g, n, p) == Send(g, n, g[n].targets[0], p) + Send(g, n, g[n].targets[1], p)
  {
    var ts := g[n].targets;
    assert PipeOk(g[n], n);
    assert SendAll(g, n, ts, 1, p) == [] + Send(g, n, ts[0], p);
    assert SendAll(g, n, ts, 2, p) == SendAll(g, n, ts, 1, p) + Send(g, n, ts[1], p);
  }

  /** A pipe with one entry and no mirror is a conditional. */
  lemma OneEntry(g: seq<Pipe>, n: nat, p: Packet)
    requires Ordered(g) && n < |g| && g[n].Basic? && |g[n].entries| == 1 && g[n].mirror.None?
    ensures var e := g[n].entries[0];
      && Earlier(e.fwd, n) && Earlier(g[n].miss, n)
      && Walk(g, n, p) == if Matches(e.match_, p) then Send(g, n, e.fwd, Act(e.action, p)) else Send(g, n, g[n].miss, p)
  {
    assert PipeOk(g[n], n);
    var e := g[n].entries[0];
    var i := FirstHit(g[n].entries, p);
    assert i == if Matches(e.match_, p) then 0 else 1;
    if i == 0 { assert Walk(g, n, p) == Send(g, n, e.fwd, Act(e.action, p)) + []; }
  }

  /** A pipe with two entries tries them in order. */
  lemma TwoEntries(g: seq<Pipe>, n: nat, p: Packet)
    requires Ordered(g) && n < |g| && g[n].Basic? && |g[n].entries| == 2 && g[n].mirror.None?
    ensures var es := g[n].entries;
      && Earlier(es[0].fwd, n) && Earlier(es[1].fwd, n) && Earlier(g[n].miss, n)
      && Walk(g, n, p) ==
         if Matches(es[0].match_, p) then Send(g, n, es[0].fwd, Act(es[0].action, p))
         else if Matches(es[1].match_, p) then Send(g, n, es[1].fwd, Act(es[1].action, p))
         else Send(g, n, g[n].miss, p)
  {
    assert PipeOk(g[n], n);
    var es := g[n].entries;
    var i := FirstHit(es, p);
    assert i == if Matches(es[0].match_, p) then 0 else if Matches(es[1].match_, p) then 1 else 2;
    if i < 2 { assert Walk(g, n, p) == Send(g, n, es[i].fwd, Act(es[i].action, p)) + []; }
  }
}
