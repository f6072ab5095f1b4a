/**
 The lock protocol on the real memory: three fixed arrays with their counts, of which only the
 used slots are tables. An append raises a count and takes the slot as it finds it, so it is a
 result, not an assumption, that unused slots are still all zero.
 */
module SteerMemory {
  import opened Words
  import opened SteerTables
  import opened SteerRuns
  import opened SteerLock

  datatype Memory = Memory(
    flows: seq<RateFlow>, requests: seq<CmRequest>, pairs: seq<QpnPair>,
    flowCount: nat, requestCount: nat, pairCount: nat)

  ghost predicate Sized(m: Memory) {
    && |m.flows| == MAX_RATE_FLOWS && |m.requests| == |m.pairs| == MAX_CM_CONNECTIONS
    && m.flowCount <= |m.flows| && m.requestCount <= |m.requests| && m.pairCount <= |m.pairs|
  }

  /** The tables in use. */
  function Used(m: Memory): Tables
    requires Sized(m)
  {
    Tables(m.flows[..m.flowCount], m.requests[..m.requestCount], m.pairs[..m.pairCount])
  }

  ghost predicate UnusedZero(m: Memory)
    requires Sized(m)
  {
    && (forall i :: m.flowCount <= i < |m.flows| ==> m.flows[i] == ZERO_FLOW)
    && (forall i :: m.requestCount <= i < |m.requests| ==> m.requests[i] == ZERO_REQUEST)
    && (forall i :: m.pairCount <= i < |m.pairs| ==> m.pairs[i] == ZERO_PAIR)
  }

  /** What an append would find. */
  function SpareOf(m: Memory): Spare
    requires Sized(m)
  {
    Spare(if m.flowCount < |m.flows| then m.flows[m.flowCount] else ZERO_FLOW,
          if m.requestCount < |m.requests| then m.requests[m.requestCount] else ZERO_REQUEST,
          if m.pairCount < |m.pairs| then m.pairs[m.pairCount] else ZERO_PAIR)
  }

  ghost predicate FitsMemory(t: Tables) {
    |t.flows| <= MAX_RATE_FLOWS && |t.requests| <= MAX_CM_CONNECTIONS && |t.pairs| <= MAX_CM_CONNECTIONS
  }

  /** The memory with these tables in its used slots; all others stay as they are. */
  function Written(m: Memory, t: Tables): (m': Memory)
    requires Sized(m) && FitsMemory(t)
    ensures Sized(m') && Used(m') == t
  {
    var m' := Memory(t.flows + m.flows[|t.flows|..], t.requests + m.requests[|t.requests|..],
                     t.pairs + m.pairs[|t.pairs|..], |t.flows|, |t.requests|, |t.pairs|);
    assert Used(m').flows == t.flows && Used(m').requests == t.requests && Used(m').pairs == t.pairs;
    m'
  }

  /** A step appends at most one slot, and only where there is one. */
  lemma {:induction false} StepFits(ips: PathIps, e: Event, pc: Pc, t: Tables, spare: Spare)
    requires PcOk(e, pc, t) && !pc.Unlock? && FitsMemory(t)
    ensures var t' := Micro(ips, e, pc, t, spare).1;
      FitsMemory(t') && |t.flows| <= |t'.flows| && |t.requests| <= |t'.requests| && |t.pairs| <= |t'.pairs|
  {
  }

  /** One step of the holder, on memory. */
  function MemoryStep(ips: PathIps, e: Event, pc: Pc, m: Memory): (r: (Pc, Memory))
    requires Sized(m) && PcOk(e, pc, Used(m)) && !pc.Unlock?
    ensures Sized(r.1)
  {
    StepFits(ips, e, pc, Used(m), SpareOf(m));
    var (pc', t') := Micro(ips, e, pc, Used(m), SpareOf(m));
    (pc', Written(m, t'))
  }

  lemma {:induction false} StillZero(m: Memory, t: Tables)
    requires Sized(m) && UnusedZero(m) && FitsMemory(t)
    requires m.flowCount <= |t.flows| && m.requestCount <= |t.requests| && m.pairCount <= |t.pairs|
    ensures UnusedZero(Written(m, t))
  {
  }

  /** While unused slots are zero, a step on memory is a step on the tables, and leaves them zero. */
  lemma {:induction false} MemoryStepMeans(ips: PathIps, e: Event, pc: Pc, m: Memory)
    requires Sized(m) && UnusedZero(m) && PcOk(e, pc, Used(m)) && !pc.Unlock?
    ensures var (pc', m') := MemoryStep(ips, e, pc, m);
      (pc', Used(m')) == Micro(ips, e, pc, Used(m)) && UnusedZero(m')
  {
    assert SpareOf(m) == CLEAN;
    StepFits(ips, e, pc, Used(m), CLEAN);
    StillZero(m, Micro(ips, e, pc, Used(m), CLEAN).1);
  }

  // ---------- threads over memory ----------

  datatype System = System(locked: bool, memory: Memory, threads: map<nat, Thread>,
                           order: seq<Event>, results: seq<Summary>)

  /** The same state with only the tables in use. */
  ghost function View(s: System): Global
    requires Sized(s.memory)
  {
    Global(s.locked, Used(s.memory), s.threads, s.order, s.results)
  }

  ghost predicate Ready(ips: PathIps, s: System) { Sized(s.memory) && Runnable(ips, View(s)) }

  /** A thread receives an event, spins on the flag, or takes its next step inside. */
  ghost function Next(ips: PathIps, s: System, a: Action): System
    requires Ready(ips, s)
  {
    if a.tid !in s.threads then s
    else match a
      case Begin(tid, e) =>
        if s.threads[tid].Idle? && Locks(ips, e) then s.(threads := s.threads[tid := Spinning(e)]) else s
      case Move(tid) =>
        match s.threads[tid]
        case Idle => s
        case Spinning(e) =>
          if s.locked then s
          else s.(locked := true, threads := s.threads[tid := Holding(e, Start(ips, e))], order := s.order + [e])
        case Holding(e, pc) =>
          if pc.Unlock? then
            s.(locked := false, threads := s.threads[tid := Idle], results := s.results + [pc.result])
          else
            var (pc', m') := MemoryStep(ips, e, pc, s.memory);
            s.(memory := m', threads := s.threads[tid := Holding(e, pc')])
  }

  ghost predicate Sound(ips: PathIps, init: Tables, s: System) {
    Sized(s.memory) && UnusedZero(s.memory) && Inv(ips, init, View(s))
  }

  /** A step on memory is the step of the protocol, as long as unused slots are zero. */
  lemma {:induction false} NextRefines(ips: PathIps, s: System, a: Action)
    requires Ready(ips, s) && UnusedZero(s.memory)
    ensures var s' := Next(ips, s, a);
      Sized(s'.memory) && UnusedZero(s'.memory) && View(s') == Step(ips, View(s), a)
  {
    if a.Move? && a.tid in s.threads && s.threads[a.tid].Holding? && !s.threads[a.tid].pc.Unlock? {
      MemoryStepMeans(ips, s.threads[a.tid].e, s.threads[a.tid].pc, s.memory);
    }
  }

  lemma {:induction false} NextKeepsSound(ips: PathIps, init: Tables, s: System, a: Action)
    requires Sound(ips, init, s)
    ensures Sound(ips, init, Next(ips, s, a))
  {
    NextRefines(ips, s, a);
    StepKeepsInv(ips, init, View(s), a);
  }

  /** Any schedule of any length over any set of threads, started in a sound state. */
  ghost function Execute(ips: PathIps, init: Tables, s: System, schedule: seq<Action>): (s': System)
    requires Sound(ips, init, s)
    ensures Sound(ips, init, s')
  {
    if |schedule| == 0 then s
    else
      var s1 := Execute(ips, init, s, schedule[..|schedule| - 1]);
      NextKeepsSound(ips, init, s1, schedule[|schedule| - 1]);
      Next(ips, s1, schedule[|schedule| - 1])
  }

  /** The zeroed static state, nobody inside. */
  ghost predicate Booted(s: System) {
    && Sized(s.memory) && s.memory.flowCount == s.memory.requestCount == s.memory.pairCount == 0
    && UnusedZero(s.memory) && Initial(EMPTY, View(s))
  }

  lemma {:induction false} BootedSound(ips: PathIps, s: System)
    requires Booted(s)
    ensures Sound(ips, EMPTY, s)
  {
    InitialInv(ips, EMPTY, View(s));
  }

  /**
   The protocol theorem on memory. From the zeroed state on, under every schedule: at most one
   thread is inside; every slot beyond a count is all zero, at every moment; while the lock is free
   the used slots are the tables of the sequential run in lock order; and every poll returned the
   summary of its own place in that order.
   */
  lemma {:induction false} MemoryLinearizable(ips: PathIps, s: System, schedule: seq<Action>)
    requires Booted(s)
    ensures Sound(ips, EMPTY, s)
    ensures var s' := Execute(ips, EMPTY, s, schedule);
      && MutualExclusion(View(s')) && UnusedZero(s'.memory)
      && (!s'.locked ==> Used(s'.memory) == Run(ips, EMPTY, s'.order) && ValidTables(Used(s'.memory)))
      && |s'.results| <= |s'.order| && ResultsInOrder(ips, EMPTY, s'.order, s'.results)
  {
    BootedSound(ips, s);
    RunKeepsTables(ips, EMPTY, Execute(ips, EMPTY, s, schedule).order);
  }

  /**
   No report is lost or counted twice whatever the threads do: while the lock is free, what the
   polls drained and what is pending in memory add up to all accepted reports, up to wrap-arounds.
   */
  lemma {:induction false} ConcurrentRatesConserved(ips: PathIps, s: System, schedule: seq<Action>, q: u32)
    requires Booted(s) && 1 < q
    ensures Sound(ips, EMPTY, s)
    ensures var s' := Execute(ips, EMPTY, s, schedule);
      !s'.locked ==>
        DrainedTotal(ips, EMPTY, s'.order, q) + Pending(Used(s'.memory), q) + TWO_64 * Wraps(ips, EMPTY, s'.order, q) ==
        AcceptedTotal(ips, EMPTY, s'.order, q)
  {
    BootedSound(ips, s);
    MemoryLinearizable(ips, s, schedule);
    RatesConserved(ips, EMPTY, Execute(ips, EMPTY, s, schedule).order, q);
  }
}
