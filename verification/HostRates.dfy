/**
 The host's side of the rate channel: its own table of sums, counts and last rates, and the
 poll that hands every reported rate on to the controller.
 */
module HostRates {
  import opened Words
  import opened SteerTables
  import opened SteerController
  import opened RateMailbox

  const MAX_TRACKED_FLOWS: nat := 256
  const RATE_REPORT_FORMAT: u32 := 6

  datatype FlowRate = FlowRate(qpn: u32, rateSum: u64, count: u32, lastRate: u32)

  function EntryIndex(es: seq<FlowRate>, qpn: u32): (i: nat)
    ensures i <= |es| && (i < |es| ==> es[i].qpn == qpn)
    ensures forall j :: 0 <= j < i ==> es[j].qpn != qpn
  {
    if |es| == 0 || es[0].qpn == qpn then 0 else 1 + EntryIndex(es[1..], qpn)
  }

  function AddRate(e: FlowRate, rate: u32): FlowRate {
    e.(rateSum := (e.rateSum + rate) % TWO_64, count := (e.count + 1) % TWO_32, lastRate := rate)
  }

  /** One report into the host table; a new QPN needs a free entry. */
  function Record(es: seq<FlowRate>, r: Slot): seq<FlowRate> {
    var i := EntryIndex(es, r.qpn);
    if i < |es| then es[i := AddRate(es[i], r.rate)]
    else if i < MAX_TRACKED_FLOWS then es + [AddRate(FlowRate(r.qpn, 0, 0, 0), r.rate)] else es
  }

  function RecordAll(es: seq<FlowRate>, rs: seq<Slot>): seq<FlowRate> {
    if |rs| == 0 then es else Record(RecordAll(es, rs[..|rs| - 1]), rs[|rs| - 1])
  }

  /** Reports as controller events, in order. */
  function Rates(rs: seq<Slot>): (es: seq<Event>)
    ensures |es| == |rs| && forall i :: 0 <= i < |rs| ==> es[i] == Event.Rate(rs[i].qpn, rs[i].rate)
  {
    if |rs| == 0 then [] else Rates(rs[..|rs| - 1]) + [Event.Rate(rs[|rs| - 1].qpn, rs[|rs| - 1].rate)]
  }

  /** A binary trace report: only one format carries a rate, in the low halves of two arguments. */
  datatype Report = Report(msgNumber: u32, arg0: u64, arg1: u64)

  function RateReports(rs: seq<Report>): seq<Slot> {
    if |rs| == 0 then []
    else
      var last := rs[|rs| - 1];
      RateReports(rs[..|rs| - 1]) +
      if last.msgNumber == RATE_REPORT_FORMAT then [Slot(last.arg0 % TWO_32, last.arg1 % TWO_32)] else []
  }

  /** What a trace holds: rate reports, with anything in the high halves of the arguments, and others. */
  datatype Traced = RateOf(slot: Slot, high0: u32, high1: u32) | Foreign(report: Report)

  /** The device's trace: QPN and rate are the first two arguments of the rate format. */
  function Encoded(ts: seq<Traced>): seq<Report> {
    if |ts| == 0 then []
    else
      var t := ts[|ts| - 1];
      Encoded(ts[..|ts| - 1]) +
      [match t
       case RateOf(s, h0, h1) => Report(6, h0 as nat * TWO_32 + s.qpn, h1 as nat * TWO_32 + s.rate)
       case Foreign(r) => r]
  }

  function RatesIn(ts: seq<Traced>): seq<Slot> {
    if |ts| == 0 then []
    else RatesIn(ts[..|ts| - 1]) + if ts[|ts| - 1].RateOf? then [ts[|ts| - 1].slot] else []
  }

  /** The callback reads back exactly the rates of a trace, in order. */
  lemma {:induction false} TraceRoundTrip(ts: seq<Traced>)
    requires forall i :: 0 <= i < |ts| ==> ts[i].Foreign? ==> ts[i].report.msgNumber != 6
    ensures RateReports(Encoded(ts)) == RatesIn(ts)
  {
    if |ts| > 0 {
      TraceRoundTrip(ts[..|ts| - 1]);
      var rs := Encoded(ts);
      assert rs[..|rs| - 1] == Encoded(ts[..|ts| - 1]);
    }
  }

  lemma {:induction false} TakenOne(ips: PathIps, es: seq<FlowRate>, t: Tables, rs: seq<Slot>, r: Slot)
    ensures RecordAll(es, rs + [r]) == Record(RecordAll(es, rs), r)
    ensures Run(ips, t, Rates(rs + [r])) == Apply(ips, Run(ips, t, Rates(rs)), Event.Rate(r.qpn, r.rate))
  {
    assert (rs + [r])[..|rs|] == rs;
    assert Rates(rs + [r])[..|rs|] == Rates(rs);
  }

  lemma {:induction false} TakenNext(ips: PathIps, es: seq<FlowRate>, t: Tables, rs: seq<Slot>, i: nat)
    requires i < |rs|
    ensures RecordAll(es, rs[..i + 1]) == Record(RecordAll(es, rs[..i]), rs[i])
    ensures Run(ips, t, Rates(rs[..i + 1])) ==
            Apply(ips, Run(ips, t, Rates(rs[..i])), Event.Rate(rs[i].qpn, rs[i].rate))
  {
    TakenOne(ips, es, t, rs[..i], rs[i]);
    assert rs[..i + 1] == rs[..i] + [rs[i]];
  }

  class Host {
    const table: array<FlowRate>
    var size: nat
    const steer: Steer

    ghost predicate Valid()
      reads this, steer, steer.rateFlow, steer.cmRequest, steer.qpnPair
    {
      table.Length == MAX_TRACKED_FLOWS && size <= MAX_TRACKED_FLOWS && steer.Valid() && steer.groupingEnabled
    }

    ghost function Entries(): seq<FlowRate>
      requires table.Length == MAX_TRACKED_FLOWS && size <= MAX_TRACKED_FLOWS
      reads this, table
    {
      table[..size]
    }

    constructor (steer: Steer)
      requires steer.Valid() && steer.groupingEnabled
      ensures Valid() && this.steer == steer && Entries() == [] && fresh(table)
    {
      this.steer := steer;
      table := new FlowRate[MAX_TRACKED_FLOWS](_ => FlowRate(0, 0, 0, 0));
      size := 0;
    }

    /** Index of the flow's entry, or the table size when there is no room for a new one. */
    method FindOrCreateFlow(qpn: u32) returns (i: nat)
      requires table.Length == MAX_TRACKED_FLOWS && size <= MAX_TRACKED_FLOWS
      modifies this`size, table
      ensures size <= MAX_TRACKED_FLOWS && i == EntryIndex(old(Entries()), qpn)
      ensures var es := old(Entries());
        Entries() == if i == |es| < MAX_TRACKED_FLOWS then es + [FlowRate(qpn, 0, 0, 0)] else es
    {
      i := 0;
      while i < size && table[i].qpn != qpn
        invariant i <= size
        invariant forall j :: 0 <= j < i ==> table[j].qpn != qpn
      {
        i := i + 1;
      }
      assert i < size ==> Entries()[i].qpn == qpn;
      assert i == EntryIndex(Entries(), qpn);
      if i == size && size < MAX_TRACKED_FLOWS {
        size := size + 1;
        table[i] := FlowRate(qpn, 0, 0, 0);
      }
    }

    method RecordRate(qpn: u32, rate: u32)
      requires table.Length == MAX_TRACKED_FLOWS && size <= MAX_TRACKED_FLOWS
      modifies this`size, table
      ensures size <= MAX_TRACKED_FLOWS && Entries() == Record(old(Entries()), Slot(qpn, rate))
    {
      ghost var es := Entries();
      var i := FindOrCreateFlow(qpn);
      if i < size {
        table[i] := AddRate(table[i], rate);
      }
      assert Entries() == Record(es, Slot(qpn, rate));
    }

    /** One reported rate, into the host's table and into the controller's. */
    method TakeRate(qpn: u32, rate: u32)
      requires Valid()
      modifies this`size, table, steer`rateFlowCount, steer.rateFlow
      ensures Valid()
      ensures Entries() == Record(old(Entries()), Slot(qpn, rate))
      ensures steer.State() == Apply(steer.ips, old(steer.State()), Event.Rate(qpn, rate))
    {
      RecordRate(qpn, rate);
      steer.UpdatePccRate(qpn, rate);
    }

    /** The body of a successful mailbox poll. */
    method TakeResponse(flows: seq<Slot>)
      requires Valid()
      modifies this`size, table, steer`rateFlowCount, steer.rateFlow
      ensures Valid()
      ensures Entries() == RecordAll(old(Entries()), flows)
      ensures steer.State() == Run(steer.ips, old(steer.State()), Rates(flows))
    {
      ghost var es, t := Entries(), steer.State();
      var i := 0;
      while i < |flows|
        invariant i <= |flows| && Valid()
        invariant Entries() == RecordAll(es, flows[..i])
        invariant steer.State() == Run(steer.ips, t, Rates(flows[..i]))
      {
        TakenNext(steer.ips, es, t, flows, i);
        TakeRate(flows[i].qpn, flows[i].rate);
        i := i + 1;
      }
      assert flows[..i] == flows;
    }

    /** The trace callback: every rate report, and nothing else, reaches both tables. */
    method HandleReports(reports: seq<Report>)
      requires Valid()
      modifies this`size, table, steer`rateFlowCount, steer.rateFlow
      ensures Valid()
      ensures Entries() == RecordAll(old(Entries()), RateReports(reports))
      ensures steer.State() == Run(steer.ips, old(steer.State()), Rates(RateReports(reports)))
    {
      ghost var es, t := Entries(), steer.State();
      ghost var rs: seq<Slot> := [];
      var i := 0;
      while i < |reports|
        invariant i <= |reports| && Valid() && rs == RateReports(reports[..i])
        invariant Entries() == RecordAll(es, rs)
        invariant steer.State() == Run(steer.ips, t, Rates(rs))
      {
        assert reports[..i + 1][..i] == reports[..i];
        if reports[i].msgNumber == RATE_REPORT_FORMAT {
          var qpn, rate := reports[i].arg0 % TWO_32, reports[i].arg1 % TWO_32;
          TakeRate(qpn, rate);
          TakenOne(steer.ips, es, t, rs, Slot(qpn, rate));
          rs := rs + [Slot(qpn, rate)];
        }
        i := i + 1;
      }
      assert reports[..i] == reports;
    }

    /** The printed averages; a zero count is a division by zero, shown here as no result. */
    method Averages() returns (r: Option<seq<Slot>>)
      requires table.Length == MAX_TRACKED_FLOWS && size <= MAX_TRACKED_FLOWS
      ensures r.Some? <==> forall i :: 0 <= i < size ==> table[i].count != 0
      ensures r.Some? ==> |r.value| == size && forall i :: 0 <= i < size ==>
        table[i].count != 0 && r.value[i] == Slot(table[i].qpn, (table[i].rateSum / table[i].count) % TWO_32)
    {
      var out: seq<Slot> := [];
      var i := 0;
      while i < size
        invariant i <= size && |out| == i
        invariant forall j :: 0 <= j < i ==>
          table[j].count != 0 && out[j] == Slot(table[j].qpn, (table[j].rateSum / table[j].count) % TWO_32)
      {
        if table[i].count == 0 {
          return None;
        }
        out := out + [Slot(table[i].qpn, (table[i].rateSum / table[i].count) % TWO_32)];
        i := i + 1;
      }
      return Some(out);
    }
  }

  // ---------- the host table is the history of each QPN ----------

  function CountOf(rs: seq<Slot>, q: u32): nat {
    if |rs| == 0 then 0 else CountOf(rs[..|rs| - 1], q) + if rs[|rs| - 1].qpn == q then 1 else 0
  }

  function SumOf(rs: seq<Slot>, q: u32): nat {
    if |rs| == 0 then 0 else SumOf(rs[..|rs| - 1], q) + if rs[|rs| - 1].qpn == q then rs[|rs| - 1].rate else 0
  }

  ghost predicate UniqueEntries(es: seq<FlowRate>) {
    |es| <= MAX_TRACKED_FLOWS && forall i, j :: 0 <= i < j < |es| ==> es[i].qpn != es[j].qpn
  }

  /** The entry of `q` sums and counts all its reports, in 64 and in 32 bits. */
  ghost predicate Accounts(e: FlowRate, rs: seq<Slot>) {
    e.rateSum == SumOf(rs, e.qpn) % TWO_64 && e.count == CountOf(rs, e.qpn) % TWO_32 && CountOf(rs, e.qpn) > 0
  }

  lemma WrapAdd64(a: nat, b: nat)
    ensures (a % TWO_64 + b) % TWO_64 == (a + b) % TWO_64
  {
  }

  lemma WrapAdd32(a: nat, b: nat)
    ensures (a % TWO_32 + b) % TWO_32 == (a + b) % TWO_32
  {
  }

  lemma {:induction false} HistoryOne(e: FlowRate, rs: seq<Slot>, r: Slot)
    requires Accounts(e, rs) ||
             (CountOf(rs, e.qpn) == 0 && e.rateSum == 0 && e.count == 0 && r.qpn == e.qpn && SumOf(rs, e.qpn) == 0)
    ensures Accounts(if r.qpn == e.qpn then AddRate(e, r.rate) else e, rs + [r])
  {
    assert (rs + [r])[..|rs|] == rs;
    WrapAdd64(SumOf(rs, e.qpn), r.rate);
    WrapAdd32(CountOf(rs, e.qpn), 1);
  }

  lemma {:induction false} NoReports(rs: seq<Slot>, q: u32)
    requires CountOf(rs, q) == 0
    ensures SumOf(rs, q) == 0
  {
    if |rs| > 0 { NoReports(rs[..|rs| - 1], q); }
  }

  ghost predicate IsHistory(es: seq<FlowRate>, rs: seq<Slot>) {
    && UniqueEntries(es)
    && (forall i :: 0 <= i < |es| ==> Accounts(es[i], rs))
    && (forall q: u32 :: CountOf(rs, q) > 0 ==> EntryIndex(es, q) < |es|)
  }

  lemma {:induction false} RecordAccounts(es: seq<FlowRate>, rs: seq<Slot>, r: Slot, i: nat)
    requires IsHistory(es, rs) && |es| < MAX_TRACKED_FLOWS && i < |Record(es, r)|
    ensures Accounts(Record(es, r)[i], rs + [r])
  {
    if i < |es| {
      HistoryOne(es[i], rs, r);
    } else {
      NoReports(rs, r.qpn);
      HistoryOne(FlowRate(r.qpn, 0, 0, 0), rs, r);
    }
  }

  lemma {:induction false} RecordFinds(es: seq<FlowRate>, rs: seq<Slot>, r: Slot, q: u32)
    requires IsHistory(es, rs) && |es| < MAX_TRACKED_FLOWS && CountOf(rs + [r], q) > 0
    ensures EntryIndex(Record(es, r), q) < |Record(es, r)|
  {
    assert (rs + [r])[..|rs|] == rs;
    var k := EntryIndex(es, q);
    assert Record(es, r)[k].qpn == q;
  }

  lemma {:induction false} RecordIsHistory(es: seq<FlowRate>, rs: seq<Slot>, r: Slot)
    requires IsHistory(es, rs) && |es| < MAX_TRACKED_FLOWS
    ensures IsHistory(Record(es, r), rs + [r])
  {
    forall i | 0 <= i < |Record(es, r)| ensures Accounts(Record(es, r)[i], rs + [r]) { RecordAccounts(es, rs, r, i); }
    forall q: u32 | CountOf(rs + [r], q) > 0 ensures EntryIndex(Record(es, r), q) < |Record(es, r)| {
      RecordFinds(es, rs, r, q);
    }
  }

  lemma {:induction false} HistoryAppend(front: seq<Slot>, r: Slot)
    requires IsHistory(RecordAll([], front), front) && |RecordAll([], front)| < MAX_TRACKED_FLOWS
    ensures IsHistory(RecordAll([], front + [r]), front + [r])
  {
    assert (front + [r])[..|front|] == front;
    assert RecordAll([], front + [r]) == Record(RecordAll([], front), r);
    RecordIsHistory(RecordAll([], front), front, r);
  }

  lemma {:induction false} TableGrows(rs: seq<Slot>)
    requires |rs| > 0
    ensures |RecordAll([], rs[..|rs| - 1])| <= |RecordAll([], rs)|
  {
  }

  /** While the table has room, every reported QPN has an entry and every entry is its exact account. */
  lemma {:induction false} TableIsHistory(rs: seq<Slot>)
    requires |RecordAll([], rs)| < MAX_TRACKED_FLOWS
    ensures IsHistory(RecordAll([], rs), rs)
  {
    if |rs| > 0 {
      TableGrows(rs);
      TableIsHistory(rs[..|rs| - 1]);
      HistoryAppend(rs[..|rs| - 1], rs[|rs| - 1]);
      assert rs == rs[..|rs| - 1] + [rs[|rs| - 1]];
    }
  }

  ghost predicate Between(rs: seq<Slot>, q: u32, lo: nat, hi: nat) {
    forall i :: 0 <= i < |rs| && rs[i].qpn == q ==> lo <= rs[i].rate <= hi
  }

  lemma {:induction false} SumBetween(rs: seq<Slot>, q: u32, lo: nat, hi: nat)
    requires Between(rs, q, lo, hi)
    ensures CountOf(rs, q) * lo <= SumOf(rs, q) <= CountOf(rs, q) * hi
  {
    if |rs| > 0 {
      SumBetween(rs[..|rs| - 1], q, lo, hi);
      var n := CountOf(rs[..|rs| - 1], q);
      assert (n + 1) * lo == n * lo + lo && (n + 1) * hi == n * hi + hi;
    }
  }

  lemma DivBetween(sum: nat, n: nat, lo: nat, hi: nat)
    requires n > 0 && n * lo <= sum <= n * hi
    ensures lo <= sum / n <= hi
  {
    var d := sum / n;
    assert n * d <= sum < n * d + n == n * (d + 1);
    if d < lo { MulMonotone(n, d + 1, lo); }
    if hi < d { MulMonotone(n, hi + 1, d); }
  }

  /**
   A printed average exists exactly when the 32-bit count is not a multiple of 2^32, and up to
   2^32 reports it lies between the smallest and the largest rate reported for its QPN.
   */
  lemma {:induction false} AverageBetween(e: FlowRate, rs: seq<Slot>, lo: nat, hi: u32)
    requires Accounts(e, rs) && Between(rs, e.qpn, lo, hi)
    ensures e.count == 0 <==> CountOf(rs, e.qpn) % TWO_32 == 0
    ensures CountOf(rs, e.qpn) < TWO_32 ==> e.count > 0 && lo <= (e.rateSum / e.count) % TWO_32 <= hi
  {
    var n := CountOf(rs, e.qpn);
    if n < TWO_32 {
      SumBetween(rs, e.qpn, lo, hi);
      SumFits(n, hi);
      DivBetween(e.rateSum, e.count, lo, hi);
    }
  }

  lemma SumFits(n: nat, hi: u32)
    requires n < TWO_32
    ensures n * hi < TWO_64
  {
    assert n * hi <= n * TWO_32;
  }

  function Repeat(r: Slot, n: nat): (rs: seq<Slot>)
    ensures |rs| == n
  {
    if n == 0 then [] else Repeat(r, n - 1) + [r]
  }

  /** One QPN reported `n` times: its count is zero, and its average a division by zero, at n = 2^32. */
  lemma {:induction false} CountWraps(r: Slot, n: nat)
    requires n > 0
    ensures var es := RecordAll([], Repeat(r, n)); |es| == 1 && es[0].qpn == r.qpn && es[0].count == n % TWO_32
    ensures n == TWO_32 ==> RecordAll([], Repeat(r, n))[0].count == 0
  {
    assert Repeat(r, n)[..n - 1] == Repeat(r, n - 1);
    if n > 1 {
      CountWraps(r, n - 1);
      WrapAdd32(n - 1, 1);
    } else {
      assert RecordAll([], Repeat(r, 0)) == [];
    }
  }
}
