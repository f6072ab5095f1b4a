/**
 The device's rate mailbox: 64 slots filled by linear probing and never emptied. It is
 proved to be a map from QPN to the last rate stored, plus a counter of the stores that
 found no room, and its response to list every entry of that map exactly once.
 */
module RateMailbox {
  import opened Words

  const SLOTS: nat := 64

  datatype Slot = Slot(qpn: u32, rate: u32)

  /** The slot `probe` steps after the home of `qpn`. */
  function Probe(qpn: u32, probe: nat): nat { (qpn % SLOTS + probe) % SLOTS }

  /** How many steps slot `s` is from the home of `qpn`. */
  function Distance(qpn: u32, s: nat): nat
    requires s < SLOTS
  {
    (s + SLOTS - qpn % SLOTS) % SLOTS
  }

  lemma ProbeDistance(qpn: u32, s: nat, d: nat)
    requires s < SLOTS && d < SLOTS
    ensures Probe(qpn, d) == s <==> d == Distance(qpn, s)
    ensures Probe(qpn, d) == (qpn + d) % 64
  {
  }

  ghost predicate UniqueOwners(q: seq<u32>) {
    forall s, t :: 0 <= s < t < |q| && q[s] != 0 ==> q[s] != q[t]
  }

  /** Nothing between a home and its occupant is free. */
  ghost predicate Chained(q: seq<u32>)
    requires |q| == SLOTS
  {
    forall s, d :: 0 <= s < SLOTS && q[s] != 0 && 0 <= d < Distance(q[s], s) ==> q[Probe(q[s], d)] != 0
  }

  ghost predicate ValidSlots(q: seq<u32>) { |q| == SLOTS && UniqueOwners(q) && Chained(q) }

  /** The tracked QPNs of the first `n` slots with their rates. */
  function Contents(q: seq<u32>, v: seq<u32>, n: nat): map<u32, u32>
    requires n <= |q| == |v|
  {
    if n == 0 then map[]
    else if q[n - 1] == 0 then Contents(q, v, n - 1)
    else Contents(q, v, n - 1)[q[n - 1] := v[n - 1]]
  }

  function Occupied(q: seq<u32>, n: nat): nat
    requires n <= |q|
  {
    if n == 0 then 0 else Occupied(q, n - 1) + if q[n - 1] != 0 then 1 else 0
  }

  lemma {:induction false} InContents(q: seq<u32>, v: seq<u32>, n: nat, k: u32)
    requires n <= |q| == |v|
    ensures k in Contents(q, v, n) <==> k != 0 && k in q[..n]
  {
    if n > 0 {
      InContents(q, v, n - 1, k);
      assert q[..n] == q[..n - 1] + [q[n - 1]];
    }
  }

  lemma {:induction false} AtContents(q: seq<u32>, v: seq<u32>, n: nat, s: nat)
    requires s < n <= |q| == |v| && UniqueOwners(q) && q[s] != 0
    ensures q[s] in Contents(q, v, n) && Contents(q, v, n)[q[s]] == v[s]
  {
    if s < n - 1 { AtContents(q, v, n - 1, s); }
  }

  lemma AddedSize(m: map<u32, u32>, qpn: u32, rate: u32)
    ensures |m[qpn := rate]| == if qpn in m then |m| else |m| + 1
  {
    assert m[qpn := rate].Keys == m.Keys + {qpn};
  }

  lemma {:induction false} SizeContents(q: seq<u32>, v: seq<u32>, n: nat)
    requires n <= |q| == |v| && UniqueOwners(q)
    ensures |Contents(q, v, n)| == Occupied(q, n) <= n
    ensures (exists s :: 0 <= s < n && q[s] == 0) ==> Occupied(q, n) < n
    ensures (forall s :: 0 <= s < n ==> q[s] != 0) ==> Occupied(q, n) == n
  {
    if n > 0 {
      SizeContents(q, v, n - 1);
      InContents(q, v, n - 1, q[n - 1]);
      AddedSize(Contents(q, v, n - 1), q[n - 1], v[n - 1]);
    }
  }

  /** What a store means: replace or add, and drop only when 64 other QPNs are tracked. QPN 0 tracks nothing. */
  function StoreRate(m: map<u32, u32>, qpn: u32, rate: u32): map<u32, u32> {
    if qpn != 0 && (qpn in m || |m| < SLOTS) then m[qpn := rate] else m
  }

  predicate Drops(m: map<u32, u32>, qpn: u32) { qpn !in m && |m| == SLOTS }

  const VERSION: u32 := 1
  const REQUEST_SIZE: u32 := 4
  const RESPONSE_SIZE: u32 := 524

  datatype Response = Response(version: u32, dropped: u32, flows: seq<Slot>)

  class Mailbox {
    var qpns: array<u32>
    var values: array<u32>
    var dropped: u32

    ghost predicate Valid()
      reads this, qpns
    {
      qpns != values && qpns.Length == values.Length == SLOTS && ValidSlots(qpns[..])
    }

    ghost function Rates(): map<u32, u32>
      requires Valid()
      reads this, qpns, values
    {
      Contents(qpns[..], values[..], SLOTS)
    }

    constructor ()
      ensures Valid() && fresh(qpns) && fresh(values) && Rates() == map[] && dropped == 0
    {
      qpns := new u32[SLOTS](_ => 0);
      values := new u32[SLOTS](_ => 0);
      dropped := 0;
      new;
      assert forall s :: 0 <= s < SLOTS ==> qpns[..][s] == 0;
      ContentsOfNone(qpns[..], values[..], SLOTS);
    }

    method Store(qpn: u32, rate: u32)
      requires Valid()
      modifies this`dropped, qpns, values
      ensures Valid()
      ensures Rates() == StoreRate(old(Rates()), qpn, rate)
      ensures dropped == if Drops(old(Rates()), qpn) then (old(dropped) + 1) % TWO_32 else old(dropped)
    {
      ghost var q, v := qpns[..], values[..];
      var start := qpn % SLOTS;
      var probe := 0;
      while probe < SLOTS
        invariant probe <= SLOTS
        invariant qpns[..] == q && values[..] == v && dropped == old(dropped)
        invariant forall d :: 0 <= d < probe ==> q[Probe(qpn, d)] != 0 && q[Probe(qpn, d)] != qpn
      {
        var slot := (start + probe) % SLOTS;
        var owner := qpns[slot];
        assert owner == q[slot] && slot == Probe(qpn, probe);
        if owner == 0 || owner == qpn {
          qpns[slot] := qpn;
          values[slot] := rate;
          StoredAt(q, v, qpn, rate, probe);
          return;
        }
        probe := probe + 1;
      }
      NoRoom(q, v, qpn);
      dropped := (dropped + 1) % TWO_32;
    }

    /** The mailbox handler: refuses a wrong request, otherwise copies the occupied slots in slot order. */
    method Handle(requestSize: u32, version: u32, maxResponseSize: u32) returns (r: Option<Response>)
      requires Valid()
      ensures r.None? <==> requestSize != REQUEST_SIZE || version != VERSION || maxResponseSize < RESPONSE_SIZE
      ensures r.Some? ==> r.value.version == VERSION && r.value.dropped == dropped
      ensures r.Some? ==> Lists(r.value.flows, Rates()) && |r.value.flows| <= SLOTS
    {
      if requestSize != REQUEST_SIZE || version != VERSION || maxResponseSize < RESPONSE_SIZE {
        return None;
      }
      ghost var q, v := qpns[..], values[..];
      var flows: seq<Slot> := [];
      var i := 0;
      while i < SLOTS
        invariant i <= SLOTS && |flows| <= i
        invariant Lists(flows, Contents(q, v, i))
      {
        assert qpns[i] == q[i] && values[i] == v[i];
        if qpns[i] != 0 {
          ListsOne(q, v, i, flows);
          flows := flows + [Slot(qpns[i], values[i])];
        }
        i := i + 1;
      }
      return Some(Response(VERSION, dropped, flows));
    }
  }

  function QpnsOf(flows: seq<Slot>): set<u32> {
    if |flows| == 0 then {} else QpnsOf(flows[..|flows| - 1]) + {flows[|flows| - 1].qpn}
  }

  /** Every entry of the map is listed once, and nothing else is. */
  ghost predicate Lists(flows: seq<Slot>, m: map<u32, u32>) {
    && |flows| == |m|
    && (forall i :: 0 <= i < |flows| ==> flows[i].qpn in m && m[flows[i].qpn] == flows[i].rate)
    && (forall i, j :: 0 <= i < j < |flows| ==> flows[i].qpn != flows[j].qpn)
    && QpnsOf(flows) == m.Keys
  }

  lemma {:induction false} ContentsOfNone(q: seq<u32>, v: seq<u32>, n: nat)
    requires n <= |q| == |v| && forall s :: 0 <= s < n ==> q[s] == 0
    ensures Contents(q, v, n) == map[]
  {
    if n > 0 { ContentsOfNone(q, v, n - 1); }
  }

  lemma {:induction false} ListsOne(q: seq<u32>, v: seq<u32>, i: nat, flows: seq<Slot>)
    requires |q| == |v| && UniqueOwners(q) && i < |q| && q[i] != 0
    requires Lists(flows, Contents(q, v, i))
    ensures Lists(flows + [Slot(q[i], v[i])], Contents(q, v, i + 1))
  {
    var m := Contents(q, v, i);
    InContents(q, v, i, q[i]);
    assert m[q[i] := v[i]].Keys == m.Keys + {q[i]};
    assert (flows + [Slot(q[i], v[i])])[..|flows|] == flows;
  }

  /** The map grows by the store, seen from any one QPN. */
  lemma {:induction false} UpdateAt(q: seq<u32>, v: seq<u32>, slot: nat, qpn: u32, rate: u32, k: u32)
    requires |q| == |v| && slot < |q| && qpn != 0 && (q[slot] == 0 || q[slot] == qpn)
    requires UniqueOwners(q) && UniqueOwners(q[slot := qpn])
    ensures var m, m' := Contents(q, v, |q|), Contents(q[slot := qpn], v[slot := rate], |q|);
      && (k in m' <==> k == qpn || k in m)
      && (k in m' ==> m'[k] == if k == qpn then rate else m[k])
  {
    var q', v' := q[slot := qpn], v[slot := rate];
    InContents(q, v, |q|, k);
    InContents(q', v', |q|, k);
    AtContents(q', v', |q|, slot);
    assert q[..|q|] == q && q'[..|q|] == q' && q'[slot] == qpn;
    if k != qpn && k != 0 && k in q {
      var s :| 0 <= s < |q| && q[s] == k;
      assert q'[s] == k && v'[s] == v[s];
      AtContents(q, v, |q|, s);
      AtContents(q', v', |q|, s);
    }
    if k != qpn && k in q' {
      var s :| 0 <= s < |q| && q'[s] == k;
      assert q[s] == k;
    }
  }

  lemma {:induction false} ContentsUpdate(q: seq<u32>, v: seq<u32>, slot: nat, qpn: u32, rate: u32)
    requires |q| == |v| && slot < |q| && qpn != 0 && (q[slot] == 0 || q[slot] == qpn)
    requires UniqueOwners(q) && UniqueOwners(q[slot := qpn])
    ensures Contents(q[slot := qpn], v[slot := rate], |q|) == Contents(q, v, |q|)[qpn := rate]
  {
    var m, m' := Contents(q, v, |q|), Contents(q[slot := qpn], v[slot := rate], |q|);
    forall k: u32
      ensures (k in m' <==> k in m[qpn := rate]) && (k in m' ==> m'[k] == m[qpn := rate][k])
    {
      UpdateAt(q, v, slot, qpn, rate, k);
    }
  }

  lemma {:induction false} ContentsIgnoresFree(q: seq<u32>, v: seq<u32>, slot: nat, rate: u32, n: nat)
    requires n <= |q| == |v| && slot < |q| && q[slot] == 0
    ensures Contents(q, v[slot := rate], n) == Contents(q, v, n)
  {
    if n > 0 { ContentsIgnoresFree(q, v, slot, rate, n - 1); }
  }

  /** The probe invariant: an untracked QPN reaches a free slot before any slot of its own. */
  lemma {:induction false} StoredAt(q: seq<u32>, v: seq<u32>, qpn: u32, rate: u32, probe: nat)
    requires ValidSlots(q) && |v| == SLOTS && probe < SLOTS
    requires forall d :: 0 <= d < probe ==> q[Probe(qpn, d)] != 0 && q[Probe(qpn, d)] != qpn
    requires q[Probe(qpn, probe)] == 0 || q[Probe(qpn, probe)] == qpn
    ensures var slot := Probe(qpn, probe);
      && ValidSlots(q[slot := qpn])
      && Contents(q[slot := qpn], v[slot := rate], SLOTS) == StoreRate(Contents(q, v, SLOTS), qpn, rate)
      && !Drops(Contents(q, v, SLOTS), qpn)
  {
    var slot := Probe(qpn, probe);
    SizeContents(q, v, SLOTS);
    InContents(q, v, SLOTS, qpn);
    assert q[..SLOTS] == q;
    if qpn == 0 {
      assert q[slot := qpn] == q;
      ContentsIgnoresFree(q, v, slot, rate, SLOTS);
    } else {
      if q[slot] == 0 { NotElsewhere(q, qpn, probe); }
      ProbeDistance(qpn, slot, probe);
      StillValid(q, slot, qpn);
      ContentsUpdate(q, v, slot, qpn, rate);
    }
  }

  lemma {:induction false} NotElsewhere(q: seq<u32>, qpn: u32, probe: nat)
    requires |q| == SLOTS && Chained(q) && qpn != 0 && probe < SLOTS && q[Probe(qpn, probe)] == 0
    requires forall d :: 0 <= d < probe ==> q[Probe(qpn, d)] != qpn
    ensures forall s :: 0 <= s < SLOTS ==> q[s] != qpn
  {
    forall s | 0 <= s < SLOTS ensures q[s] != qpn {
      ProbeDistance(qpn, s, Distance(qpn, s));
      assert Distance(qpn, s) < SLOTS;
    }
  }

  lemma {:induction false} StillValid(q: seq<u32>, slot: nat, qpn: u32)
    requires ValidSlots(q) && slot < SLOTS && qpn != 0
    requires forall d :: 0 <= d < Distance(qpn, slot) ==> q[Probe(qpn, d)] != 0
    requires q[slot] == qpn || (q[slot] == 0 && forall s :: 0 <= s < SLOTS ==> q[s] != qpn)
    ensures ValidSlots(q[slot := qpn])
  {
  }

  lemma {:induction false} NoRoom(q: seq<u32>, v: seq<u32>, qpn: u32)
    requires ValidSlots(q) && |v| == SLOTS
    requires forall d :: 0 <= d < SLOTS ==> q[Probe(qpn, d)] != 0 && q[Probe(qpn, d)] != qpn
    ensures Drops(Contents(q, v, SLOTS), qpn)
  {
    forall s | 0 <= s < SLOTS ensures q[s] != 0 && q[s] != qpn {
      ProbeDistance(qpn, s, Distance(qpn, s));
      assert q[Probe(qpn, Distance(qpn, s))] != 0;
    }
    SizeContents(q, v, SLOTS);
    InContents(q, v, SLOTS, qpn);
  }

  // ---------- runs of stores ----------

  /** The mailbox after a run of stores, oldest first: its map and how many were dropped. */
  function Stores(m: map<u32, u32>, stores: seq<Slot>): (map<u32, u32>, nat) {
    if |stores| == 0 then (m, 0)
    else
      var (before, drops) := Stores(m, stores[..|stores| - 1]);
      var last := stores[|stores| - 1];
      (StoreRate(before, last.qpn, last.rate), drops + if Drops(before, last.qpn) then 1 else 0)
  }

  ghost predicate IsLast(stores: seq<Slot>, i: nat) {
    i < |stores| && forall j :: i < j < |stores| ==> stores[j].qpn != stores[i].qpn
  }

  /** A QPN once tracked stays tracked, and its rate is the one of its last store. */
  lemma {:induction false} LastStoreWins(stores: seq<Slot>, i: nat)
    requires IsLast(stores, i) && stores[i].qpn in Stores(map[], stores).0
    ensures Stores(map[], stores).0[stores[i].qpn] == stores[i].rate
  {
    var n := |stores| - 1;
    var m := Stores(map[], stores[..n]).0;
    TrackedBound(stores[..n]);
    assert Stores(map[], stores).0 == StoreRate(m, stores[n].qpn, stores[n].rate);
    if i < n {
      assert stores[n].qpn != stores[i].qpn;
      assert IsLast(stores[..n], i);
      LastStoreWins(stores[..n], i);
    }
  }

  lemma {:induction false} StoreKeys(m: map<u32, u32>, qpn: u32, rate: u32)
    requires |m| <= SLOTS && 0 !in m
    ensures |StoreRate(m, qpn, rate)| <= SLOTS && 0 !in StoreRate(m, qpn, rate)
    ensures StoreRate(m, qpn, rate).Keys == if qpn != 0 && (qpn in m || |m| < SLOTS) then m.Keys + {qpn} else m.Keys
  {
    assert m[qpn := rate].Keys == m.Keys + {qpn};
  }

  lemma {:induction false} TrackedBound(stores: seq<Slot>)
    ensures |Stores(map[], stores).0| <= SLOTS && 0 !in Stores(map[], stores).0
    ensures Stores(map[], stores).0.Keys <= QpnsOf(stores)
  {
    if |stores| > 0 {
      var last := stores[|stores| - 1];
      TrackedBound(stores[..|stores| - 1]);
      StoreKeys(Stores(map[], stores[..|stores| - 1]).0, last.qpn, last.rate);
    }
  }

  /** Up to 64 different QPNs nothing is ever dropped and every one of them is tracked. */
  lemma {:induction false} NothingDropped(stores: seq<Slot>)
    requires |QpnsOf(stores)| <= SLOTS && 0 !in QpnsOf(stores)
    ensures Stores(map[], stores).0.Keys == QpnsOf(stores) && Stores(map[], stores).1 == 0
  {
    if |stores| > 0 {
      var front, last := stores[..|stores| - 1], stores[|stores| - 1];
      var m := Stores(map[], front).0;
      SubsetSize(QpnsOf(front), QpnsOf(stores));
      NothingDropped(front);
      TrackedBound(front);
      StoreKeys(m, last.qpn, last.rate);
      if last.qpn !in m { assert |m.Keys + {last.qpn}| == |m| + 1; }
    }
  }
}
