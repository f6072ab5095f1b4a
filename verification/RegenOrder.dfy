/**
 When several cuts work on one text. As long as no cut removes the lines that a later one looks
 for, all cuts together keep exactly the lines outside all their regions, also where one region
 lies inside another; and a recipe comes through whole exactly when no other region meets it.
 */
module RegenOrder {
  import opened Words
  import opened RegenTemplates

  predicate InCut(r: Region, i: nat) { r.first <= i <= r.last }

  predicate Outside(i: nat, a: nat, b: nat) { i < a || i > b }

  /** The lines that decide where the region lies are outside `a .. b`. */
  predicate Untouched(r: Region, a: nat, b: nat) {
    && Outside(r.fn.start, a, b) && Outside(r.fn.open, a, b) && Outside(r.fn.close, a, b)
    && Outside(r.todo, a, b) && Outside(r.first, a, b) && Outside(r.last, a, b)
  }

  /** Each cut finds its region in the text. */
  ghost predicate AllLocated(ls: seq<string>, ks: seq<CutSpec>, rs: seq<Region>) {
    && |ks| == |rs|
    && (|rs| > 0 ==> Locates(ls, ks[|rs| - 1], rs[|rs| - 1]) && AllLocated(ls, ks[..|rs| - 1], rs[..|rs| - 1]))
  }

  lemma {:induction false} LocatedAt(ls: seq<string>, ks: seq<CutSpec>, rs: seq<Region>, i: nat)
    requires AllLocated(ls, ks, rs) && i < |rs|
    ensures Locates(ls, ks[i], rs[i])
  {
    if i < |rs| - 1 { LocatedAt(ls, ks[..|rs| - 1], rs[..|rs| - 1], i); }
  }

  /** The last cut is made first: it must leave alone what the earlier ones look for. */
  ghost predicate Undisturbed(rs: seq<Region>) {
    forall i, j :: 0 <= i < j < |rs| ==> Untouched(rs[i], rs[j].first, rs[j].last)
  }

  /** The regions are disjoint, or an inner one is listed after the one around it. */
  ghost predicate Compatible(ls: seq<string>, ks: seq<CutSpec>, rs: seq<Region>) {
    AllLocated(ls, ks, rs) && Undisturbed(rs)
  }

  ghost predicate ApartFrom(rs: seq<Region>) {
    forall i, j :: 0 <= i < |rs| && 0 <= j < |rs| && i != j ==> Untouched(rs[i], rs[j].first, rs[j].last)
  }

  /** No cut touches what any other one looks for. */
  ghost predicate Independent(ls: seq<string>, ks: seq<CutSpec>, rs: seq<Region>) {
    AllLocated(ls, ks, rs) && ApartFrom(rs)
  }

  /** Where line `i`, outside `a .. b`, is once those lines are gone. */
  function Shift(i: nat, a: nat, b: nat): nat
    requires a <= b && Outside(i, a, b)
  {
    if i < a then i else i - (b - a + 1)
  }

  predicate WellFormed(r: Region) { r.fn.start <= r.fn.open && r.todo <= r.first <= r.last }

  function ShiftRegion(r: Region, a: nat, b: nat): Region
    requires a <= b && Untouched(r, a, b) && WellFormed(r)
  {
    Region(Fn(Shift(r.fn.start, a, b), Shift(r.fn.open, a, b), Shift(r.fn.close, a, b)),
           Shift(r.todo, a, b), Shift(r.first, a, b), Shift(r.last, a, b))
  }

  lemma LineStays(ls: seq<string>, i: nat, a: nat, b: nat)
    requires a <= b < |ls| && i < |ls| && (i < a || i > b)
    ensures Shift(i, a, b) < |Delete(ls, a, b)| && Delete(ls, a, b)[Shift(i, a, b)] == ls[i]
  {
  }

  lemma DefinitionStays(ls: seq<string>, name: string, s: nat, a: nat, b: nat)
    requires a <= b < |ls| && s < |ls| && (s < a || s > b)
    requires forall i :: 0 <= i < |ls| ==> (IsDefinition(ls[i], name) <==> i == s)
    ensures var r := Delete(ls, a, b); forall i :: 0 <= i < |r| ==> (IsDefinition(r[i], name) <==> i == Shift(s, a, b))
  {
    var r := Delete(ls, a, b);
    forall i | 0 <= i < |r| ensures IsDefinition(r[i], name) <==> i == Shift(s, a, b) {
      assert r[i] == if i < a then ls[i] else ls[i + (b - a + 1)];
    }
  }

  lemma FnStays(ls: seq<string>, name: string, f: Fn, a: nat, b: nat)
    requires FnAt(ls, name, f) && a <= b < |ls|
    requires Outside(f.start, a, b) && Outside(f.open, a, b) && Outside(f.close, a, b)
    ensures FnAt(Delete(ls, a, b), name, Fn(Shift(f.start, a, b), Shift(f.open, a, b), Shift(f.close, a, b)))
  {
    DefinitionStays(ls, name, f.start, a, b);
    LineStays(ls, f.open, a, b);
    LineStays(ls, f.close, a, b);
  }

  lemma NoneStay(ls: seq<string>, needle: string, lo: nat, hi: nat, a: nat, b: nat)
    requires a <= b < |ls| && lo <= hi < |ls| && Outside(lo, a, b) && Outside(hi, a, b)
    requires forall i :: lo <= i < hi ==> !Contains(ls[i], needle)
    ensures var r := Delete(ls, a, b);
      Shift(hi, a, b) < |r| && forall i :: Shift(lo, a, b) <= i < Shift(hi, a, b) ==> !Contains(r[i], needle)
  {
  }

  lemma CommentsStay(ls: seq<string>, lo: nat, hi: nat, a: nat, b: nat)
    requires a <= b < |ls| && lo <= hi < |ls| && Outside(lo, a, b) && Outside(hi, a, b)
    requires forall i :: lo <= i < hi ==> IsComment(ls[i])
    ensures var r := Delete(ls, a, b);
      Shift(hi, a, b) < |r| && forall i :: Shift(lo, a, b) <= i < Shift(hi, a, b) ==> IsComment(r[i])
  {
  }

  /** The part of a region below its function's first line. */
  ghost predicate RecipeAt(ls: seq<string>, k: CutSpec, start: nat, todo: nat, first: nat) {
    && start <= todo <= first < |ls|
    && Contains(ls[todo], k.todo) && (forall i :: start <= i < todo ==> !Contains(ls[i], k.todo))
    && (forall i :: todo <= i < first ==> IsComment(ls[i])) && !IsComment(ls[first]) && IsBlank(ls[first])
  }

  ghost predicate AnswerAt(ls: seq<string>, k: CutSpec, first: nat, last: nat) {
    first <= last < |ls| && Contains(ls[last], k.end) && (forall i :: first <= i < last ==> !Contains(ls[i], k.end))
  }

  lemma RecipeStays(ls: seq<string>, k: CutSpec, start: nat, todo: nat, first: nat, a: nat, b: nat)
    requires RecipeAt(ls, k, start, todo, first) && a <= b < |ls|
    requires Outside(start, a, b) && Outside(todo, a, b) && Outside(first, a, b)
    ensures RecipeAt(Delete(ls, a, b), k, Shift(start, a, b), Shift(todo, a, b), Shift(first, a, b))
  {
    LineStays(ls, todo, a, b);
    LineStays(ls, first, a, b);
    NoneStay(ls, k.todo, start, todo, a, b);
    CommentsStay(ls, todo, first, a, b);
  }

  lemma AnswerStays(ls: seq<string>, k: CutSpec, first: nat, last: nat, a: nat, b: nat)
    requires AnswerAt(ls, k, first, last) && a <= b < |ls| && Outside(first, a, b) && Outside(last, a, b)
    ensures AnswerAt(Delete(ls, a, b), k, Shift(first, a, b), Shift(last, a, b))
  {
    LineStays(ls, last, a, b);
    NoneStay(ls, k.end, first, last, a, b);
  }

  /** A cut elsewhere moves a region but does not change what is found. */
  lemma Relocates(ls: seq<string>, k: CutSpec, r: Region, a: nat, b: nat)
    requires Locates(ls, k, r) && a <= b < |ls| && Untouched(r, a, b)
    ensures Locates(Delete(ls, a, b), k, ShiftRegion(r, a, b))
  {
    FnStays(ls, k.fn, r.fn, a, b);
    RecipeStays(ls, k, r.fn.start, r.todo, r.first, a, b);
    AnswerStays(ls, k, r.first, r.last, a, b);
  }

  /** The region `r` leaves all of `rs` alone. */
  ghost predicate Clear(rs: seq<Region>, r: Region) {
    r.first <= r.last && forall j :: 0 <= j < |rs| ==> Untouched(rs[j], r.first, r.last) && WellFormed(rs[j])
  }

  ghost function ShiftAll(rs: seq<Region>, r: Region): (q: seq<Region>)
    requires Clear(rs, r)
    ensures |q| == |rs| && forall i :: 0 <= i < |rs| ==> q[i] == ShiftRegion(rs[i], r.first, r.last)
  {
    if |rs| == 0 then [] else ShiftAll(rs[..|rs| - 1], r) + [ShiftRegion(rs[|rs| - 1], r.first, r.last)]
  }

  lemma LastIsClear(ls: seq<string>, ks: seq<CutSpec>, rs: seq<Region>)
    requires Compatible(ls, ks, rs) && |rs| > 0
    ensures Clear(rs[..|rs| - 1], rs[|rs| - 1]) && rs[|rs| - 1].last < |ls|
  {
    var n := |rs| - 1;
    LocatedAt(ls, ks, rs, n);
    forall j | 0 <= j < n ensures WellFormed(rs[j]) { LocatedAt(ls, ks, rs, j); }
  }

  lemma UntouchedShift(r: Region, q: Region, a: nat, b: nat)
    requires a <= b && WellFormed(r) && WellFormed(q) && Untouched(r, a, b) && Untouched(q, a, b)
    requires Untouched(r, q.first, q.last)
    ensures Untouched(ShiftRegion(r, a, b), ShiftRegion(q, a, b).first, ShiftRegion(q, a, b).last)
  {
  }

  lemma {:induction false} StayLocated(ls: seq<string>, ks: seq<CutSpec>, rs: seq<Region>, r: Region)
    requires AllLocated(ls, ks, rs) && Clear(rs, r) && r.last < |ls|
    ensures AllLocated(Delete(ls, r.first, r.last), ks, ShiftAll(rs, r))
  {
    if |rs| > 0 {
      var n := |rs| - 1;
      StayLocated(ls, ks[..n], rs[..n], r);
      Relocates(ls, ks[n], rs[n], r.first, r.last);
      assert ShiftAll(rs, r)[..n] == ShiftAll(rs[..n], r);
    }
  }

  lemma StayUndisturbed(rs: seq<Region>, r: Region)
    requires Undisturbed(rs) && Clear(rs, r)
    ensures Undisturbed(ShiftAll(rs, r))
  {
    var qs := ShiftAll(rs, r);
    forall i, j | 0 <= i < j < |qs| ensures Untouched(qs[i], qs[j].first, qs[j].last) {
      UntouchedShift(rs[i], rs[j], r.first, r.last);
    }
  }

  predicate Deleted(rs: seq<Region>, i: nat) { exists j :: 0 <= j < |rs| && InCut(rs[j], i) }

  /** The first `n` lines without those of any region. */
  function Keep(ls: seq<string>, rs: seq<Region>, n: nat): seq<string>
    requires n <= |ls|
  {
    if n == 0 then [] else Keep(ls, rs, n - 1) + if Deleted(rs, n - 1) then [] else [ls[n - 1]]
  }

  lemma DeletedShift(rs: seq<Region>, r: Region, i: nat)
    requires Clear(rs, r) && !InCut(r, i)
    ensures Deleted(ShiftAll(rs, r), Shift(i, r.first, r.last)) <==> Deleted(rs + [r], i)
  {
    var qs := ShiftAll(rs, r);
    var k := Shift(i, r.first, r.last);
    if Deleted(qs, k) {
      var j :| 0 <= j < |qs| && InCut(qs[j], k);
      assert InCut((rs + [r])[j], i);
    }
    if Deleted(rs + [r], i) {
      var j :| 0 <= j < |rs + [r]| && InCut((rs + [r])[j], i);
      assert InCut(qs[j], k);
    }
  }

  /** How many of the first `n` lines are left once `a .. b` are gone. */
  function Left(n: nat, a: nat, b: nat): nat
    requires a <= b
  {
    if n <= a then n else if n <= b + 1 then a else n - (b - a + 1)
  }

  lemma LeftOfOne(ls: seq<string>, r: Region, n: nat)
    requires r.first <= r.last < |ls| && 0 < n <= |ls| && !InCut(r, n - 1)
    ensures var k := Left(n - 1, r.first, r.last);
      && Left(n, r.first, r.last) == k + 1 && k == Shift(n - 1, r.first, r.last)
      && k < |Delete(ls, r.first, r.last)| && Delete(ls, r.first, r.last)[k] == ls[n - 1]
  {
  }

  lemma {:induction false} LineCut(ls: seq<string>, rs: seq<Region>, r: Region, n: nat)
    requires r.first <= r.last < |ls| && 0 < n <= |ls| && InCut(r, n - 1)
    ensures Keep(ls, rs + [r], n) == Keep(ls, rs + [r], n - 1)
    ensures Left(n, r.first, r.last) == Left(n - 1, r.first, r.last)
  {
    assert InCut((rs + [r])[|rs|], n - 1);
    assert Deleted(rs + [r], n - 1);
  }

  lemma {:induction false} LineKept(ls: seq<string>, rs: seq<Region>, r: Region, n: nat)
    requires Clear(rs, r) && r.last < |ls| && 0 < n <= |ls| && !InCut(r, n - 1)
    ensures var ls' := Delete(ls, r.first, r.last); var k := Left(n - 1, r.first, r.last);
      var line := if Deleted(rs + [r], n - 1) then [] else [ls[n - 1]];
      && Left(n, r.first, r.last) == k + 1 <= |ls'|
      && Keep(ls, rs + [r], n) == Keep(ls, rs + [r], n - 1) + line
      && Keep(ls', ShiftAll(rs, r), k + 1) == Keep(ls', ShiftAll(rs, r), k) + line
  {
    DeletedShift(rs, r, n - 1);
    LeftOfOne(ls, r, n);
  }

  lemma {:induction false} KeepDelete(ls: seq<string>, rs: seq<Region>, r: Region, n: nat)
    requires Clear(rs, r) && r.last < |ls| && n <= |ls|
    ensures Keep(ls, rs + [r], n) == Keep(Delete(ls, r.first, r.last), ShiftAll(rs, r), Left(n, r.first, r.last))
  {
    if n > 0 {
      KeepDelete(ls, rs, r, n - 1);
      if InCut(r, n - 1) { LineCut(ls, rs, r, n); } else { LineKept(ls, rs, r, n); }
    }
  }

  lemma LastCut(ls: seq<string>, ks: seq<CutSpec>, r: Region)
    requires |ks| > 0 && Locates(ls, ks[|ks| - 1], r)
    ensures CutsOf(ls, ks) == CutsOf(Delete(ls, r.first, r.last), ks[..|ks| - 1])
  {
    CutIs(ls, ks[|ks| - 1], r);
  }

  lemma FrontCompatible(ls: seq<string>, ks: seq<CutSpec>, rs: seq<Region>)
    requires Compatible(ls, ks, rs) && |rs| > 0
    ensures Compatible(ls, ks[..|rs| - 1], rs[..|rs| - 1])
  {
  }

  /** Making the last cut leaves a text on which the others are compatible. */
  lemma OneLess(ls: seq<string>, ks: seq<CutSpec>, rs: seq<Region>, r: Region)
    requires Compatible(ls, ks, rs) && Clear(rs, r) && r.last < |ls|
    ensures Compatible(Delete(ls, r.first, r.last), ks, ShiftAll(rs, r))
  {
    StayLocated(ls, ks, rs, r);
    StayUndisturbed(rs, r);
  }

  lemma KeepLast(ls: seq<string>, rs: seq<Region>)
    requires |rs| > 0 && Clear(rs[..|rs| - 1], rs[|rs| - 1]) && rs[|rs| - 1].last < |ls|
    ensures var r := rs[|rs| - 1]; var ls' := Delete(ls, r.first, r.last);
      Keep(ls', ShiftAll(rs[..|rs| - 1], r), |ls'|) == Keep(ls, rs, |ls|)
  {
    KeepDelete(ls, rs[..|rs| - 1], rs[|rs| - 1], |ls|);
    assert rs[..|rs| - 1] + [rs[|rs| - 1]] == rs;
  }

  /** Such cuts all succeed, and together keep exactly the lines outside all their regions. */
  lemma {:induction false} CutsKeep(ls: seq<string>, ks: seq<CutSpec>, rs: seq<Region>)
    requires Compatible(ls, ks, rs)
    ensures CutsOf(ls, ks) == Some(Keep(ls, rs, |ls|))
  {
    if |rs| == 0 {
      KeepAll(ls, rs, |ls|);
      assert ls[..|ls|] == ls;
    } else {
      var n := |rs| - 1;
      LastIsClear(ls, ks, rs);
      LastCut(ls, ks, rs[n]);
      FrontCompatible(ls, ks, rs);
      OneLess(ls, ks[..n], rs[..n], rs[n]);
      KeepLast(ls, rs);
      CutsKeep(Delete(ls, rs[n].first, rs[n].last), ks[..n], ShiftAll(rs[..n], rs[n]));
    }
  }

  lemma {:induction false} KeepAll(ls: seq<string>, rs: seq<Region>, n: nat)
    requires |rs| == 0 && n <= |ls|
    ensures Keep(ls, rs, n) == ls[..n]
  {
    if n > 0 { KeepAll(ls, rs, n - 1); }
  }

  // ---------- the order of the cuts ----------

  ghost predicate Reorders(order: seq<nat>, n: nat) {
    && |order| == n && (forall i :: 0 <= i < n ==> order[i] < n)
    && (forall i, j :: 0 <= i < j < n ==> order[i] != order[j])
    && (forall j :: 0 <= j < n ==> j in order)
  }

  function Pick<T>(s: seq<T>, order: seq<nat>): (r: seq<T>)
    requires forall i :: 0 <= i < |order| ==> order[i] < |s|
    ensures |r| == |order| && forall i :: 0 <= i < |order| ==> r[i] == s[order[i]]
  {
    if |order| == 0 then [] else Pick(s, order[..|order| - 1]) + [s[order[|order| - 1]]]
  }

  lemma {:induction false} KeepSame(ls: seq<string>, rs: seq<Region>, qs: seq<Region>, n: nat)
    requires n <= |ls| && forall r :: r in rs <==> r in qs
    ensures Keep(ls, rs, n) == Keep(ls, qs, n)
  {
    if n > 0 {
      KeepSame(ls, rs, qs, n - 1);
      SameDeleted(rs, qs, n - 1);
      SameDeleted(qs, rs, n - 1);
    }
  }

  lemma SameDeleted(rs: seq<Region>, qs: seq<Region>, i: nat)
    requires forall r :: r in rs ==> r in qs
    ensures Deleted(rs, i) ==> Deleted(qs, i)
  {
    if Deleted(rs, i) {
      var j :| 0 <= j < |rs| && InCut(rs[j], i);
      assert rs[j] in qs;
      var k :| 0 <= k < |qs| && qs[k] == rs[j];
      assert InCut(qs[k], i);
    }
  }

  lemma {:induction false} PickLocated(ls: seq<string>, ks: seq<CutSpec>, rs: seq<Region>, order: seq<nat>)
    requires AllLocated(ls, ks, rs) && forall i :: 0 <= i < |order| ==> order[i] < |rs|
    ensures AllLocated(ls, Pick(ks, order), Pick(rs, order))
  {
    if |order| > 0 {
      var n := |order| - 1;
      PickLocated(ls, ks, rs, order[..n]);
      LocatedAt(ls, ks, rs, order[n]);
      assert Pick(ks, order)[..n] == Pick(ks, order[..n]) && Pick(rs, order)[..n] == Pick(rs, order[..n]);
    }
  }

  lemma PickApart(rs: seq<Region>, order: seq<nat>)
    requires ApartFrom(rs) && Reorders(order, |rs|)
    ensures ApartFrom(Pick(rs, order))
  {
    var qs := Pick(rs, order);
    forall i, j | 0 <= i < |qs| && 0 <= j < |qs| && i != j ensures Untouched(qs[i], qs[j].first, qs[j].last) {
      assert order[i] != order[j];
    }
  }

  lemma PickSame(rs: seq<Region>, order: seq<nat>)
    requires Reorders(order, |rs|)
    ensures forall r :: r in rs <==> r in Pick(rs, order)
  {
    var qs := Pick(rs, order);
    forall r | r in rs ensures r in qs {
      var j :| 0 <= j < |rs| && rs[j] == r;
      assert j in order;
      var i :| 0 <= i < |order| && order[i] == j;
      assert qs[i] == r;
    }
  }

  /** The order in which independent cuts are listed does not matter. */
  lemma OrderIrrelevant(ls: seq<string>, ks: seq<CutSpec>, rs: seq<Region>, order: seq<nat>)
    requires Independent(ls, ks, rs) && Reorders(order, |rs|)
    ensures CutsOf(ls, ks).Some? && CutsOf(ls, Pick(ks, order)) == CutsOf(ls, ks)
  {
    PickLocated(ls, ks, rs, order);
    PickApart(rs, order);
    PickSame(rs, order);
    CutsKeep(ls, ks, rs);
    CutsKeep(ls, Pick(ks, order), Pick(rs, order));
    KeepSame(ls, rs, Pick(rs, order), |ls|);
  }

  // ---------- the recipes ----------

  /** Lines `lo .. hi` are kept, all of them and with nothing in between. */
  ghost predicate Whole(ls: seq<string>, rs: seq<Region>, lo: nat, hi: nat)
    requires lo <= hi <= |ls|
  {
    Keep(ls, rs, hi) == Keep(ls, rs, lo) + ls[lo..hi]
  }

  /** The lines from `lo` to before `hi` and the deleted ones have a line in common. */
  predicate Meets(r: Region, lo: nat, hi: nat) { Max(r.first, lo) < Min(r.last + 1, hi) }

  lemma MeetsMeans(r: Region, lo: nat, hi: nat)
    ensures Meets(r, lo, hi) <==> exists i :: lo <= i < hi && InCut(r, i)
  {
    if Meets(r, lo, hi) { assert InCut(r, Max(r.first, lo)); }
  }

  lemma {:induction false} RunKept(ls: seq<string>, rs: seq<Region>, lo: nat, hi: nat)
    requires lo <= hi <= |ls| && forall i :: lo <= i < hi ==> !Deleted(rs, i)
    ensures Whole(ls, rs, lo, hi)
  {
    if lo < hi {
      RunKept(ls, rs, lo, hi - 1);
      assert ls[lo..hi] == ls[lo..hi - 1] + [ls[hi - 1]];
    } else {
      assert ls[lo..hi] == [];
    }
  }

  /** A deleted line is missed in the count. */
  lemma {:induction false} RunShortened(ls: seq<string>, rs: seq<Region>, lo: nat, hi: nat)
    requires lo <= hi <= |ls|
    ensures |Keep(ls, rs, hi)| <= |Keep(ls, rs, lo)| + (hi - lo)
    ensures (exists i :: lo <= i < hi && Deleted(rs, i)) ==> |Keep(ls, rs, hi)| < |Keep(ls, rs, lo)| + (hi - lo)
  {
    if lo < hi { RunShortened(ls, rs, lo, hi - 1); }
  }

  /** Lines come through all cuts whole if and only if no region meets them. */
  lemma {:induction false} WholeIff(ls: seq<string>, rs: seq<Region>, lo: nat, hi: nat)
    requires lo <= hi <= |ls|
    ensures Whole(ls, rs, lo, hi) <==> forall j :: 0 <= j < |rs| ==> !Meets(rs[j], lo, hi)
  {
    if forall j :: 0 <= j < |rs| ==> !Meets(rs[j], lo, hi) {
      forall i | lo <= i < hi ensures !Deleted(rs, i) {
        forall j | 0 <= j < |rs| ensures !InCut(rs[j], i) { MeetsMeans(rs[j], lo, hi); }
      }
      RunKept(ls, rs, lo, hi);
    } else {
      var j :| 0 <= j < |rs| && Meets(rs[j], lo, hi);
      assert InCut(rs[j], Max(rs[j].first, lo));
      assert Deleted(rs, Max(rs[j].first, lo));
      RunShortened(ls, rs, lo, hi);
    }
  }

  /** Recipe `j` is in what the cuts leave, all its lines and nothing in between. */
  ghost predicate RecipeWhole(ls: seq<string>, rs: seq<Region>, j: nat)
    requires j < |rs| && rs[j].todo <= rs[j].first <= |ls|
  {
    Whole(ls, rs, rs[j].todo, rs[j].first)
  }

  ghost predicate NoneMeets(rs: seq<Region>, j: nat)
    requires j < |rs|
  {
    forall k :: 0 <= k < |rs| && k != j ==> !Meets(rs[k], rs[j].todo, rs[j].first)
  }

  /** The exact condition: a recipe survives all cuts whole if and only if no other region meets its lines. */
  lemma {:induction false} RecipeWholeIff(ls: seq<string>, ks: seq<CutSpec>, rs: seq<Region>, j: nat)
    requires Compatible(ls, ks, rs) && j < |rs| && Locates(ls, ks[j], rs[j])
    ensures CutsOf(ls, ks) == Some(Keep(ls, rs, |ls|))
    ensures RecipeWhole(ls, rs, j) <==> NoneMeets(rs, j)
  {
    CutsKeep(ls, ks, rs);
    WholeIff(ls, rs, rs[j].todo, rs[j].first);
    assert !Meets(rs[j], rs[j].todo, rs[j].first);
  }

  /** When no cut touches what any other one looks for, every recipe survives. */
  lemma {:induction false} RecipeKept(ls: seq<string>, ks: seq<CutSpec>, rs: seq<Region>, j: nat)
    requires Independent(ls, ks, rs) && j < |rs| && Locates(ls, ks[j], rs[j])
    ensures CutsOf(ls, ks) == Some(Keep(ls, rs, |ls|)) && RecipeWhole(ls, rs, j)
  {
    forall k | 0 <= k < |rs| && k != j ensures !Meets(rs[k], rs[j].todo, rs[j].first) {
      LocatedAt(ls, ks, rs, k);
      assert Untouched(rs[j], rs[k].first, rs[k].last);
    }
    RecipeWholeIff(ls, ks, rs, j);
  }

  /** The swap of lines `head .. close` as one more region, on the text that the cuts leave. */
  function SwapRegion(kept: seq<string>, f: Fn): Region
    requires f.start <= f.close < |kept|
  {
    Region(f, f.start, HeadOf(kept, f.start), f.close)
  }

  lemma {:induction false} SwapKeeps(kept: seq<string>, f: Fn, n: nat)
    requires f.start <= f.close < |kept| && n <= |kept|
    ensures var head := HeadOf(kept, f.start);
      && Keep(kept, [SwapRegion(kept, f)], n) ==
         (if n <= head then kept[..n]
          else if n <= f.close + 1 then kept[..head] else kept[..head] + kept[f.close + 1..n])
  {
    var r := SwapRegion(kept, f);
    if n > 0 {
      SwapKeeps(kept, f, n - 1);
      assert [r][0] == r && (Deleted([r], n - 1) <==> InCut(r, n - 1));
    }
  }

  /** The swap keeps exactly the lines outside its region, around the replacement. */
  lemma {:induction false} SwapIsCut(kept: seq<string>, f: Fn, replacement: seq<string>)
    requires f.start <= f.close < |kept|
    ensures var head, tail := kept[..HeadOf(kept, f.start)], kept[f.close + 1..];
      && Swapped(kept, f, replacement) == head + replacement + tail
      && Keep(kept, [SwapRegion(kept, f)], |kept|) == head + tail
  {
    SwapKeeps(kept, f, |kept|);
  }

  lemma {:induction false} SwapWholeIff(kept: seq<string>, f: Fn, lo: nat, hi: nat)
    requires f.start <= f.close < |kept| && lo <= hi <= |kept|
    ensures Whole(kept, [SwapRegion(kept, f)], lo, hi) <==> !Meets(SwapRegion(kept, f), lo, hi)
  {
    WholeIff(kept, [SwapRegion(kept, f)], lo, hi);
    assert [SwapRegion(kept, f)][0] == SwapRegion(kept, f);
  }

  /** Where recipe `j` is once all cuts are done. */
  function RecipeFrom(ls: seq<string>, rs: seq<Region>, j: nat): nat
    requires j < |rs| && rs[j].todo <= |ls|
  {
    |Keep(ls, rs, rs[j].todo)|
  }

  function RecipeTo(ls: seq<string>, rs: seq<Region>, j: nat): nat
    requires j < |rs| && rs[j].first <= |ls|
  {
    |Keep(ls, rs, rs[j].first)|
  }

  lemma {:induction false} RecipeIsThere(ls: seq<string>, rs: seq<Region>, j: nat)
    requires j < |rs| && rs[j].todo <= rs[j].first <= |ls|
    ensures RecipeFrom(ls, rs, j) <= RecipeTo(ls, rs, j) <= |Keep(ls, rs, |ls|)|
    ensures RecipeWhole(ls, rs, j) ==>
            Keep(ls, rs, |ls|)[RecipeFrom(ls, rs, j)..RecipeTo(ls, rs, j)] == ls[rs[j].todo..rs[j].first]
  {
    KeepGrows(ls, rs, rs[j].todo, rs[j].first);
    KeepGrows(ls, rs, rs[j].first, |ls|);
  }

  /**
   Through the whole derivation: the recipe is in the part of the result that is not the
   replacement, whole, if and only if no other region meets it and neither does the swapped function.
   */
  lemma {:induction false} RecipeSurvivesIff(ls: seq<string>, ks: seq<CutSpec>, rs: seq<Region>, j: nat, f: Fn)
    requires Compatible(ls, ks, rs) && j < |rs| && Locates(ls, ks[j], rs[j])
    requires f.start <= f.close < |Keep(ls, rs, |ls|)|
    ensures RecipeFrom(ls, rs, j) <= RecipeTo(ls, rs, j) <= |Keep(ls, rs, |ls|)|
    ensures var kept := Keep(ls, rs, |ls|); var sw := SwapRegion(kept, f);
      RecipeWhole(ls, rs, j) && Whole(kept, [sw], RecipeFrom(ls, rs, j), RecipeTo(ls, rs, j)) <==>
      NoneMeets(rs, j) && !Meets(sw, RecipeFrom(ls, rs, j), RecipeTo(ls, rs, j))
  {
    var kept := Keep(ls, rs, |ls|);
    RecipeIsThere(ls, rs, j);
    RecipeWholeIff(ls, ks, rs, j);
    SwapWholeIff(kept, f, RecipeFrom(ls, rs, j), RecipeTo(ls, rs, j));
  }

  lemma {:induction false} KeepGrows(ls: seq<string>, rs: seq<Region>, m: nat, n: nat)
    requires m <= n <= |ls|
    ensures Keep(ls, rs, m) <= Keep(ls, rs, n)
  {
    if m < n { KeepGrows(ls, rs, m, n - 1); }
  }

  // ---------- a text whose cuts are not independent ----------

  const NESTED: seq<string> := ["static({", "//1", "", "//2", "", "Y", "X", "}"]
  const HALFWAY: seq<string> := ["static({", "//1", "", "//2", "X", "}"]
  const OUTER := CutSpec("static", "1", "X")
  const INNER := CutSpec("static", "2", "Y")

  lemma {:induction false} ContainsChar(s: string, c: char)
    ensures Contains(s, [c]) <==> c in s
  {
    if |s| > 0 {
      ContainsChar(s[1..], c);
      assert s == [s[0]] + s[1..];
      assert [c] <= s <==> c == s[0];
    }
  }

  lemma Unspaced(s: string)
    requires |s| > 0 ==> !IsSpace(s[0]) && !IsSpace(s[|s| - 1])
    ensures RStrip(s) == s && LStrip(s) == s
  {
  }

  /** The single characters looked for, line by line. */
  lemma Needles()
    ensures !Contains("static({", "1") && !Contains("static({", "2") && Contains("//1", "1") && !Contains("//1", "2")
    ensures !Contains("", "2") && !Contains("", "X") && !Contains("", "Y") && Contains("//2", "2") &&
            !Contains("//2", "X")
    ensures Contains("Y", "Y") && Contains("X", "X")
  {
    ContainsChar("static({", '1');
    ContainsChar("static({", '2');
    ContainsChar("//1", '1');
    ContainsChar("//1", '2');
    ContainsChar("//2", '2');
    ContainsChar("//2", 'X');
    ContainsChar("", '2');
    ContainsChar("", 'X');
    ContainsChar("", 'Y');
    ContainsChar("Y", 'Y');
    ContainsChar("X", 'X');
  }

  lemma Shapes()
    ensures IsDefinition("static({", "static") && Opens("static({") && IsComment("//1") && IsComment("//2")
    ensures IsBlank("") && !IsComment("")
  {
    Unspaced("static({");
    Unspaced("//1");
    Unspaced("//2");
    assert "static" + "(" <= "static({";
  }

  lemma OneDefinition(ls: seq<string>)
    requires |ls| > 0 && ls[0] == "static({" && forall i :: 0 < i < |ls| ==> |ls[i]| < 6
    ensures forall i :: 0 <= i < |ls| ==> (IsDefinition(ls[i], "static") <==> i == 0)
  {
    Shapes();
  }

  lemma InnerFn()
    ensures FnAt(NESTED, "static", Fn(0, 0, 7))
  {
    OneDefinition(NESTED);
    Shapes();
  }

  lemma InnerRecipe()
    ensures RecipeAt(NESTED, INNER, 0, 3, 4)
  {
    Needles();
    Shapes();
  }

  lemma InnerAnswer()
    ensures AnswerAt(NESTED, INNER, 4, 5)
  {
    Needles();
  }

  lemma InnerFound()
    ensures Locates(NESTED, INNER, Region(Fn(0, 0, 7), 3, 4, 5))
  {
    InnerFn();
    InnerRecipe();
    InnerAnswer();
  }

  lemma OuterFn()
    ensures FnAt(HALFWAY, "static", Fn(0, 0, 5))
  {
    OneDefinition(HALFWAY);
    Shapes();
  }

  lemma OuterFound()
    ensures Locates(HALFWAY, OUTER, Region(Fn(0, 0, 5), 1, 2, 4))
  {
    OuterFn();
    Needles();
    Shapes();
  }

  lemma TwoCuts(ls: seq<string>, j: CutSpec, k: CutSpec, q: Region, r: Region)
    requires Locates(ls, k, r) && Locates(Delete(ls, r.first, r.last), j, q)
    ensures CutsOf(ls, [j, k]) == Some(Delete(Delete(ls, r.first, r.last), q.first, q.last))
  {
    LastCut(ls, [j, k], r);
    LastCut(Delete(ls, r.first, r.last), [j], q);
    assert [j, k][..1] == [j] && [j][..0] == [];
  }

  lemma NestedDeletes()
    ensures Delete(NESTED, 4, 5) == HALFWAY && Delete(HALFWAY, 2, 4) == ["static({", "//1", "}"]
  {
  }

  /** Both cuts are accepted, and the second recipe is deleted with the first answer. */
  lemma NestedRecipeLost()
    ensures CutsOf(NESTED, [OUTER, INNER]) == Some(["static({", "//1", "}"])
  {
    InnerFound();
    OuterFound();
    NestedDeletes();
    TwoCuts(NESTED, OUTER, INNER, Region(Fn(0, 0, 5), 1, 2, 4), Region(Fn(0, 0, 7), 3, 4, 5));
  }
}
