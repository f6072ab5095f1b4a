/**
 Deriving the exercise template from the solution: each cut deletes the answer below one TODO
 recipe, and the pipeline function is swapped for another. What a cut finds is a declarative
 `Locates`; cuts that leave each other's anchors alone amount to deleting one set of lines.
 */
module RegenTemplates {
  import opened Words

  // ---------- lines ----------

  predicate IsSpace(c: char) { c == ' ' || '\t' <= c <= '\r' || '\U{1C}' <= c <= '\U{1F}' }

  function RStrip(s: string): string { if |s| > 0 && IsSpace(s[|s| - 1]) then RStrip(s[..|s| - 1]) else s }

  function LStrip(s: string): string { if |s| > 0 && IsSpace(s[0]) then LStrip(s[1..]) else s }

  predicate Contains(s: string, needle: string) { needle <= s || (|s| > 0 && Contains(s[1..], needle)) }

  predicate IsDefinition(line: string, name: string) { "static" <= line && Contains(line, name + "(") }

  predicate Opens(line: string) { var r := RStrip(line); |r| > 0 && r[|r| - 1] == '{' }

  predicate Closes(line: string) { line == "}" }

  predicate IsComment(line: string) { "//" <= LStrip(line) }

  predicate IsBlank(line: string) { RStrip(line) == "" }

  // ---------- what the line tests mean ----------

  predicate AllSpace(s: string) { forall i :: 0 <= i < |s| ==> IsSpace(s[i]) }

  predicate FoundAt(s: string, needle: string, i: nat) { i + |needle| <= |s| && s[i..i + |needle|] == needle }

  /** The needle is in the line at some position. */
  lemma {:induction false} ContainsMeans(s: string, needle: string)
    ensures Contains(s, needle) <==> exists i: nat :: FoundAt(s, needle, i)
  {
    if needle <= s {
      assert FoundAt(s, needle, 0);
    } else if |s| > 0 {
      ContainsMeans(s[1..], needle);
      if Contains(s[1..], needle) {
        var i: nat :| FoundAt(s[1..], needle, i);
        assert FoundAt(s, needle, i + 1);
      }
      if i: nat :| FoundAt(s, needle, i) {
        FoundLater(s, needle, i);
        assert FoundAt(s[1..], needle, i - 1);
      }
    }
  }

  lemma FoundLater(s: string, needle: string, i: nat)
    requires FoundAt(s, needle, i) && !(needle <= s)
    ensures i > 0 && FoundAt(s[1..], needle, i - 1)
  {
    if i > 0 { assert s[1..][i - 1..i - 1 + |needle|] == s[i..i + |needle|]; }
  }

  lemma {:induction false} LStripMeans(s: string)
    ensures exists i: nat :: i <= |s| && AllSpace(s[..i]) && LStrip(s) == s[i..] && (i < |s| ==> !IsSpace(s[i]))
  {
    if |s| > 0 && IsSpace(s[0]) {
      LStripMeans(s[1..]);
      var i: nat :| i <= |s[1..]| && AllSpace(s[1..][..i]) && LStrip(s[1..]) == s[1..][i..]
                    && (i < |s[1..]| ==> !IsSpace(s[1..][i]));
      assert AllSpace(s[..i + 1]) by {
        forall j | 0 <= j < i + 1 ensures IsSpace(s[j]) { if j > 0 { assert s[j] == s[1..][..i][j - 1]; } }
      }
      assert s[1..][i..] == s[i + 1..];
    } else {
      assert AllSpace(s[..0]) && s[0..] == s;
    }
  }

  lemma {:induction false} RStripMeans(s: string)
    ensures RStrip(s) <= s && AllSpace(s[|RStrip(s)|..]) && (|RStrip(s)| > 0 ==> !IsSpace(RStrip(s)[|RStrip(s)| - 1]))
  {
    if |s| > 0 && IsSpace(s[|s| - 1]) {
      RStripMeans(s[..|s| - 1]);
      var n := |RStrip(s)|;
      forall j | n <= j < |s| ensures IsSpace(s[j]) {
        if j < |s| - 1 { assert s[j] == s[..|s| - 1][n..][j - n]; }
      }
    }
  }

  predicate CommentAt(s: string, i: nat) { i + 2 <= |s| && AllSpace(s[..i]) && s[i] == s[i + 1] == '/' }

  /** Two runs of whitespace that end before something else are the same. */
  lemma SameIndent(s: string, i: nat, k: nat)
    requires i < |s| && k <= |s| && AllSpace(s[..i]) && AllSpace(s[..k])
    requires !IsSpace(s[i]) && (k < |s| ==> !IsSpace(s[k]))
    ensures i == k
  {
    if i < k { SpaceAt(s, k, i); } else if k < i { SpaceAt(s, i, k); }
  }

  lemma SpaceAt(s: string, n: nat, i: nat)
    requires i < n <= |s| && AllSpace(s[..n])
    ensures IsSpace(s[i])
  {
    assert s[..n][i] == s[i];
  }

  /** A definition starts with `static` and names the function before an opening parenthesis. */
  lemma DefinitionMeans(line: string, name: string)
    ensures IsDefinition(line, name) <==>
            |line| >= 6 && line[..6] == "static" && exists i: nat :: FoundAt(line, name + "(", i)
  {
    ContainsMeans(line, name + "(");
  }

  /** A comment line is one that starts with two slashes, behind any indentation. */
  lemma CommentMeans(s: string)
    ensures IsComment(s) <==> exists i: nat :: CommentAt(s, i)
  {
    LStripMeans(s);
    var k: nat :| k <= |s| && AllSpace(s[..k]) && LStrip(s) == s[k..] && (k < |s| ==> !IsSpace(s[k]));
    if IsComment(s) {
      assert s[k..][0] == '/' && s[k..][1] == '/';
      assert CommentAt(s, k);
    }
    if i: nat :| CommentAt(s, i) {
      SameIndent(s, i, k);
      assert s[k..][0] == '/' && s[k..][1] == '/';
    }
  }

  predicate OpensAt(s: string, i: nat) { i < |s| && s[i] == '{' && AllSpace(s[i + 1..]) }

  lemma SpaceBehind(s: string, i: nat)
    requires i <= |s| && AllSpace(s[i..])
    ensures forall j :: i <= j < |s| ==> IsSpace(s[j])
  {
    forall j | i <= j < |s| ensures IsSpace(s[j]) { assert s[i..][j - i] == s[j]; }
  }

  /** A blank line is whitespace only; an opening line ends in a brace, up to whitespace. */
  lemma BlankAndOpenMean(s: string)
    ensures IsBlank(s) <==> AllSpace(s)
    ensures Opens(s) <==> exists i: nat :: OpensAt(s, i)
  {
    RStripMeans(s);
    var n := |RStrip(s)|;
    SpaceBehind(s, n);
    if Opens(s) { assert OpensAt(s, n - 1); }
    if i: nat :| OpensAt(s, i) { SpaceBehind(s, i + 1); }
  }

  // ---------- what a cut finds ----------

  datatype Fn = Fn(start: nat, open: nat, close: nat)

  datatype CutSpec = CutSpec(fn: string, todo: string, end: string)

  /** Function lines, the recipe from `todo` to before the blank line `first`, and the last deleted line. */
  datatype Region = Region(fn: Fn, todo: nat, first: nat, last: nat)

  /** The one definition of `name`, its opening line, and the first line that is just a closing brace. */
  ghost predicate FnAt(ls: seq<string>, name: string, f: Fn) {
    && f.start <= f.open < f.close < |ls|
    && (forall i :: 0 <= i < |ls| ==> (IsDefinition(ls[i], name) <==> i == f.start))
    && Opens(ls[f.open]) && (forall i :: f.start <= i < f.open ==> !Opens(ls[i]))
    && Closes(ls[f.close]) && (forall i :: f.open < i < f.close ==> !Closes(ls[i]))
  }

  ghost predicate Locates(ls: seq<string>, k: CutSpec, r: Region) {
    && FnAt(ls, k.fn, r.fn)
    && r.fn.start <= r.todo <= r.first <= r.last <= r.fn.close
    && Contains(ls[r.todo], k.todo) && (forall i :: r.fn.start <= i < r.todo ==> !Contains(ls[i], k.todo))
    && (forall i :: r.todo <= i < r.first ==> IsComment(ls[i]))
    && !IsComment(ls[r.first]) && IsBlank(ls[r.first])
    && Contains(ls[r.last], k.end) && (forall i :: r.first <= i < r.last ==> !Contains(ls[i], k.end))
  }

  lemma FnUnique(ls: seq<string>, name: string, f: Fn, g: Fn)
    requires FnAt(ls, name, f) && FnAt(ls, name, g)
    ensures f == g
  {
    assert IsDefinition(ls[f.start], name);
  }

  /** A text and a cut determine the region. */
  lemma LocatesUnique(ls: seq<string>, k: CutSpec, q: Region, r: Region)
    requires Locates(ls, k, q) && Locates(ls, k, r)
    ensures q == r
  {
    FnUnique(ls, k.fn, q.fn, r.fn);
    assert q.todo == r.todo;
    assert q.first == r.first;
  }

  function Delete(ls: seq<string>, a: nat, b: nat): (r: seq<string>)
    requires a <= b < |ls|
    ensures |r| == |ls| - (b - a + 1)
    ensures forall i :: 0 <= i < |r| ==> r[i] == if i < a then ls[i] else ls[i + (b - a + 1)]
  {
    ls[..a] + ls[b + 1..]
  }

  // ---------- the script ----------

  class Text {
    var lines: seq<string>

    constructor (lines: seq<string>)
      ensures this.lines == lines
    {
      this.lines := lines;
    }

    method FindStart(name: string) returns (r: Option<nat>)
      ensures r.Some? ==>
              r.value < |lines| && forall i :: 0 <= i < |lines| ==> (IsDefinition(lines[i], name) <==> i == r.value)
      ensures r.None? ==> forall f :: !FnAt(lines, name, f)
    {
      var starts: seq<nat> := [];
      var i := 0;
      while i < |lines|
        invariant i <= |lines|
        invariant forall j :: 0 <= j < |starts| ==> starts[j] < i && IsDefinition(lines[starts[j]], name)
        invariant forall j, k :: 0 <= j < k < |starts| ==> starts[j] < starts[k]
        invariant forall j :: 0 <= j < i && IsDefinition(lines[j], name) ==> j in starts
      {
        if IsDefinition(lines[i], name) {
          starts := starts + [i];
        }
        i := i + 1;
      }
      if |starts| != 1 {
        forall f ensures !FnAt(lines, name, f) { NotOne(lines, name, starts, f); }
        return None;
      }
      return Some(starts[0]);
    }

    /** Refuses a missing or ambiguous definition; running off the end of the text is a crash, also shown as None. */
    method FindFn(name: string) returns (r: Option<Fn>)
      ensures r.Some? ==> FnAt(lines, name, r.value)
      ensures r.None? ==> forall f :: !FnAt(lines, name, f)
    {
      var start := FindStart(name);
      if start.None? {
        return None;
      }
      var o := start.value;
      while o < |lines| && !Opens(lines[o])
        invariant start.value <= o <= |lines|
        invariant forall i :: start.value <= i < o ==> !Opens(lines[i])
      {
        o := o + 1;
      }
      var c := o + 1;
      while c < |lines| && !Closes(lines[c])
        invariant o < c && (o < |lines| ==> c <= |lines|)
        invariant forall i :: o < i < c && i < |lines| ==> !Closes(lines[i])
      {
        c := c + 1;
      }
      if c >= |lines| {
        forall f ensures !FnAt(lines, name, f) { NotFound(lines, name, start.value, o, f); }
        return None;
      }
      return Some(Fn(start.value, o, c));
    }

    /** First line of `from .. to` that contains the needle. */
    method FindLine(from: nat, to: nat, needle: string) returns (r: Option<nat>)
      requires to < |lines|
      ensures r.Some? ==> from <= r.value <= to && Contains(lines[r.value], needle)
      ensures r.Some? ==> forall i :: from <= i < r.value ==> !Contains(lines[i], needle)
      ensures r.None? ==> forall i :: from <= i <= to ==> !Contains(lines[i], needle)
    {
      var i := from;
      while i <= to
        invariant from <= i && forall j :: from <= j < i && j <= to ==> !Contains(lines[j], needle)
      {
        if Contains(lines[i], needle) {
          return Some(i);
        }
        i := i + 1;
      }
      return None;
    }

    method FindRegion(k: CutSpec) returns (r: Option<Region>)
      ensures r.Some? ==> Locates(lines, k, r.value)
      ensures r.None? ==> forall q :: !Locates(lines, k, q)
    {
      var fn := FindFn(k.fn);
      if fn.None? {
        return None;
      }
      var f := fn.value;
      var todo := FindLine(f.start, f.close, k.todo);
      if todo.None? {
        forall q ensures !Locates(lines, k, q) { NoTodo(lines, k, f, q); }
        return None;
      }
      var t := todo.value;
      var a := t;
      while a <= f.close && IsComment(lines[a])
        invariant t <= a <= f.close + 1 && forall i :: t <= i < a ==> IsComment(lines[i])
      {
        a := a + 1;
      }
      if a > f.close || !IsBlank(lines[a]) {
        forall q ensures !Locates(lines, k, q) { NoBlank(lines, k, f, t, a, q); }
        return None;
      }
      var last := FindLine(a, f.close, k.end);
      if last.None? {
        forall q ensures !Locates(lines, k, q) { NoEnd(lines, k, f, t, a, q); }
        return None;
      }
      return Some(Region(f, t, a, last.value));
    }

    /** Deletes one region in place, or refuses and leaves the text alone. */
    method CutRegion(k: CutSpec) returns (r: Option<Region>)
      modifies this
      ensures r.Some? ==> Locates(old(lines), k, r.value) && lines == Delete(old(lines), r.value.first, r.value.last)
      ensures r.None? ==> lines == old(lines) && forall q :: !Locates(lines, k, q)
      ensures CutOf(old(lines), k) == if r.Some? then Some(lines) else None
    {
      r := FindRegion(k);
      if r.Some? {
        CutIs(lines, k, r.value);
        lines := lines[..r.value.first] + lines[r.value.last + 1..];
      }
    }

    /** The last cut first. */
    method CutAll(cuts: seq<CutSpec>) returns (ok: bool)
      modifies this
      ensures ok <==> CutsOf(old(lines), cuts).Some?
      ensures ok ==> CutsOf(old(lines), cuts) == Some(lines)
    {
      ghost var before := lines;
      var n: nat := |cuts|;
      assert cuts[..n] == cuts;
      while n > 0
        invariant n <= |cuts| && CutsOf(lines, cuts[..n]) == CutsOf(before, cuts)
      {
        n := n - 1;
        CutsStep(lines, cuts, n);
        var r := CutRegion(cuts[n]);
        if r.None? {
          return false;
        }
      }
      return true;
    }

    /** The swap of the pipeline function with the comment lines directly above it. */
    method Swap(name: string, replacement: seq<string>) returns (r: Option<Fn>)
      modifies this
      ensures r.Some? ==> FnAt(old(lines), name, r.value) && lines == Swapped(old(lines), r.value, replacement)
      ensures r.None? ==> lines == old(lines) && forall f :: !FnAt(lines, name, f)
    {
      r := FindFn(name);
      if r.Some? {
        var b0: nat := r.value.start;
        while b0 > 0 && "//" <= lines[b0 - 1]
          invariant b0 <= r.value.start && HeadOf(lines, r.value.start) == HeadOf(lines, b0)
        {
          b0 := b0 - 1;
        }
        lines := lines[..b0] + replacement + lines[r.value.close + 1..];
      }
    }

    /** The whole derivation. Apart from the swap it only ever deletes lines. */
    method Derive(cuts: seq<CutSpec>, name: string, replacement: seq<string>) returns (ok: bool)
      modifies this
      ensures ok ==>
              CutsOf(old(lines), cuts).Some? && IsSwapOf(lines, CutsOf(old(lines), cuts).value, name, replacement)
      ensures ok ==> Derives(old(lines), lines, replacement)
    {
      ghost var before := lines;
      ok := CutAll(cuts);
      if ok {
        ghost var kept := lines;
        var f := Swap(name, replacement);
        ok := f.Some?;
        if ok {
          CutsDelete(before, cuts);
          SwapDeletes(before, kept, f.value, replacement);
          assert IsSwapOf(lines, kept, name, replacement);
        }
      }
    }
  }

  lemma NotOne(ls: seq<string>, name: string, starts: seq<nat>, f: Fn)
    requires |starts| != 1
    requires forall j :: 0 <= j < |starts| ==> starts[j] < |ls| && IsDefinition(ls[starts[j]], name)
    requires forall j, k :: 0 <= j < k < |starts| ==> starts[j] < starts[k]
    requires forall j :: 0 <= j < |ls| && IsDefinition(ls[j], name) ==> j in starts
    ensures !FnAt(ls, name, f)
  {
    assert f.start < |ls| && IsDefinition(ls[f.start], name) ==> f.start in starts;
    assert |starts| > 1 ==>
      starts[0] < starts[1] && IsDefinition(ls[starts[0]], name) && IsDefinition(ls[starts[1]], name);
  }

  lemma NotFound(ls: seq<string>, name: string, start: nat, o: nat, f: Fn)
    requires start < |ls| && forall i :: 0 <= i < |ls| ==> (IsDefinition(ls[i], name) <==> i == start)
    requires start <= o <= |ls| && forall i :: start <= i < o ==> !Opens(ls[i])
    requires o < |ls| ==> Opens(ls[o])
    requires forall i :: o < i < |ls| ==> !Closes(ls[i])
    ensures !FnAt(ls, name, f)
  {
    assert f.start < |ls| ==> (IsDefinition(ls[f.start], name) <==> f.start == start);
  }

  lemma NoTodo(ls: seq<string>, k: CutSpec, f: Fn, q: Region)
    requires FnAt(ls, k.fn, f) && forall i :: f.start <= i <= f.close ==> !Contains(ls[i], k.todo)
    ensures !Locates(ls, k, q)
  {
    if Locates(ls, k, q) { FnUnique(ls, k.fn, f, q.fn); }
  }

  ghost predicate TodoAt(ls: seq<string>, k: CutSpec, f: Fn, t: nat) {
    && FnAt(ls, k.fn, f) && f.start <= t <= f.close && Contains(ls[t], k.todo)
    && forall i :: f.start <= i < t ==> !Contains(ls[i], k.todo)
  }

  lemma TodoIs(ls: seq<string>, k: CutSpec, f: Fn, t: nat, q: Region)
    requires TodoAt(ls, k, f, t) && Locates(ls, k, q)
    ensures q.fn == f && q.todo == t
  {
    FnUnique(ls, k.fn, f, q.fn);
  }

  lemma NoBlank(ls: seq<string>, k: CutSpec, f: Fn, t: nat, a: nat, q: Region)
    requires TodoAt(ls, k, f, t) && t <= a && forall i :: t <= i < a && i <= f.close ==> IsComment(ls[i])
    requires a <= f.close ==> !IsComment(ls[a]) && !IsBlank(ls[a])
    ensures !Locates(ls, k, q)
  {
    if Locates(ls, k, q) { TodoIs(ls, k, f, t, q); }
  }

  lemma NoEnd(ls: seq<string>, k: CutSpec, f: Fn, t: nat, a: nat, q: Region)
    requires TodoAt(ls, k, f, t) && t <= a <= f.close && forall i :: t <= i < a ==> IsComment(ls[i])
    requires !IsComment(ls[a]) && forall i :: a <= i <= f.close ==> !Contains(ls[i], k.end)
    ensures !Locates(ls, k, q)
  {
    if Locates(ls, k, q) { TodoIs(ls, k, f, t, q); }
  }

  ghost function CutOf(ls: seq<string>, k: CutSpec): Option<seq<string>> {
    if exists r :: Locates(ls, k, r) then
      var r :| Locates(ls, k, r);
      Some(Delete(ls, r.first, r.last))
    else None
  }

  lemma CutIs(ls: seq<string>, k: CutSpec, r: Region)
    requires Locates(ls, k, r)
    ensures CutOf(ls, k) == Some(Delete(ls, r.first, r.last))
  {
    forall q | Locates(ls, k, q) ensures q == r { LocatesUnique(ls, k, q, r); }
  }

  // ---------- a text with one exercise ----------

  /** A function with one recipe and its answer, between other lines. `signature` ends with the opening line. */
  datatype Exercise = Exercise(
    before: seq<string>, signature: seq<string>, above: seq<string>, recipe: seq<string>, blank: string,
    answer: seq<string>, end: string, below: seq<string>, after: seq<string>)

  /** Up to the recipe's end. */
  function FrontOf(x: Exercise): seq<string> { x.before + x.signature + x.above + x.recipe }

  /** From the blank line to the end line. */
  function AnswerOf(x: Exercise): seq<string> { [x.blank] + x.answer + [x.end] }

  function BackOf(x: Exercise): seq<string> { x.below + ["}"] + x.after }

  function TextOf(x: Exercise): seq<string> { FrontOf(x) + AnswerOf(x) + BackOf(x) }

  /** The same text with the answer gone. */
  function TemplateOf(x: Exercise): seq<string> { FrontOf(x) + BackOf(x) }

  ghost predicate Nowhere(ls: seq<string>, needle: string) { forall i :: 0 <= i < |ls| ==> !Contains(ls[i], needle) }

  /** The lines that the cut looks for are there, and not earlier. */
  ghost predicate ValidExercise(x: Exercise, k: CutSpec) {
    && |x.signature| > 0 && |x.recipe| > 0
    && (forall i :: 0 <= i < |TextOf(x)| ==> (IsDefinition(TextOf(x)[i], k.fn) <==> i == |x.before|))
    && (forall i :: 0 <= i < |x.signature| ==> (Opens(x.signature[i]) <==> i == |x.signature| - 1))
    && (forall i :: |x.before| + |x.signature| <= i < |TextOf(x)| - |x.after| - 1 ==> !Closes(TextOf(x)[i]))
    && Nowhere(x.signature, k.todo) && Nowhere(x.above, k.todo) && Contains(x.recipe[0], k.todo)
    && (forall i :: 0 <= i < |x.recipe| ==> IsComment(x.recipe[i]))
    && !IsComment(x.blank) && IsBlank(x.blank)
    && !Contains(x.blank, k.end) && Nowhere(x.answer, k.end) && Contains(x.end, k.end)
  }

  function RegionOf(x: Exercise): Region
    requires |x.signature| > 0
  {
    var s := |x.before|;
    var t := s + |x.signature| + |x.above|;
    var a := t + |x.recipe|;
    var b := a + 1 + |x.answer|;
    Region(Fn(s, s + |x.signature| - 1, b + 1 + |x.below|), t, a, b)
  }

  lemma FrontLines(x: Exercise)
    requires |x.signature| > 0
    ensures var ls, r := FrontOf(x), RegionOf(x);
      && |ls| == r.first && ls[r.fn.start..r.fn.open + 1] == x.signature
      && ls[r.fn.open + 1..r.todo] == x.above && ls[r.todo..] == x.recipe
  {
  }

  lemma ThreeParts(a: seq<string>, b: seq<string>, c: seq<string>)
    ensures var all := a + b + c;
      && (forall i :: 0 <= i < |a| ==> all[i] == a[i]) && (forall i :: |a| <= i < |a| + |b| ==> all[i] == b[i - |a|])
      && (forall i :: |a| + |b| <= i < |all| ==> all[i] == c[i - |a| - |b|])
      && all[..|a|] == a && all[|a|..|a| + |b|] == b && all[|a| + |b|..] == c
  {
  }

  lemma ExerciseLines(x: Exercise)
    requires |x.signature| > 0
    ensures var ls, r := TextOf(x), RegionOf(x);
      && |ls| == r.fn.close + 1 + |x.after| && ls[r.fn.close] == "}"
      && ls[..r.first] == FrontOf(x) && ls[r.first..r.last + 1] == AnswerOf(x) && ls[r.last + 1..] == BackOf(x)
  {
    FrontLines(x);
    ThreeParts(FrontOf(x), AnswerOf(x), BackOf(x));
    assert BackOf(x)[|x.below|] == "}";
  }

  lemma SliceAt(ls: seq<string>, lo: nat, hi: nat, part: seq<string>)
    requires lo <= hi <= |ls| && ls[lo..hi] == part
    ensures forall i :: lo <= i < hi ==> ls[i] == part[i - lo]
  {
    forall i | lo <= i < hi ensures ls[i] == part[i - lo] { assert ls[lo..hi][i - lo] == ls[i]; }
  }

  lemma ExerciseFn(x: Exercise, k: CutSpec)
    requires ValidExercise(x, k)
    ensures FnAt(TextOf(x), k.fn, RegionOf(x).fn)
  {
    var ls, r := TextOf(x), RegionOf(x);
    ExerciseLines(x);
    FrontLines(x);
    SliceAt(ls, 0, r.first, FrontOf(x));
    SliceAt(FrontOf(x), r.fn.start, r.fn.open + 1, x.signature);
  }

  lemma ExerciseRecipe(x: Exercise, k: CutSpec)
    requires ValidExercise(x, k)
    ensures var ls, r := FrontOf(x), RegionOf(x);
      && r.fn.start <= r.todo < r.first == |ls| && Contains(ls[r.todo], k.todo)
      && (forall i :: r.fn.start <= i < r.todo ==> !Contains(ls[i], k.todo))
      && (forall i :: r.todo <= i < r.first ==> IsComment(ls[i]))
  {
    var ls, r := FrontOf(x), RegionOf(x);
    FrontLines(x);
    SliceAt(ls, r.fn.start, r.fn.open + 1, x.signature);
    SliceAt(ls, r.fn.open + 1, r.todo, x.above);
    SliceAt(ls, r.todo, r.first, x.recipe);
  }

  lemma ExerciseAnswer(x: Exercise, k: CutSpec)
    requires ValidExercise(x, k)
    ensures var a := AnswerOf(x);
      && a[0] == x.blank && Contains(a[|a| - 1], k.end) && forall i :: 0 <= i < |a| - 1 ==> !Contains(a[i], k.end)
  {
  }

  lemma ExerciseFound(x: Exercise, k: CutSpec)
    requires ValidExercise(x, k)
    ensures Locates(TextOf(x), k, RegionOf(x))
  {
    var ls, r := TextOf(x), RegionOf(x);
    ExerciseLines(x);
    ExerciseFn(x, k);
    ExerciseRecipe(x, k);
    ExerciseAnswer(x, k);
    SliceAt(ls, 0, r.first, FrontOf(x));
    SliceAt(ls, r.first, r.last + 1, AnswerOf(x));
  }

  /** Cutting such a text leaves the recipe and deletes exactly the blank line, the answer and its end line. */
  lemma CutsExercise(x: Exercise, k: CutSpec)
    requires ValidExercise(x, k)
    ensures CutOf(TextOf(x), k) == Some(TemplateOf(x))
  {
    var ls, r := TextOf(x), RegionOf(x);
    ExerciseFound(x, k);
    CutIs(ls, k, r);
    ExerciseHalves(x);
  }

  lemma ExerciseHalves(x: Exercise)
    requires |x.signature| > 0
    ensures var r := RegionOf(x);
      r.last < |TextOf(x)| && r.first <= r.last && Delete(TextOf(x), r.first, r.last) == TemplateOf(x)
  {
    ExerciseLines(x);
  }

  /** All cuts, the last one first. */
  ghost function CutsOf(ls: seq<string>, cuts: seq<CutSpec>): Option<seq<string>> {
    if |cuts| == 0 then Some(ls)
    else
      var r := CutOf(ls, cuts[|cuts| - 1]);
      if r.None? then None else CutsOf(r.value, cuts[..|cuts| - 1])
  }

  lemma CutsStep(ls: seq<string>, cuts: seq<CutSpec>, n: nat)
    requires n < |cuts|
    ensures CutsOf(ls, cuts[..n + 1]) ==
      if CutOf(ls, cuts[n]).None? then None else CutsOf(CutOf(ls, cuts[n]).value, cuts[..n])
  {
    assert cuts[..n + 1][..n] == cuts[..n];
  }

  /** Where the run of comment lines directly above line `i` starts. */
  function HeadOf(ls: seq<string>, i: nat): (h: nat)
    requires i <= |ls|
    ensures h <= i
  {
    if i > 0 && "//" <= ls[i - 1] then HeadOf(ls, i - 1) else i
  }

  /** From there on all lines up to `i` start with two slashes, and the line above does not. */
  lemma {:induction false} HeadMeans(ls: seq<string>, i: nat)
    requires i <= |ls|
    ensures var h := HeadOf(ls, i);
      (forall j :: h <= j < i ==> "//" <= ls[j]) && (h > 0 ==> !("//" <= ls[h - 1]))
  {
    if i > 0 && "//" <= ls[i - 1] { HeadMeans(ls, i - 1); }
  }

  function Swapped(ls: seq<string>, f: Fn, replacement: seq<string>): seq<string>
    requires f.start <= f.close < |ls|
  {
    ls[..HeadOf(ls, f.start)] + replacement + ls[f.close + 1..]
  }

  ghost predicate IsSwapOf(out: seq<string>, ls: seq<string>, name: string, replacement: seq<string>) {
    exists f :: FnAt(ls, name, f) && out == Swapped(ls, f, replacement)
  }

  // ---------- only deletions ----------

  /** `a` is `b` at the rising positions `at`. */
  ghost predicate Embeds(a: seq<string>, b: seq<string>, at: seq<nat>) {
    && |at| == |a|
    && (forall i :: 0 <= i < |a| ==> at[i] < |b| && a[i] == b[at[i]])
    && (forall i, j :: 0 <= i < j < |a| ==> at[i] < at[j])
  }

  ghost predicate IsSubsequence(a: seq<string>, b: seq<string>) { exists at :: Embeds(a, b, at) }

  ghost predicate OnlyDeletes(
      source: seq<string>, out: seq<string>, pre: seq<string>, replacement: seq<string>, post: seq<string>)
  {
    out == pre + replacement + post && IsSubsequence(pre + post, source)
  }

  /** Outside the replacement the result is a subsequence of the source. */
  ghost predicate Derives(source: seq<string>, out: seq<string>, replacement: seq<string>) {
    exists pre, post :: OnlyDeletes(source, out, pre, replacement, post)
  }

  function From(lo: nat, n: nat): (r: seq<nat>)
    ensures |r| == n && forall i :: 0 <= i < n ==> r[i] == lo + i
  {
    if n == 0 then [] else From(lo, n - 1) + [lo + n - 1]
  }

  function Through(f: seq<nat>, g: seq<nat>): (r: seq<nat>)
    requires forall i :: 0 <= i < |f| ==> f[i] < |g|
    ensures |r| == |f| && forall i :: 0 <= i < |f| ==> r[i] == g[f[i]]
  {
    if |f| == 0 then [] else Through(f[..|f| - 1], g) + [g[f[|f| - 1]]]
  }

  lemma Subsequence(a: seq<string>, b: seq<string>, c: seq<string>)
    requires IsSubsequence(a, b) && IsSubsequence(b, c)
    ensures IsSubsequence(a, c)
  {
    var f :| Embeds(a, b, f);
    var g :| Embeds(b, c, g);
    assert Embeds(a, c, Through(f, g));
  }

  lemma HalvesDelete(ls: seq<string>, a: nat, b: nat)
    requires a <= b <= |ls|
    ensures IsSubsequence(ls[..a] + ls[b..], ls)
  {
    assert Embeds(ls[..a] + ls[b..], ls, From(0, a) + From(b, |ls| - b));
  }

  lemma CutDeletes(ls: seq<string>, k: CutSpec)
    requires CutOf(ls, k).Some?
    ensures IsSubsequence(CutOf(ls, k).value, ls)
  {
    var r :| Locates(ls, k, r);
    CutIs(ls, k, r);
    HalvesDelete(ls, r.first, r.last + 1);
  }

  /** However many cuts, and wherever they are, they only delete lines. */
  lemma {:induction false} CutsDelete(ls: seq<string>, cuts: seq<CutSpec>)
    requires CutsOf(ls, cuts).Some?
    ensures IsSubsequence(CutsOf(ls, cuts).value, ls)
  {
    if |cuts| == 0 {
      assert Embeds(ls, ls, From(0, |ls|));
    } else {
      var next := CutOf(ls, cuts[|cuts| - 1]).value;
      CutDeletes(ls, cuts[|cuts| - 1]);
      CutsDelete(next, cuts[..|cuts| - 1]);
      Subsequence(CutsOf(ls, cuts).value, next, ls);
    }
  }

  lemma SwapDeletes(source: seq<string>, kept: seq<string>, f: Fn, replacement: seq<string>)
    requires IsSubsequence(kept, source) && f.start <= f.close < |kept|
    ensures Derives(source, Swapped(kept, f, replacement), replacement)
  {
    HalvesDelete(kept, HeadOf(kept, f.start), f.close + 1);
    Subsequence(kept[..HeadOf(kept, f.start)] + kept[f.close + 1..], kept, source);
    assert OnlyDeletes(source, Swapped(kept, f, replacement), kept[..HeadOf(kept, f.start)], replacement,
      kept[f.close + 1..]);
  }
}
