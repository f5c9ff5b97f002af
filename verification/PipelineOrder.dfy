/** When a pipeline's output does not depend on the order of its input: the unordered-walk gate of `_through`. */
module PipelineOrder {
  import opened Results
  import opened TextLines
  import opened Pipeline
  import Radix
  import Sorting

  // ---------------------------------------------------------------- permutations

  predicate Permuted(a: seq<string>, b: seq<string>) {
    multiset(a) == multiset(b)
  }

  lemma SameLength(a: seq<string>, b: seq<string>)
    requires Permuted(a, b)
    ensures |a| == |b|
  {
    assert |multiset(a)| == |a| && |multiset(b)| == |b|;
  }

  /** The element `a[0]` taken out of a permutation of `a`. */
  lemma TakeOut(a: seq<string>, b: seq<string>) returns (k: nat)
    requires a != [] && Permuted(a, b)
    ensures k < |b| && b[k] == a[0] && Permuted(a[1..], b[..k] + b[k + 1..])
  {
    assert a[0] in multiset(a);
    assert a[0] in b;
    k :| 0 <= k < |b| && b[k] == a[0];
    Without(a, 0);
    Without(b, k);
    assert a[..0] + a[1..] == a[1..];
  }

  lemma Without(s: seq<string>, k: nat)
    requires k < |s|
    ensures multiset(s[..k] + s[k + 1..]) == multiset(s) - multiset{s[k]}
  {
    Regroup(s, s[..k], [s[k]], s[k + 1..]);
  }

  function FlatMap(g: string -> seq<string>, s: seq<string>): seq<string> {
    if s == [] then [] else FlatMap(g, s[..|s| - 1]) + g(s[|s| - 1])
  }

  lemma {:induction false} FlatMapConcat(g: string -> seq<string>, a: seq<string>, b: seq<string>)
    ensures FlatMap(g, a + b) == FlatMap(g, a) + FlatMap(g, b)
  {
    if b == [] {
      assert a + b == a;
    } else {
      FlatMapConcat(g, a, b[..|b| - 1]);
      assert (a + b)[..|a + b| - 1] == a + b[..|b| - 1];
    }
  }

  lemma FlatMapSplit(g: string -> seq<string>, s: seq<string>, k: nat)
    requires k < |s|
    ensures FlatMap(g, s) == FlatMap(g, s[..k]) + g(s[k]) + FlatMap(g, s[k + 1..])
  {
    FlatMapConcat(g, s[..k + 1], s[k + 1..]);
    assert s == s[..k + 1] + s[k + 1..] && s[..k + 1][..k] == s[..k];
  }

  lemma {:induction false} FlatMapPermuted(g: string -> seq<string>, a: seq<string>, b: seq<string>)
    requires Permuted(a, b)
    ensures Permuted(FlatMap(g, a), FlatMap(g, b))
  {
    SameLength(a, b);
    if a != [] {
      var k := TakeOut(a, b);
      FlatMapPermuted(g, a[1..], b[..k] + b[k + 1..]);
      FlatMapSplit(g, a, 0);
      FlatMapSplit(g, b, k);
      FlatMapConcat(g, b[..k], b[k + 1..]);
      assert FlatMap(g, a[..0]) == [];
      Regroup(FlatMap(g, a), [], g(a[0]), FlatMap(g, a[1..]));
      Regroup(FlatMap(g, b), FlatMap(g, b[..k]), g(a[0]), FlatMap(g, b[k + 1..]));
    }
  }

  lemma Regroup(whole: seq<string>, before: seq<string>, middle: seq<string>, after: seq<string>)
    requires whole == before + middle + after
    ensures multiset(whole) == multiset(middle) + multiset(before + after)
  {
  }

  function Total(m: string -> nat, s: seq<string>): nat {
    if s == [] then 0 else Total(m, s[..|s| - 1]) + m(s[|s| - 1])
  }

  lemma {:induction false} TotalConcat(m: string -> nat, a: seq<string>, b: seq<string>)
    ensures Total(m, a + b) == Total(m, a) + Total(m, b)
  {
    if b == [] {
      assert a + b == a;
    } else {
      TotalConcat(m, a, b[..|b| - 1]);
      assert (a + b)[..|a + b| - 1] == a + b[..|b| - 1];
    }
  }

  lemma TotalSplit(m: string -> nat, s: seq<string>, k: nat)
    requires k < |s|
    ensures Total(m, s) == Total(m, s[..k] + s[k + 1..]) + m(s[k])
  {
    TotalConcat(m, s[..k], s[k + 1..]);
    TotalConcat(m, s[..k + 1], s[k + 1..]);
    assert s == s[..k + 1] + s[k + 1..] && s[..k + 1][..k] == s[..k];
  }

  lemma {:induction false} TotalPermuted(m: string -> nat, a: seq<string>, b: seq<string>)
    requires Permuted(a, b)
    ensures Total(m, a) == Total(m, b)
  {
    SameLength(a, b);
    if a != [] {
      var k := TakeOut(a, b);
      TotalPermuted(m, a[1..], b[..k] + b[k + 1..]);
      TotalSplit(m, a, 0);
      TotalSplit(m, b, k);
      assert a[..0] + a[1..] == a[1..];
    }
  }

  // ---------------------------------------------------------------- sort

  lemma SortIsAnOrder(w: World, numeric: bool)
    ensures Sorting.IsOrder(Order(w, numeric))
  {
    forall a: string, b: string
      ensures Leq(w, numeric, a, b) || Leq(w, numeric, b, a)
      ensures Leq(w, numeric, a, b) && Leq(w, numeric, b, a) ==> a == b
    {
      Sorting.StrLeqTotal(a, b);
    }
    forall a: string, b: string, c: string | Leq(w, numeric, a, b) && Leq(w, numeric, b, c)
      ensures Leq(w, numeric, a, c)
    {
      if Sorting.StrLeq(a, b) && Sorting.StrLeq(b, c) { Sorting.StrLeqTransitive(a, b, c); }
    }
  }

  /** `Distinct` keeps each line once. */
  lemma {:induction false} DistinctCounts(s: seq<string>, x: string)
    ensures multiset(Distinct(s))[x] == if x in s then 1 else 0
  {
    if s != [] {
      DistinctCounts(s[..|s| - 1], x);
      assert s == s[..|s| - 1] + [s[|s| - 1]];
      DistinctCounts(s[..|s| - 1], s[|s| - 1]);
    }
  }

  lemma SortIgnoresOrder(w: World, numeric: bool, reverse: bool, unique: bool, a: seq<string>, b: seq<string>)
    requires Permuted(a, b)
    ensures SortedOut(w, numeric, reverse, unique, a) == SortedOut(w, numeric, reverse, unique, b)
  {
    var x, y := if unique then Distinct(a) else a, if unique then Distinct(b) else b;
    if unique {
      forall line: string ensures multiset(x)[line] == multiset(y)[line] {
        DistinctCounts(a, line);
        DistinctCounts(b, line);
        assert line in multiset(a) <==> line in multiset(b);
      }
    }
    SortIsAnOrder(w, numeric);
    Sorting.SortedSame(Order(w, numeric), x, y);
  }

  // ---------------------------------------------------------------- wc

  /** A count of a text that adds up over its lines. */
  ghost predicate AddsUp(m: string -> nat) {
    m("") == 0 && forall s: string, t: string {:trigger m(s + "\n" + t)} :: m(s + "\n" + t) == m(s) + m("\n") + m(t)
  }

  lemma {:induction false} JoinAddsUp(m: string -> nat, lines: seq<string>)
    requires AddsUp(m) && lines != []
    ensures m(Join(lines)) + m("\n") == Total(line => m(line) + m("\n"), lines)
  {
    var n := |lines| - 1;
    if n == 0 {
      assert lines[..0] == [];
    } else {
      JoinAddsUp(m, lines[..n]);
      assert m(Join(lines[..n]) + "\n" + lines[n]) == m(Join(lines[..n])) + m("\n") + m(lines[n]);
    }
  }

  lemma CountIgnoresOrder(m: string -> nat, a: seq<string>, b: seq<string>, openEnd: bool)
    requires AddsUp(m) && Permuted(a, b)
    ensures m(TextOf(a, openEnd)) == m(TextOf(b, openEnd))
  {
    SameLength(a, b);
    if a != [] {
      JoinAddsUp(m, a);
      JoinAddsUp(m, b);
      TotalPermuted(line => m(line) + m("\n"), a, b);
      if !openEnd {
        assert Join(a) + "\n" == Join(a) + "\n" + "";
        assert Join(b) + "\n" == Join(b) + "\n" + "";
        assert m(Join(a) + "\n" + "") == m(Join(a)) + m("\n");
        assert m(Join(b) + "\n" + "") == m(Join(b)) + m("\n");
      } else {
        assert TextOf(a, true) == Join(a) && TextOf(b, true) == Join(b);
      }
    }
  }

  /** A line break ends a word, so the words of two lines are the words of each. */
  lemma WordsOfLines(w: World, s: string, t: string)
    requires w.isSpace('\n')
    ensures Words(w, s + "\n" + t) == Words(w, s) + Words(w, t)
  {
    WordsConcat(w, s + "\n", t);
    WordsConcat(w, s, "\n");
    assert "\n"[..0] == "";
    assert Words(w, "\n") == 0;
  }

  lemma CountsAddUp(w: World, count: Count)
    requires w.isSpace('\n')
    ensures AddsUp(text => CountOf(w, text, count))
  {
    forall s: string, t: string ensures CountOf(w, s + "\n" + t, count) == CountOf(w, s, count)
        + CountOf(w, "\n", count) + CountOf(w, t, count) {
      CountAddsUp(w, count, s, t);
    }
  }

  lemma CountAddsUp(w: World, count: Count, s: string, t: string)
    requires w.isSpace('\n')
    ensures CountOf(w, s + "\n" + t, count) == CountOf(w, s, count) + CountOf(w, "\n", count) + CountOf(w, t, count)
  {
    assert "\n"[..0] == "";
    match count
    case LineCount =>
      BytesConcat(w, s + "\n", t);
      BytesConcat(w, s, "\n");
    case WordCount =>
      WordsOfLines(w, s, t);
      assert Words(w, "\n"[..0]) == 0 && w.isSpace("\n"[0]);
    case ByteCount =>
      BytesConcat(w, s + "\n", t);
      BytesConcat(w, s, "\n");
  }

  lemma {:induction false} WcIgnoresOrder(
    w: World, counts: seq<Count>, width: nat, a: seq<string>, b: seq<string>, openEnd: bool)
    requires w.isSpace('\n') && Permuted(a, b)
    ensures WcRow(w, TextOf(a, openEnd), counts, width) == WcRow(w, TextOf(b, openEnd), counts, width)
    decreases |counts|
  {
    if counts != [] {
      var last := counts[|counts| - 1];
      CountsAddUp(w, last);
      CountIgnoresOrder(text => CountOf(w, text, last), a, b, openEnd);
      WcIgnoresOrder(w, counts[..|counts| - 1], width, a, b, openEnd);
    }
  }

  // ---------------------------------------------------------------- grep

  /** Whether what grep prints of its hits could depend on where they are. */
  predicate IgnoresOrder(o: GrepOptions) {
    o.quiet || o.countOnly || (o.maxCount == 0 && !o.lineNumbers && o.before == 0 && o.after == 0)
  }

  /** A line as grep prints it, if it is a hit. */
  function Printed(w: World, o: GrepOptions): string -> seq<string> {
    line => if IsHit(w, o, line) then [ShownLine(line, 0, true, Prefix(o), false)] else []
  }

  lemma {:induction false} HitsAre(w: World, o: GrepOptions, lines: seq<string>)
    ensures forall j: nat :: j in Hits(w, o, lines) <==> j < |lines| && IsHit(w, o, lines[j])
  {
    if lines != [] { HitsAre(w, o, lines[..|lines| - 1]); }
  }

  lemma {:induction false} ChosenHits(w: World, o: GrepOptions, lines: seq<string>, count: nat, chosen: nat -> bool)
    requires count <= |lines| && forall j: nat :: j < count ==> (chosen(j) <==> IsHit(w, o, lines[j]))
    ensures Chosen(count, chosen) == Hits(w, o, lines[..count])
  {
    if count > 0 {
      ChosenHits(w, o, lines, count - 1, chosen);
      HitsSoFar(w, o, lines, count - 1);
    }
  }

  /** Without context, only the hits are printed. */
  lemma OnlyHitsWanted(w: World, o: GrepOptions, lines: seq<string>)
    ensures Wanted(|lines|, Hits(w, o, lines), 0, 0) == Hits(w, o, lines)
  {
    var hits := Hits(w, o, lines);
    HitsAre(w, o, lines);
    forall j: nat | j < |lines| ensures IsNear(hits, 0, 0, j) <==> IsHit(w, o, lines[j]) {
      assert IsNear(hits, 0, 0, j) <==> j in hits;
    }
    ChosenHits(w, o, lines, |lines|, index => IsNear(hits, 0, 0, index));
    assert lines[..|lines|] == lines;
  }

  lemma ShownHit(lines: seq<string>, hits: seq<nat>, wanted: seq<nat>, j: nat, o: GrepOptions)
    requires j < |lines| && j in hits && forall k :: 0 <= k < |wanted| ==> wanted[k] < |lines|
    requires !o.lineNumbers && o.before == 0 && o.after == 0
    ensures Shown(lines, hits, wanted + [j], o, Prefix(o))
         == Shown(lines, hits, wanted, o, Prefix(o)) + [ShownLine(lines[j], 0, true, Prefix(o), false)]
  {
    ShownOneMore(lines, hits, wanted + [j], |wanted|, o, Prefix(o));
    assert (wanted + [j])[..|wanted|] == wanted && (wanted + [j])[..|wanted| + 1] == wanted + [j];
    assert Gap(o, LastOf(wanted), j) == [];
  }

  /** Without numbers or context, grep prints its hits one after the other. */
  lemma {:induction false} ShownHits(w: World, o: GrepOptions, lines: seq<string>, count: nat)
    requires count <= |lines| && !o.lineNumbers && o.before == 0 && o.after == 0
    ensures Shown(lines, Hits(w, o, lines), Hits(w, o, lines[..count]), o, Prefix(o))
            == FlatMap(Printed(w, o), lines[..count])
  {
    if count > 0 {
      var j := count - 1;
      ShownHits(w, o, lines, j);
      HitsSoFar(w, o, lines, j);
      if IsHit(w, o, lines[j]) {
        ShownHit(lines, Hits(w, o, lines), Hits(w, o, lines[..j]), j, o);
      } else {
        assert Hits(w, o, lines[..count]) == Hits(w, o, lines[..j]);
        assert FlatMap(Printed(w, o), lines[..count]) == FlatMap(Printed(w, o), lines[..j]);
      }
    }
  }

  lemma HitsSoFar(w: World, o: GrepOptions, lines: seq<string>, j: nat)
    requires j < |lines|
    ensures Hits(w, o, lines[..j + 1]) == Hits(w, o, lines[..j]) + if IsHit(w, o, lines[j]) then [j] else []
    ensures FlatMap(Printed(w, o), lines[..j + 1]) == FlatMap(Printed(w, o), lines[..j]) + Printed(w, o)(lines[j])
    ensures IsHit(w, o, lines[j]) ==> j in Hits(w, o, lines)
  {
    HitsAre(w, o, lines);
    assert lines[..j + 1][..j] == lines[..j];
  }

  lemma {:induction false} HitCount(w: World, o: GrepOptions, lines: seq<string>)
    ensures |Hits(w, o, lines)| == |FlatMap(Printed(w, o), lines)|
  {
    if lines != [] { HitCount(w, o, lines[..|lines| - 1]); }
  }

  lemma KnownIgnoresOrder(w: World, o: GrepOptions, a: seq<string>, b: seq<string>)
    requires Permuted(a, b) && AllKnown(w, o, a)
    ensures AllKnown(w, o, b)
  {
    forall i | 0 <= i < |b| ensures w.search(o.pattern, b[i]).Some? {
      assert b[i] in multiset(a);
    }
  }

  /** What two runs of a stage or a pipeline have in common when their inputs have the same lines. */
  predicate Agree(x: Option<Out>, y: Option<Out>) {
    match (x, y)
    case (None, None) => true
    case (Some(p), Some(q)) => Permuted(p.lines, q.lines) && p.openEnd == q.openEnd && p.status == q.status
    case _ => false
  }

  lemma FilterIgnoresOrder(w: World, o: GrepOptions, a: seq<string>, b: seq<string>)
    requires IgnoresOrder(o) && Permuted(a, b)
    ensures Agree(FilterOut(w, o, a), FilterOut(w, o, b))
  {
    if AllKnown(w, o, a) {
      KnownIgnoresOrder(w, o, a, b);
      SameHitCount(w, o, a, b);
      if !o.quiet && !o.countOnly {
        FilterPrintsHits(w, o, a);
        FilterPrintsHits(w, o, b);
        FlatMapPermuted(Printed(w, o), a, b);
      }
    } else if AllKnown(w, o, b) {
      KnownIgnoresOrder(w, o, b, a);
    }
  }

  lemma SameHitCount(w: World, o: GrepOptions, a: seq<string>, b: seq<string>)
    requires Permuted(a, b)
    ensures |Hits(w, o, a)| == |Hits(w, o, b)|
  {
    FlatMapPermuted(Printed(w, o), a, b);
    SameLength(FlatMap(Printed(w, o), a), FlatMap(Printed(w, o), b));
    HitCount(w, o, a);
    HitCount(w, o, b);
  }

  lemma FilterPrintsHits(w: World, o: GrepOptions, lines: seq<string>)
    requires AllKnown(w, o, lines) && !o.quiet && !o.countOnly
    requires o.maxCount == 0 && !o.lineNumbers && o.before == 0 && o.after == 0
    ensures FilterOut(w, o, lines).Some? && FilterOut(w, o, lines).value.lines == FlatMap(Printed(w, o), lines)
    ensures !FilterOut(w, o, lines).value.openEnd
  {
    OnlyHitsWanted(w, o, lines);
    ShownHits(w, o, lines, |lines|);
    assert lines[..|lines|] == lines;
  }

  // ---------------------------------------------------------------- the gate

  lemma StageIgnoresOrder(w: World, stage: Stage, a: seq<string>, b: seq<string>, openEnd: bool)
    requires w.isSpace('\n') && Permuted(a, b) && TakesUnordered(stage, |a|)
    requires stage.Filter? ==> IgnoresOrder(stage.options)
    ensures Agree(StageOut(w, stage, a, openEnd), StageOut(w, stage, b, openEnd))
    ensures stage.Sort? || stage.Wc? ==> StageOut(w, stage, a, openEnd) == StageOut(w, stage, b, openEnd)
  {
    SameLength(a, b);
    match stage
    case Sort(numeric, reverse, unique) => SortIgnoresOrder(w, numeric, reverse, unique, a, b);
    case Wc(counts) => WcIgnoresOrder(w, counts, PipeWidth(counts), a, b, openEnd);
    case Filter(o) => FilterIgnoresOrder(w, o, a, b);
    case Passthrough =>
    case Head(_) =>
      AllKept(w, stage, a);
      AllKept(w, stage, b);
    case Tail(_) =>
      AllKept(w, stage, a);
      AllKept(w, stage, b);
  }

  lemma AllKept(w: World, stage: Stage, lines: seq<string>)
    requires KeepsAll(stage, |lines|)
    ensures Selected(w, stage, lines) == (lines, true)
  {
    assert lines[0..|lines|] == lines;
  }

  /** Every grep before the first `sort` or `wc` prints without regard to where its hits are. */
  predicate GrepsIgnoreOrder(pipeline: seq<Stage>) {
    pipeline == [] || pipeline[0].Sort? || pipeline[0].Wc?
    || ((pipeline[0].Filter? ==> IgnoresOrder(pipeline[0].options)) && GrepsIgnoreOrder(pipeline[1..]))
  }

  predicate SortsOrCounts(pipeline: seq<Stage>) {
    exists i :: 0 <= i < |pipeline| && (pipeline[i].Sort? || pipeline[i].Wc?)
  }

  /**
   * Lines in filesystem order: whatever that order is, the pipeline declines or not alike, and otherwise its outputs
   * are permutations of each other with the same end and status; once a `sort` or a `wc` has run they are identical.
   */
  lemma {:induction false} ThroughIgnoresOrder(w: World, x: Out, y: Out, pipeline: seq<Stage>)
    requires w.isSpace('\n') && Agree(Some(x), Some(y)) && GrepsIgnoreOrder(pipeline)
    ensures Agree(Through(w, x, pipeline, true), Through(w, y, pipeline, true))
    ensures SortsOrCounts(pipeline) ==> Through(w, x, pipeline, true) == Through(w, y, pipeline, true)
    decreases |pipeline|
  {
    if pipeline != [] {
      var stage := pipeline[0];
      SameLength(x.lines, y.lines);
      if TakesUnordered(stage, |x.lines|) {
        StageIgnoresOrder(w, stage, x.lines, y.lines, x.openEnd);
        var a, b := StageOut(w, stage, x.lines, x.openEnd), StageOut(w, stage, y.lines, y.openEnd);
        if a.Some? && !stage.Sort? && !stage.Wc? {
          ThroughIgnoresOrder(w, a.value, b.value, pipeline[1..]);
          if i :| 0 <= i < |pipeline| && (pipeline[i].Sort? || pipeline[i].Wc?) {
            assert pipeline[1..][i - 1] == pipeline[i];
          }
        }
      }
    }
  }
}
