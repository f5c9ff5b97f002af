/**
 * The grep options whose output ignores the order of its input are the only ones: every other prints two orders apart.
 */
module PipelineOrderExact {
  import opened Results
  import opened Pipeline
  import opened PipelineOrder
  import Radix

  /** A grep whose output never depends on the order of the lines, whatever they and the pattern are. */
  ghost predicate IsHarmless(o: GrepOptions) {
    forall w: World, a: seq<string>, b: seq<string> {:trigger FilterOut(w, o, a), FilterOut(w, o, b)} ::
      Permuted(a, b) ==> Agree(FilterOut(w, o, a), FilterOut(w, o, b))
  }

  /** The world of a pattern that selects the lines `chosen` accepts, under these options. */
  function WorldOf(o: GrepOptions, chosen: string -> bool): World {
    World((pattern, line) => Some(chosen(line) != o.invert), _ => 0.0, _ => 1, c => c == '\n')
  }

  function IsX(): string -> bool { line => line == "x" }

  function Anything(): string -> bool { line => true }

  function Consecutive(low: nat, high: nat): (s: seq<nat>)
    ensures |s| == if high > low then high - low else 0
    ensures forall k :: 0 <= k < |s| ==> s[k] == low + k
  {
    seq(if high > low then high - low else 0, i => low + i)
  }

  function Copies(n: nat): (s: seq<string>)
    ensures |s| == n && forall k :: 0 <= k < n ==> s[k] == "y"
  {
    seq(n, _ => "y")
  }

  lemma {:induction false} OneHit(w: World, o: GrepOptions, lines: seq<string>, h: nat)
    requires forall j :: 0 <= j < |lines| ==> (IsHit(w, o, lines[j]) <==> j == h)
    ensures Hits(w, o, lines) == if h < |lines| then [h] else []
  {
    if lines != [] { OneHit(w, o, lines[..|lines| - 1], h); }
  }

  lemma {:induction false} ChosenInterval(count: nat, chosen: nat -> bool, low: nat, high: nat)
    requires forall j: nat :: j < count ==> (chosen(j) <==> low <= j < high)
    ensures Chosen(count, chosen) == Consecutive(low, if count < high then count else high)
  {
    if count > 0 { ChosenInterval(count - 1, chosen, low, high); }
  }

  lemma WantedAroundOne(count: nat, h: nat, before: nat, after: nat)
    ensures Wanted(count, [h], before, after) == Consecutive(Max(0, h - before), if count < h + after + 1 then count
            else h + after + 1)
  {
    forall j: nat | j < count ensures IsNear([h], before, after, j) <==> h - before <= j < h + after + 1 {
      assert IsNear([h], before, after, j) <==> [h][0] - before <= j <= [h][0] + after;
    }
    ChosenInterval(count, index => IsNear([h], before, after, index), Max(0, h - before), h + after + 1);
  }

  lemma ConsecutiveTo(low: nat, high: nat, i: nat)
    requires i <= |Consecutive(low, high)|
    ensures Consecutive(low, high)[..i] == Consecutive(low, low + i)
  {
  }

  lemma {:induction false} ShownOfConsecutive(
    lines: seq<string>, hits: seq<nat>, low: nat, high: nat, o: GrepOptions, prefix: string)
    requires high <= |lines|
    ensures |Shown(lines, hits, Consecutive(low, high), o, prefix)| == |Consecutive(low, high)|
    ensures forall k :: 0 <= k < |Consecutive(low, high)| ==>
              Shown(lines, hits, Consecutive(low, high), o, prefix)[k]
              == ShownLine(lines[low + k], low + k, low + k in hits, prefix, o.lineNumbers)
  {
    if high > low {
      ShownOfConsecutive(lines, hits, low, high - 1, o, prefix);
      ShownToNext(lines, hits, low, high, o, prefix);
    }
  }

  lemma ShownToNext(lines: seq<string>, hits: seq<nat>, low: nat, high: nat, o: GrepOptions, prefix: string)
    requires low < high <= |lines|
    ensures Shown(lines, hits, Consecutive(low, high), o, prefix)
         == Shown(lines, hits, Consecutive(low, high - 1), o, prefix)
            + [ShownLine(lines[high - 1], high - 1, high - 1 in hits, prefix, o.lineNumbers)]
  {
    var wanted, n := Consecutive(low, high), high - 1 - low;
    ConsecutiveTo(low, high, n);
    ShownOneMore(lines, hits, wanted, n, o, prefix);
    assert wanted[..n + 1] == wanted && wanted[n] == high - 1;
    NoGap(wanted, n, o);
  }

  lemma NoGap(wanted: seq<nat>, n: nat, o: GrepOptions)
    requires n < |wanted| && (n > 0 ==> wanted[n] == wanted[n - 1] + 1)
    ensures Gap(o, LastOf(wanted[..n]), wanted[n]) == []
  {
  }

  lemma ShownAt(lines: seq<string>, hits: seq<nat>, low: nat, high: nat, o: GrepOptions, prefix: string, h: nat)
    requires low <= h < high <= |lines|
    ensures var shown := Shown(lines, hits, Consecutive(low, high), o, prefix);
            |shown| == high - low && shown[h - low] == ShownLine(lines[h], h, h in hits, prefix, o.lineNumbers)
  {
    ShownOfConsecutive(lines, hits, low, high, o, prefix);
    assert low + (h - low) == h;
  }

  predicate OnlyAt(lines: seq<string>, h: nat) {
    h < |lines| && forall j :: 0 <= j < |lines| ==> (lines[j] == "x" <==> j == h)
  }

  function Low(o: GrepOptions, h: nat): nat { Max(0, h - o.before) }

  function High(o: GrepOptions, count: nat, h: nat): nat { if count < h + o.after + 1 then count else h + o.after + 1 }

  lemma ChosenAreHits(o: GrepOptions, chosen: string -> bool, lines: seq<string>)
    ensures AllKnown(WorldOf(o, chosen), o, lines)
    ensures forall j :: 0 <= j < |lines| ==> (IsHit(WorldOf(o, chosen), o, lines[j]) <==> chosen(lines[j]))
  {
  }

  lemma PrintsChosen(o: GrepOptions, chosen: string -> bool, lines: seq<string>)
    requires !o.quiet && !o.countOnly
    ensures var out := FilterOut(WorldOf(o, chosen), o, lines);
            out.Some? && out.value.lines == FilterLines(WorldOf(o, chosen), o, lines)
  {
    ChosenAreHits(o, chosen, lines);
  }

  lemma HitsOnlyAt(o: GrepOptions, lines: seq<string>, h: nat)
    requires OnlyAt(lines, h)
    ensures Hits(WorldOf(o, IsX()), o, lines) == [h]
  {
    ChosenAreHits(o, IsX(), lines);
    OneHit(WorldOf(o, IsX()), o, lines, h);
  }

  lemma ShowsHits(w: World, o: GrepOptions, lines: seq<string>, hits: seq<nat>, low: nat, high: nat)
    requires Limited(Hits(w, o, lines), o.maxCount) == hits && high <= |lines|
    requires Wanted(|lines|, hits, o.before, o.after) == Consecutive(low, high)
    ensures FilterLines(w, o, lines) == Shown(lines, hits, Consecutive(low, high), o, Prefix(o))
  {
  }

  lemma OneHitShown(o: GrepOptions, lines: seq<string>, h: nat)
    requires OnlyAt(lines, h)
    ensures FilterLines(WorldOf(o, IsX()), o, lines)
            == Shown(lines, [h], Consecutive(Low(o, h), High(o, |lines|, h)), o, Prefix(o))
  {
    HitsOnlyAt(o, lines, h);
    LimitedOne(h, o.maxCount);
    WantedFromTo(o, |lines|, h);
    ShowsHits(WorldOf(o, IsX()), o, lines, [h], Low(o, h), High(o, |lines|, h));
  }

  lemma LimitedOne(h: nat, maxCount: nat)
    ensures Limited([h], maxCount) == [h]
  {
  }

  lemma WantedFromTo(o: GrepOptions, count: nat, h: nat)
    requires h < count
    ensures High(o, count, h) <= count
    ensures Wanted(count, [h], o.before, o.after) == Consecutive(Low(o, h), High(o, count, h))
  {
    WantedAroundOne(count, h, o.before, o.after);
  }

  /** What grep prints when its only hit is line `h`: the lines around it, this one among them. */
  predicate HasHitAt(out: seq<string>, o: GrepOptions, count: nat, h: nat) {
    && Low(o, h) <= h < High(o, count, h) && |out| == High(o, count, h) - Low(o, h)
    && out[h - Low(o, h)] == ShownLine("x", h, true, Prefix(o), o.lineNumbers)
  }

  lemma OneHitOut(o: GrepOptions, lines: seq<string>, h: nat)
    requires OnlyAt(lines, h)
    ensures HasHitAt(FilterLines(WorldOf(o, IsX()), o, lines), o, |lines|, h)
  {
    OneHitShown(o, lines, h);
    HitAt(o, lines, Low(o, h), High(o, |lines|, h), h);
  }

  lemma Around(o: GrepOptions, count: nat, h: nat)
    requires h < count
    ensures Low(o, h) <= h < High(o, count, h) <= count
  {
  }

  lemma HitAt(o: GrepOptions, lines: seq<string>, low: nat, high: nat, h: nat)
    requires h < |lines| && lines[h] == "x" && low == Low(o, h) && high == High(o, |lines|, h)
    ensures high <= |lines| && HasHitAt(Shown(lines, [h], Consecutive(low, high), o, Prefix(o)), o, |lines|, h)
  {
    Around(o, |lines|, h);
    assert h in [h];
    ShownAt(lines, [h], low, high, o, Prefix(o), h);
  }

  lemma NotHarmless(o: GrepOptions, w: World, a: seq<string>, b: seq<string>)
    requires Permuted(a, b) && !Agree(FilterOut(w, o, a), FilterOut(w, o, b))
    ensures !IsHarmless(o)
  {
  }

  lemma SharedLine(p: seq<string>, q: seq<string>) returns (k: nat)
    requires Permuted(p, q) && q != []
    ensures k < |p| && p[k] == q[0]
  {
    assert q[0] in multiset(p);
    k :| 0 <= k < |p| && p[k] == q[0];
  }

  lemma DifferentLengths(x: Option<Out>, y: Option<Out>)
    requires x.Some? && y.Some? && |x.value.lines| != |y.value.lines|
    ensures !Agree(x, y)
  {
    if Agree(x, y) { SameLength(x.value.lines, y.value.lines); }
  }

  lemma FirstOrSecond(n: nat)
    ensures Permuted(["x"] + Copies(n + 1), ["y", "x"] + Copies(n))
  {
    var a, b := ["x"] + Copies(n + 1), ["y", "x"] + Copies(n);
    assert a == ["x"] + ["y"] + Copies(n);
    assert b == ["y"] + ["x"] + Copies(n);
  }

  lemma ContextMatters(o: GrepOptions)
    requires !o.quiet && !o.countOnly && (o.before > 0 || o.after > 0)
    ensures !IsHarmless(o)
  {
    var w := WorldOf(o, IsX());
    var n := if o.before > 0 then o.after else 0;
    var a, b := ["x"] + Copies(n + 1), ["y", "x"] + Copies(n);
    FirstOrSecond(n);
    OneHitOut(o, a, 0);
    OneHitOut(o, b, 1);
    PrintsChosen(o, IsX(), a);
    PrintsChosen(o, IsX(), b);
    DifferentLengths(FilterOut(w, o, a), FilterOut(w, o, b));
    NotHarmless(o, w, a, b);
  }

  lemma NumbersMatter(o: GrepOptions)
    requires !o.quiet && !o.countOnly && o.before == 0 && o.after == 0 && o.lineNumbers
    ensures !IsHarmless(o)
  {
    var w := WorldOf(o, IsX());
    var a, b := ["x", "y"], ["y", "x"];
    assert a == ["x"] + ["y"] && b == ["y"] + ["x"];
    assert Permuted(a, b);
    NumberedHit(o, a, 0);
    NumberedHit(o, b, 1);
    if Agree(FilterOut(w, o, a), FilterOut(w, o, b)) {
      var k := SharedLine(FilterOut(w, o, a).value.lines, FilterOut(w, o, b).value.lines);
      NumbersDiffer(Prefix(o));
    }
    NotHarmless(o, w, a, b);
  }

  lemma NumberedHit(o: GrepOptions, lines: seq<string>, h: nat)
    requires !o.quiet && !o.countOnly && o.before == 0 && o.after == 0 && OnlyAt(lines, h)
    ensures var out := FilterOut(WorldOf(o, IsX()), o, lines);
            out.Some? && out.value.lines == [ShownLine("x", h, true, Prefix(o), o.lineNumbers)]
  {
    OneHitOut(o, lines, h);
    PrintsChosen(o, IsX(), lines);
  }

  lemma NumbersDiffer(prefix: string)
    ensures ShownLine("x", 0, true, prefix, true) != ShownLine("x", 1, true, prefix, true)
  {
    var p := if prefix == "" then "" else prefix + ":";
    Radix.DecimalRoundTrip(1);
    Radix.DecimalRoundTrip(2);
    var one, two := Radix.Decimal(1), Radix.Decimal(2);
    assert one != two;
    var s, t := p + (one + ":") + "x", p + (two + ":") + "x";
    assert s[|p|..|s| - 2] == one && t[|p|..|t| - 2] == two;
  }

  // ---------------------------------------------------------------- -m

  lemma {:induction false} AllHit(w: World, o: GrepOptions, lines: seq<string>)
    requires forall j :: 0 <= j < |lines| ==> IsHit(w, o, lines[j])
    ensures Hits(w, o, lines) == Consecutive(0, |lines|)
  {
    if lines != [] { AllHit(w, o, lines[..|lines| - 1]); }
  }

  lemma WantedOfConsecutive(count: nat, high: nat)
    ensures Wanted(count, Consecutive(0, high), 0, 0) == Consecutive(0, if count < high then count else high)
  {
    var hits := Consecutive(0, high);
    forall j: nat | j < count ensures IsNear(hits, 0, 0, j) <==> j < high {
      if j < high { assert hits[j] == j; }
    }
    ChosenInterval(count, index => IsNear(hits, 0, 0, index), 0, high);
  }

  /** With every line a hit, `-m` prints the first `maxCount` of them. */
  lemma FirstHitsOut(o: GrepOptions, lines: seq<string>)
    requires o.before == 0 && o.after == 0 && 0 < o.maxCount < |lines|
    ensures var out := FilterLines(WorldOf(o, Anything()), o, lines);
            |out| == o.maxCount
            && forall k :: 0 <= k < o.maxCount ==> out[k] == ShownLine(lines[k], k, true, Prefix(o), o.lineNumbers)
  {
    var w := WorldOf(o, Anything());
    ChosenAreHits(o, Anything(), lines);
    AllHit(w, o, lines);
    assert Limited(Hits(w, o, lines), o.maxCount) == Consecutive(0, o.maxCount);
    WantedOfConsecutive(|lines|, o.maxCount);
    ShownFirst(lines, o.maxCount, o);
  }

  lemma ShownFirst(lines: seq<string>, n: nat, o: GrepOptions)
    requires n <= |lines|
    ensures var shown := Shown(lines, Consecutive(0, n), Consecutive(0, n), o, Prefix(o));
            |shown| == n && forall k :: 0 <= k < n ==>
                shown[k] == ShownLine(lines[k], k, true, Prefix(o), o.lineNumbers)
  {
    var hits := Consecutive(0, n);
    ShownOfConsecutive(lines, hits, 0, n, o, Prefix(o));
    forall k | 0 <= k < n ensures k in hits {
      assert hits[k] == k;
    }
  }

  lemma LastOrFirst(n: nat)
    ensures Permuted(Copies(n) + ["x"], ["x"] + Copies(n))
  {
  }

  lemma LimitMatters(o: GrepOptions)
    requires !o.quiet && !o.countOnly && o.before == 0 && o.after == 0 && o.maxCount > 0
    ensures !IsHarmless(o)
  {
    var w := WorldOf(o, Anything());
    var a, b := Copies(o.maxCount) + ["x"], ["x"] + Copies(o.maxCount);
    LastOrFirst(o.maxCount);
    FirstHitsOut(o, a);
    FirstHitsOut(o, b);
    PrintsChosen(o, Anything(), a);
    PrintsChosen(o, Anything(), b);
    if Agree(FilterOut(w, o, a), FilterOut(w, o, b)) {
      NoSharedLine(o, FilterOut(w, o, a).value.lines, FilterOut(w, o, b).value.lines);
    }
    NotHarmless(o, w, a, b);
  }

  lemma NoSharedLine(o: GrepOptions, p: seq<string>, q: seq<string>)
    requires q != [] && q[0] == ShownLine("x", 0, true, Prefix(o), o.lineNumbers)
    requires forall k :: 0 <= k < |p| ==> p[k] == ShownLine("y", k, true, Prefix(o), o.lineNumbers)
    ensures !Permuted(p, q)
  {
    if Permuted(p, q) {
      var k := SharedLine(p, q);
      LastCharShown("y", k, Prefix(o), o.lineNumbers);
      LastCharShown("x", 0, Prefix(o), o.lineNumbers);
    }
  }

  lemma LastCharShown(line: string, index: nat, prefix: string, numbered: bool)
    requires line != ""
    ensures var s := ShownLine(line, index, true, prefix, numbered);
            s != "" && s[|s| - 1] == line[|line| - 1]
  {
  }

  /** Exactly the greps the gate's property rests on ignore the order of their input. */
  lemma GateIsExact(o: GrepOptions)
    ensures IsHarmless(o) <==> IgnoresOrder(o)
  {
    if IgnoresOrder(o) {
      forall w: World, a: seq<string>, b: seq<string> | Permuted(a, b)
        ensures Agree(FilterOut(w, o, a), FilterOut(w, o, b))
      {
        FilterIgnoresOrder(w, o, a, b);
      }
    } else if o.before > 0 || o.after > 0 {
      ContextMatters(o);
    } else if o.maxCount > 0 {
      LimitMatters(o);
    } else {
      NumbersMatter(o);
    }
  }
}
