/**
 * What each pipe stage prints, said of its input lines and their characters alone: positions, counts, orders and
 * statuses instead of the functions that compute them.
 */
module PipelineMeaning {
  import opened Results
  import opened TextLines
  import opened Pipeline
  import PipelineOrder
  import Radix
  import Sorting

  // ---------------------------------------------------------------- selections

  /** The lines `first` to `last`, counted from one, of those there are. */
  predicate AreLinesFromTo(out: seq<string>, lines: seq<string>, first: int, last: int) {
    && |out| == (if first <= last then last - first + 1 else 0)
    && (first <= last ==> 1 <= first && last <= |lines|)
    && forall k :: 0 <= k < |out| ==> out[k] == lines[first - 1 + k]
  }

  function Least(a: int, b: int): int { if b < a then b else a }

  /** What a selecting stage prints: `head`, `tail`, a range, or numbered lines; and whether the end stays open. */
  lemma SelectionIs(w: World, stage: Stage, lines: seq<string>, openEnd: bool)
    requires stage.Head? || stage.HeadAllBut? || stage.Tail? || stage.TailFrom?
    ensures var r, n := StageOut(w, stage, lines, openEnd), |lines|;
            && r.Some? && r.value.status == 0
            && (match stage
                case Head(k) => AreLinesFromTo(r.value.lines, lines, 1, Least(k, n))
                case HeadAllBut(k) => AreLinesFromTo(r.value.lines, lines, 1, n - k)
                case Tail(k) => AreLinesFromTo(r.value.lines, lines, n - Least(k, n) + 1, n)
                case TailFrom(k) => AreLinesFromTo(r.value.lines, lines, if k == 0 then 1 else Least(k, n + 1), n))
            && (r.value.openEnd <==> openEnd && r.value.lines != []
                                     && r.value.lines[|r.value.lines| - 1] == lines[n - 1] && ReachesEnd(stage, n))
  {
    match stage
    case Head(k) => HeadIs(w, k, lines, openEnd);
    case HeadAllBut(k) => HeadAllButIs(w, k, lines, openEnd);
    case Tail(k) => TailIs(w, k, lines, openEnd);
    case TailFrom(k) => TailFromIs(w, k, lines, openEnd);
  }

  /** These lines are printed, and the end stays open if it was and the last of them is the last of all. */
  predicate Prints(r: Option<Out>, lines: seq<string>, openEnd: bool, first: int, last: int, reaches: bool) {
    && r.Some? && r.value.status == 0 && AreLinesFromTo(r.value.lines, lines, first, last)
    && (r.value.openEnd <==> openEnd && r.value.lines != [] && reaches)
  }

  lemma HeadIs(w: World, k: nat, lines: seq<string>, openEnd: bool)
    ensures var n := |lines|; Prints(StageOut(w, Head(k), lines, openEnd), lines, openEnd, 1, Least(k, n), k >= n)
  {
  }

  lemma HeadAllButIs(w: World, k: nat, lines: seq<string>, openEnd: bool)
    ensures Prints(StageOut(w, HeadAllBut(k), lines, openEnd), lines, openEnd, 1, |lines| - k, k == 0)
  {
  }

  lemma TailIs(w: World, k: nat, lines: seq<string>, openEnd: bool)
    ensures var n := |lines|;
            Prints(StageOut(w, Tail(k), lines, openEnd), lines, openEnd, n - Least(k, n) + 1, n, true)
  {
  }

  lemma TailFromIs(w: World, k: nat, lines: seq<string>, openEnd: bool)
    ensures var n := |lines|; var first := if k == 0 then 1 else Least(k, n + 1);
            Prints(StageOut(w, TailFrom(k), lines, openEnd), lines, openEnd, first, n, true)
  {
  }

  /** The stages that print the last line of their input. */
  predicate ReachesEnd(stage: Stage, count: nat) {
    match stage
    case Head(k) => k >= count
    case HeadAllBut(k) => k == 0
    case _ => true
  }

  /** `sed -n a,bp` prints the lines from `a` to `b`, at least line `a`, and `$` is the last line. */
  lemma RangeIs(w: World, first: Bound, last: Bound, lines: seq<string>, openEnd: bool)
    requires first != Line(0)
    ensures var r, n := StageOut(w, Slice(first, last), lines, openEnd), |lines|;
            var a, b := if first.LastLine? then n else first.n, if last.LastLine? then n else last.n;
            && r.Some? && r.value.status == 0
            && (if a > n || n == 0 then r.value.lines == []
                else AreLinesFromTo(r.value.lines, lines, a, if b < a then a else Least(b, n)))
            && (r.value.openEnd <==> openEnd && r.value.lines != [] && (a >= n || b >= n))
  {
    var n := |lines|;
    var a, b := if first.LastLine? then n else first.n, if last.LastLine? then n else last.n;
    SliceOut(w, first, last, lines, openEnd, a, b);
  }

  lemma SliceOut(w: World, first: Bound, last: Bound, lines: seq<string>, openEnd: bool, a: int, b: int)
    requires first != Line(0) && a == (if first.LastLine? then |lines| else first.n)
    requires b == if last.LastLine? then |lines| else last.n
    ensures var r, n := StageOut(w, Slice(first, last), lines, openEnd), |lines|;
            && r.Some? && r.value.status == 0
            && (if a > n || n == 0 then r.value.lines == []
                else AreLinesFromTo(r.value.lines, lines, a, if b < a then a else Least(b, n)))
            && (r.value.openEnd <==> openEnd && r.value.lines != [] && (a >= n || b >= n))
  {
  }

  /** `awk 'NR>=a && NR<=b'` of a file prints the lines from `a` to `b`. */
  lemma AwkIs(first: nat, last: int, lines: seq<string>, openEnd: bool)
    ensures var (out, end) := Select(ReadLines(first, last), lines, openEnd);
            var a, b := if first == 0 then 1 else first, Least(last, |lines|);
            && (if a > b then out == [] else AreLinesFromTo(out, lines, a, b))
            && (end <==> openEnd && out != [] && last >= |lines|)
  {
    AwkLines(first, last, lines, openEnd);
  }

  lemma AwkLines(first: nat, last: int, lines: seq<string>, openEnd: bool)
    ensures var a, b := if first == 0 then 1 else first, Least(last, |lines|);
            var out := Select(ReadLines(first, last), lines, openEnd).0;
            if a > b then out == [] else AreLinesFromTo(out, lines, a, b)
  {
  }

  /** `cat -n`: each line behind its number, right-justified in six places, and a tab. */
  lemma NumberIs(w: World, lines: seq<string>, openEnd: bool)
    ensures var r := StageOut(w, Number, lines, openEnd);
            && r.Some? && r.value.status == 0 && |r.value.lines| == |lines|
            && (r.value.openEnd <==> openEnd && lines != [])
            && forall k :: 0 <= k < |lines| ==> IsNumbered(r.value.lines[k], k + 1, 6, "\t" + lines[k])
  {
    forall k | 0 <= k < |lines|
      ensures IsNumbered(NumberedFrom(0, lines)[k], k + 1, 6, "\t" + lines[k])
    {
      OneNumbered(k + 1, lines[k]);
    }
  }

  lemma OneNumbered(n: nat, line: string)
    ensures IsNumbered(Right(n, 6) + "\t" + line, n, 6, "\t" + line)
  {
    RightIs(n, 6);
    assert Right(n, 6) + ("\t" + line) == Right(n, 6) + "\t" + line;
  }

  /** Blanks, the decimal of `n` ending at `width` if it is no wider, and then `rest`. */
  predicate IsNumbered(line: string, n: nat, width: nat, rest: string) {
    |line| >= |rest| && line[|line| - |rest|..] == rest && IsRight(line[..|line| - |rest|], n, width)
  }

  predicate IsRight(text: string, n: nat, width: nat) {
    var digits := Radix.Decimal(n);
    && |text| == (if |digits| < width then width else |digits|) && text[|text| - |digits|..] == digits
    && forall k :: 0 <= k < |text| - |digits| ==> text[k] == ' '
  }

  lemma {:induction false} BlanksAre(n: nat)
    ensures |Blanks(n)| == n && forall k :: 0 <= k < n ==> Blanks(n)[k] == ' '
  {
    if n > 0 { BlanksAre(n - 1); }
  }

  lemma RightIs(n: nat, width: nat)
    ensures IsRight(Right(n, width), n, width)
  {
    var digits := Radix.Decimal(n);
    if |digits| < width { BlanksAre(width - |digits|); }
  }

  // ---------------------------------------------------------------- sort and uniq

  /** `x` may stand before `y`: by number under `-n` and then by text, or the other way under `-r`. */
  predicate MayPrecede(w: World, numeric: bool, reverse: bool, x: string, y: string) {
    if reverse then MayPrecede(w, numeric, false, y, x)
    else if numeric then w.number(x) < w.number(y) || (w.number(x) == w.number(y) && Sorting.IsNotAfter(x, y))
    else Sorting.IsNotAfter(x, y)
  }

  /** `sort`: the lines in order, each as often as before, or each once under `-u`. */
  lemma SortIs(w: World, numeric: bool, reverse: bool, unique: bool, lines: seq<string>, openEnd: bool)
    ensures var r := StageOut(w, Sort(numeric, reverse, unique), lines, openEnd);
            && r.Some? && r.value.status == 0 && !r.value.openEnd
            && (forall i, j :: 0 <= i < j < |r.value.lines| ==>
                  MayPrecede(w, numeric, reverse, r.value.lines[i], r.value.lines[j]))
            && (!unique ==> multiset(r.value.lines) == multiset(lines))
            && (unique ==> forall x ::
                  multiset(r.value.lines)[x] == if x in lines then 1 else 0)
  {
    var leq, input := Order(w, numeric), if unique then Distinct(lines) else lines;
    var s := Sorting.Sorted(leq, input);
    PipelineOrder.SortIsAnOrder(w, numeric);
    Sorting.SortedSorts(leq, input);
    forall i, j | 0 <= i < j < |s| ensures MayPrecede(w, numeric, false, s[i], s[j]) {
      assert leq(s[i], s[j]);
      Sorting.StrLeqIs(s[i], s[j]);
    }
    ReversedElements(s);
    if unique {
      forall x ensures multiset(input)[x] == if x in lines then 1 else 0 { PipelineOrder.DistinctCounts(lines, x); }
    }
  }

  lemma {:induction false} ReversedElements(s: seq<string>)
    ensures multiset(Reversed(s)) == multiset(s)
  {
    if s != [] {
      var init := s[..|s| - 1];
      ReversedElements(init);
      assert Reversed(s) == [s[|s| - 1]] + Reversed(init);
      assert s == init + [s[|s| - 1]];
    }
  }

  /** `uniq`: one line for each run of equal lines, under `-c` behind the length of the run in seven places. */
  lemma UniqIs(w: World, counted: bool, lines: seq<string>, openEnd: bool) returns (groups: seq<(string, nat)>)
    ensures Expanded(groups) == lines
    ensures forall i :: 0 <= i < |groups| ==> groups[i].1 >= 1 && (i > 0 ==> groups[i].0 != groups[i - 1].0)
    ensures var r := StageOut(w, Uniq(counted), lines, openEnd);
            && r.Some? && r.value.status == 0 && !r.value.openEnd && |r.value.lines| == |groups|
            && forall i :: 0 <= i < |groups| ==>
                 if counted then IsNumbered(r.value.lines[i], groups[i].1, 7, " " + groups[i].0)
                 else r.value.lines[i] == groups[i].0
  {
    groups := Groups(lines);
    GroupsSpellOut(lines);
    GroupsAreRuns(lines);
    if counted {
      forall i | 0 <= i < |groups| ensures IsNumbered(GroupLine(groups[i], true), groups[i].1, 7, " " + groups[i].0) {
        GroupLineIs(groups[i]);
      }
    }
    UniqOut(w, counted, lines, openEnd, groups);
  }

  lemma UniqOut(w: World, counted: bool, lines: seq<string>, openEnd: bool, groups: seq<(string, nat)>)
    requires groups == Groups(lines)
    ensures var r := StageOut(w, Uniq(counted), lines, openEnd);
            && r.Some? && r.value.status == 0 && !r.value.openEnd && |r.value.lines| == |groups|
            && forall i :: 0 <= i < |groups| ==>
                 r.value.lines[i] == if counted then GroupLine(groups[i], true) else groups[i].0
  {
  }

  lemma GroupLineIs(group: (string, nat))
    ensures IsNumbered(GroupLine(group, true), group.1, 7, " " + group.0)
  {
    RightIs(group.1, 7);
    assert Right(group.1, 7) + (" " + group.0) == Right(group.1, 7) + " " + group.0;
  }

  /** Each line as often as its group says. */
  lemma {:induction false} ExpandedIs(groups: seq<(string, nat)>, line: string)
    ensures Expanded(groups + [(line, 0)]) == Expanded(groups)
    ensures forall n: nat :: Expanded(groups + [(line, n + 1)]) == Expanded(groups + [(line, n)]) + [line]
  {
    ExpandedOneMore(groups, (line, 0));
    assert Repeated(line, 0) == [];
    forall n: nat ensures Expanded(groups + [(line, n + 1)]) == Expanded(groups + [(line, n)]) + [line] {
      GrowLast(groups, line, n);
    }
  }

  // ---------------------------------------------------------------- wc

  /** Where the words of a text start: at what is not blank, behind a blank or at the start. */
  function WordStarts(w: World, text: string): set<nat> {
    set i: nat | i < |text| && StartsWord(w, text, i)
  }

  predicate StartsWord(w: World, text: string, i: nat)
    requires i < |text|
  {
    !w.isSpace(text[i]) && (i == 0 || w.isSpace(text[i - 1]))
  }

  function BreaksOf(text: string): set<nat> { set i: nat | i < |text| && text[i] == '\n' }

  lemma {:induction false} CountsAre(w: World, text: string)
    ensures CountOf(w, text, LineCount) == |BreaksOf(text)|
    ensures CountOf(w, text, WordCount) == |WordStarts(w, text)|
  {
    if text != "" {
      var n := |text| - 1;
      CountsAre(w, text[..n]);
      BreaksOneMore(text, n);
      StartsOneMore(w, text, n);
    }
  }

  lemma BreaksOneMore(text: string, n: nat)
    requires n + 1 == |text|
    ensures |BreaksOf(text)| == |BreaksOf(text[..n])| + if text[n] == '\n' then 1 else 0
  {
    assert BreaksOf(text) == BreaksOf(text[..n]) + if text[n] == '\n' then {n} else {};
  }

  lemma StartsOneMore(w: World, text: string, n: nat)
    requires n + 1 == |text|
    ensures |WordStarts(w, text)| == |WordStarts(w, text[..n])| + if StartsWord(w, text, n) then 1 else 0
  {
    forall i: nat | i < n ensures StartsWord(w, text, i) <==> StartsWord(w, text[..n], i) {}
    assert WordStarts(w, text) == WordStarts(w, text[..n]) + if StartsWord(w, text, n) then {n} else {};
  }

  /** Bytes add up: nothing for no text, and the bytes of each character. */
  lemma BytesAre(w: World, a: string, b: string, c: char)
    ensures CountOf(w, "", ByteCount) == 0 && CountOf(w, [c], ByteCount) == w.bytes(c)
    ensures CountOf(w, a + b, ByteCount) == CountOf(w, a, ByteCount) + CountOf(w, b, ByteCount)
  {
    assert [c][..0] == "";
    BytesConcat(w, a, b);
  }

  /** The counts one after the other, with a blank between them, each right-justified. */
  ghost predicate IsRow(w: World, row: string, text: string, counts: seq<Count>, width: nat)
    decreases |counts|
  {
    if counts == [] then row == ""
    else if |counts| == 1 then IsRight(row, CountOf(w, text, counts[0]), width)
    else exists k: nat :: 0 < k <= |row| && row[k - 1] == ' '
                          && IsRight(row[k..], CountOf(w, text, counts[|counts| - 1]), width)
                          && IsRow(w, row[..k - 1], text, counts[..|counts| - 1], width)
  }

  lemma {:induction false} RowIs(w: World, text: string, counts: seq<Count>, width: nat)
    ensures IsRow(w, WcRow(w, text, counts, width), text, counts, width)
    decreases |counts|
  {
    if |counts| == 1 {
      RightIs(CountOf(w, text, counts[0]), width);
    } else if |counts| > 1 {
      var init, last := counts[..|counts| - 1], counts[|counts| - 1];
      RowIs(w, text, init, width);
      RightIs(CountOf(w, text, last), width);
      var before, cell := WcRow(w, text, init, width), Right(CountOf(w, text, last), width);
      assert WcRow(w, text, counts, width) == before + " " + cell;
      RowOneMore(w, text, counts, width, before, cell);
    }
  }

  lemma RowOneMore(w: World, text: string, counts: seq<Count>, width: nat, before: string, cell: string)
    requires |counts| > 1 && IsRow(w, before, text, counts[..|counts| - 1], width)
    requires IsRight(cell, CountOf(w, text, counts[|counts| - 1]), width)
    ensures IsRow(w, before + " " + cell, text, counts, width)
  {
    var row, k := before + " " + cell, |before| + 1;
    assert row[k..] == cell && row[..k - 1] == before && row[k - 1] == ' ';
  }

  /** `wc` in a pipe prints one row of the text its input lines make, in seven places if there are several counts. */
  lemma WcIs(w: World, counts: seq<Count>, lines: seq<string>, openEnd: bool)
    ensures var r := StageOut(w, Wc(counts), lines, openEnd);
            && r.Some? && r.value.status == 0 && !r.value.openEnd && |r.value.lines| == 1
            && IsRow(w, r.value.lines[0], TextOf(lines, openEnd), counts, if |counts| > 1 then 7 else 1)
  {
    RowIs(w, TextOf(lines, openEnd), counts, PipeWidth(counts));
  }

  // ---------------------------------------------------------------- grep

  /** Whether the pattern is found in the line, or not, as `-v` asks. */
  predicate IsMatch(w: World, o: GrepOptions, line: string) {
    match w.search(o.pattern, line)
    case Some(found) => found != o.invert
    case None => false
  }

  function Matches(w: World, o: GrepOptions, lines: seq<string>): set<nat> {
    set i: nat | i < |lines| && IsMatch(w, o, lines[i])
  }

  predicate Increases(s: seq<nat>) {
    forall i, j :: 0 <= i < j < |s| ==> s[i] < s[j]
  }

  lemma {:induction false} HitsAreMatches(w: World, o: GrepOptions, lines: seq<string>)
    ensures Increases(Hits(w, o, lines)) && |Hits(w, o, lines)| == |Matches(w, o, lines)|
    ensures forall i: nat :: i in Hits(w, o, lines) <==> i in Matches(w, o, lines)
  {
    if lines != [] {
      var n := |lines| - 1;
      var init := lines[..n];
      HitsAreMatches(w, o, init);
      OneMoreMatch(w, o, lines, n);
    }
  }

  lemma OneMoreMatch(w: World, o: GrepOptions, lines: seq<string>, n: nat)
    requires |lines| == n + 1
    ensures Matches(w, o, lines) == Matches(w, o, lines[..n]) + if IsMatch(w, o, lines[n]) then {n} else {}
    ensures |Matches(w, o, lines)| == |Matches(w, o, lines[..n])| + if IsMatch(w, o, lines[n]) then 1 else 0
  {
    assert Matches(w, o, lines) == Matches(w, o, lines[..n]) + if IsMatch(w, o, lines[n]) then {n} else {};
  }

  /** How many matches are taken. */
  function Taken(w: World, o: GrepOptions, lines: seq<string>): nat {
    var all := |Matches(w, o, lines)|;
    if o.maxCount > 0 && o.maxCount < all then o.maxCount else all
  }

  /**
   * grep declines only when the pattern is not decided on some line; its status is 0 exactly if some line matches, and
   * 1 otherwise; `-q` prints nothing and `-c` the number of matches taken; no output ends open.
   */
  lemma GrepIs(w: World, o: GrepOptions, lines: seq<string>, openEnd: bool)
    ensures var r := StageOut(w, Filter(o), lines, openEnd);
            && (r.None? <==> exists i :: 0 <= i < |lines| && w.search(o.pattern, lines[i]).None?)
            && (r.Some? ==>
                  && r.value.status == (if exists i :: 0 <= i < |lines| && IsMatch(w, o, lines[i]) then 0 else 1)
                  && !r.value.openEnd
                  && (o.quiet ==> r.value.lines == [])
                  && (!o.quiet && o.countOnly ==> r.value.lines == [Radix.Decimal(Taken(w, o, lines))]))
  {
    HitsAreMatches(w, o, lines);
    AnyMatch(w, o, lines);
    assert |Limited(Hits(w, o, lines), o.maxCount)| == Taken(w, o, lines);
  }

  lemma AnyMatch(w: World, o: GrepOptions, lines: seq<string>)
    ensures Limited(Hits(w, o, lines), o.maxCount) != [] <==> exists i :: 0 <= i < |lines| && IsMatch(w, o, lines[i])
  {
    var hits := Hits(w, o, lines);
    HitsAreMatches(w, o, lines);
    if i :| 0 <= i < |lines| && IsMatch(w, o, lines[i]) { assert i in hits; }
    if hits != [] { assert hits[0] in hits; }
  }

  // ---------------------------------------------------------------- what grep prints

  /** Line `i` is a hit that is taken: it matches, and fewer than the limit match before it. */
  predicate IsTaken(w: World, o: GrepOptions, lines: seq<string>, i: nat) {
    && i < |lines| && IsMatch(w, o, lines[i])
    && (o.maxCount == 0 || |Matches(w, o, lines[..i])| < o.maxCount)
  }

  lemma {:induction false} HitsBefore(w: World, o: GrepOptions, lines: seq<string>, k: nat)
    requires k < |Hits(w, o, lines)|
    ensures |Matches(w, o, lines[..Hits(w, o, lines)[k]])| == k
  {
    var n := |lines| - 1;
    var init, hits := lines[..n], Hits(w, o, lines);
    if k < |Hits(w, o, init)| {
      HitsBefore(w, o, init, k);
      assert hits[k] == Hits(w, o, init)[k] < n;
      assert init[..hits[k]] == lines[..hits[k]];
    } else {
      HitsAreMatches(w, o, init);
      assert hits[k] == n;
    }
  }

  lemma LimitedAreTaken(w: World, o: GrepOptions, lines: seq<string>)
    ensures var hits := Limited(Hits(w, o, lines), o.maxCount);
            Increases(hits) && forall i: nat :: i in hits <==> IsTaken(w, o, lines, i)
  {
    var all, hits := Hits(w, o, lines), Limited(Hits(w, o, lines), o.maxCount);
    HitsAreMatches(w, o, lines);
    forall j | 0 <= j < |hits| ensures hits[j] in all { assert hits[j] == all[j]; }
    forall i: nat ensures i in hits <==> IsTaken(w, o, lines, i) {
      if i in all {
        var k :| 0 <= k < |all| && all[k] == i;
        HitsBefore(w, o, lines, k);
        assert i in hits <==> k < |hits| by {
          if i in hits {
            var j :| 0 <= j < |hits| && hits[j] == i;
            assert all[j] == i;
          }
          if k < |hits| { assert hits[k] == i; }
        }
      }
    }
  }

  /** Line `i` is printed: a taken hit, or within the context of one. */
  ghost predicate IsWanted(w: World, o: GrepOptions, lines: seq<string>, i: nat) {
    i < |lines| && exists h: nat :: IsTaken(w, o, lines, h) && h - o.before <= i <= h + o.after
  }

  lemma {:induction false} ChosenAre(count: nat, chosen: nat -> bool)
    ensures Increases(Chosen(count, chosen))
    ensures forall i: nat :: i in Chosen(count, chosen) <==> i < count && chosen(i)
  {
    if count > 0 { ChosenAre(count - 1, chosen); }
  }

  lemma WantedAre(w: World, o: GrepOptions, lines: seq<string>)
    ensures var wanted := Wanted(|lines|, Limited(Hits(w, o, lines), o.maxCount), o.before, o.after);
            Increases(wanted) && forall i: nat :: i in wanted <==> IsWanted(w, o, lines, i)
  {
    var hits := Limited(Hits(w, o, lines), o.maxCount);
    LimitedAreTaken(w, o, lines);
    ChosenAre(|lines|, index => IsNear(hits, o.before, o.after, index));
    forall i: nat | i < |lines| ensures IsNear(hits, o.before, o.after, i) <==> IsWanted(w, o, lines, i) {
      if k :| 0 <= k < |hits| && hits[k] - o.before <= i <= hits[k] + o.after { assert hits[k] in hits; }
      if h: nat :| IsTaken(w, o, lines, h) && h - o.before <= i <= h + o.after {
        var k :| 0 <= k < |hits| && hits[k] == h;
      }
    }
  }

  /** Line `i` as printed: behind the file name and its number if asked for, with `:` for a hit and `-` for context. */
  function PrintedLine(w: World, o: GrepOptions, lines: seq<string>, i: nat): string
    requires i < |lines|
  {
    var mark := if IsTaken(w, o, lines, i) then ":" else "-";
    (if o.withFilename then "(standard input)" + mark else "")
    + (if o.lineNumbers then Radix.Decimal(i + 1) + mark else "") + lines[i]
  }

  /**
   * The wanted lines one after the other, with `--` between two that do not follow each other if context is asked for.
   */
  ghost predicate IsPrinted(w: World, o: GrepOptions, lines: seq<string>, wanted: seq<nat>, out: seq<string>) {
    if wanted == [] then out == []
    else
      var before, i := wanted[..|wanted| - 1], wanted[|wanted| - 1];
      var gap := NeedsGap(o, before, i);
      && i < |lines| && |out| >= (if gap then 2 else 1) && out[|out| - 1] == PrintedLine(w, o, lines, i)
      && (gap ==> out[|out| - 2] == "--")
      && IsPrinted(w, o, lines, before, out[..|out| - if gap then 2 else 1])
  }

  lemma {:induction false} ShownArePrinted(w: World, o: GrepOptions, lines: seq<string>, wanted: seq<nat>)
    requires forall k :: 0 <= k < |wanted| ==> wanted[k] < |lines|
    ensures IsPrinted(w, o, lines, wanted, Shown(lines, Limited(Hits(w, o, lines), o.maxCount), wanted, o, Prefix(o)))
    decreases |wanted|
  {
    if wanted != [] {
      var hits := Limited(Hits(w, o, lines), o.maxCount);
      var before, i := wanted[..|wanted| - 1], wanted[|wanted| - 1];
      ShownArePrinted(w, o, lines, before);
      LimitedAreTaken(w, o, lines);
      var shown, gap := Shown(lines, hits, before, o, Prefix(o)), Gap(o, LastOf(before), i);
      var line := ShownLine(lines[i], i, i in hits, Prefix(o), o.lineNumbers);
      assert Shown(lines, hits, wanted, o, Prefix(o)) == shown + gap + [line];
      LineIsPrinted(w, o, lines, hits, i);
      GapIs(o, before, i);
      PrintedOneMore(w, o, lines, wanted, shown, gap);
    }
  }

  predicate NeedsGap(o: GrepOptions, before: seq<nat>, i: nat) {
    before != [] && before[|before| - 1] + 1 < i && (o.before != 0 || o.after != 0)
  }

  lemma GapIs(o: GrepOptions, before: seq<nat>, i: nat)
    ensures Gap(o, LastOf(before), i) == if NeedsGap(o, before, i) then ["--"] else []
  {
  }

  lemma PrintedOneMore(
    w: World, o: GrepOptions, lines: seq<string>, wanted: seq<nat>, shown: seq<string>, gap: seq<string>)
    requires wanted != [] && wanted[|wanted| - 1] < |lines|
    requires IsPrinted(w, o, lines, wanted[..|wanted| - 1], shown)
    requires gap == if NeedsGap(o, wanted[..|wanted| - 1], wanted[|wanted| - 1]) then ["--"] else []
    ensures IsPrinted(w, o, lines, wanted, shown + gap + [PrintedLine(w, o, lines, wanted[|wanted| - 1])])
  {
    var out := shown + gap + [PrintedLine(w, o, lines, wanted[|wanted| - 1])];
    assert out[..|shown|] == shown;
  }

  lemma LineIsPrinted(w: World, o: GrepOptions, lines: seq<string>, hits: seq<nat>, i: nat)
    requires i < |lines| && (i in hits <==> IsTaken(w, o, lines, i))
    ensures ShownLine(lines[i], i, i in hits, Prefix(o), o.lineNumbers) == PrintedLine(w, o, lines, i)
  {
  }

  /** Otherwise grep prints the taken hits and their context, in order, each line once. */
  lemma GrepPrints(w: World, o: GrepOptions, lines: seq<string>, openEnd: bool) returns (wanted: seq<nat>)
    requires !o.quiet && !o.countOnly && StageOut(w, Filter(o), lines, openEnd).Some?
    ensures Increases(wanted) && forall i: nat :: i in wanted <==> IsWanted(w, o, lines, i)
    ensures IsPrinted(w, o, lines, wanted, StageOut(w, Filter(o), lines, openEnd).value.lines)
  {
    wanted := Wanted(|lines|, Limited(Hits(w, o, lines), o.maxCount), o.before, o.after);
    WantedAre(w, o, lines);
    ShownArePrinted(w, o, lines, wanted);
  }

  // ---------------------------------------------------------------- the pipeline

  /** Stages run one after the other on what the one before printed. */
  ghost predicate RunsThrough(w: World, outs: seq<Out>, pipeline: seq<Stage>) {
    && |outs| == |pipeline| + 1
    && forall i :: 0 <= i < |pipeline| ==>
         StageOut(w, pipeline[i], outs[i].lines, outs[i].openEnd) == Some(outs[i + 1])
  }

  /**
   * No stage before the first `sort` may see where the lines are: only grep, `wc`, a stage that prints all lines, and
   * the `sort` itself do.
   */
  ghost predicate MayRun(outs: seq<Out>, pipeline: seq<Stage>)
    requires |outs| == |pipeline| + 1
  {
    forall i :: 0 <= i < |pipeline| && (forall j :: 0 <= j < i ==> !pipeline[j].Sort?) ==>
      MayTake(pipeline[i], |outs[i].lines|)
  }

  predicate MayTake(stage: Stage, count: nat) {
    match stage
    case Head(n) => count <= n
    case Tail(n) => count <= n
    case Passthrough => true
    case Sort(_, _, _) => true
    case Wc(_) => true
    case Filter(_) => true
    case _ => false
  }

  /** A pipeline is answered exactly when every stage answers and, for lines in no order, when every stage may run. */
  lemma {:induction false} ThroughIs(w: World, out: Out, pipeline: seq<Stage>, unordered: bool, outs: seq<Out>)
    requires outs != [] && outs[0] == out && RunsThrough(w, outs, pipeline)
    ensures Through(w, out, pipeline, unordered)
         == if unordered && !MayRun(outs, pipeline) then None else Some(outs[|pipeline|])
    decreases |pipeline|
  {
    if pipeline != [] {
      var rest, later, still := pipeline[1..], outs[1..], unordered && !pipeline[0].Sort?;
      forall i | 0 <= i < |rest| ensures StageOut(w, rest[i], later[i].lines, later[i].openEnd) == Some(later[i + 1]) {
        assert rest[i] == pipeline[i + 1] && later[i] == outs[i + 1];
      }
      ThroughIs(w, outs[1], rest, still, later);
      if unordered { MayRunFrom(outs, pipeline); }
    }
  }

  lemma MayRunFrom(outs: seq<Out>, pipeline: seq<Stage>)
    requires pipeline != [] && |outs| == |pipeline| + 1
    ensures MayRun(outs, pipeline) <==>
            MayTake(pipeline[0], |outs[0].lines|) && (pipeline[0].Sort? || MayRun(outs[1..], pipeline[1..]))
  {
    var rest, later := pipeline[1..], outs[1..];
    if MayRun(outs, pipeline) && !pipeline[0].Sort? {
      forall i | 0 <= i < |rest| && (forall j :: 0 <= j < i ==> !rest[j].Sort?)
        ensures MayTake(rest[i], |later[i].lines|)
      {
        forall j | 0 <= j < i + 1 ensures !pipeline[j].Sort? { if j > 0 { assert rest[j - 1] == pipeline[j]; } }
        assert MayTake(pipeline[i + 1], |outs[i + 1].lines|);
      }
    }
    if MayTake(pipeline[0], |outs[0].lines|) && (pipeline[0].Sort? || MayRun(later, rest)) {
      forall i | 0 <= i < |pipeline| && (forall j :: 0 <= j < i ==> !pipeline[j].Sort?)
        ensures MayTake(pipeline[i], |outs[i].lines|)
      {
        if i > 0 {
          assert !pipeline[0].Sort?;
          forall j | 0 <= j < i - 1 ensures !rest[j].Sort? { assert rest[j] == pipeline[j + 1]; }
          assert MayTake(rest[i - 1], |later[i - 1].lines|);
        }
      }
    }
  }

  /** ... and if a stage of the pipeline does not answer, nor does the pipeline. */
  lemma {:induction false} ThroughNothing(
    w: World, out: Out, pipeline: seq<Stage>, unordered: bool, outs: seq<Out>, n: nat)
    requires n < |pipeline| && |outs| == n + 1 && outs[0] == out && RunsThrough(w, outs, pipeline[..n])
    requires StageOut(w, pipeline[n], outs[n].lines, outs[n].openEnd).None?
    ensures Through(w, out, pipeline, unordered).None?
    decreases |pipeline|
  {
    if n > 0 {
      var rest, later := pipeline[1..], outs[1..];
      forall i | 0 <= i < n - 1 ensures StageOut(w, rest[i], later[i].lines, later[i].openEnd) == Some(later[i + 1]) {
        assert rest[i] == pipeline[..n][i + 1] && later[i] == outs[i + 1];
      }
      assert pipeline[..n][0] == pipeline[0];
      ThroughNothing(w, outs[1], rest, unordered && !pipeline[0].Sort?, later, n - 1);
    }
  }
}
