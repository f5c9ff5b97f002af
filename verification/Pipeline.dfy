/**
 * Reads and pipe stages: `_select`, `_stage`, `_filter`, `_context_lines` and `_through`,
 * `src/repo_context_service/command_search.py`.
 */
module Pipeline {
  import opened Results
  import opened TextLines
  import Radix
  import Sorting

  /** What the lines mean to a stage: its regex engine (None where it declines), numbers, bytes and blanks. */
  datatype World = World(
    search: (string, string) -> Option<bool>, number: string -> real, bytes: char -> nat, isSpace: char -> bool)

  datatype Bound = LastLine | Line(n: nat)
  datatype Count = LineCount | WordCount | ByteCount

  datatype GrepOptions = GrepOptions(
    pattern: string, invert: bool, maxCount: nat, quiet: bool, countOnly: bool, withFilename: bool,
    before: nat, after: nat, lineNumbers: bool)

  datatype Stage =
    | Passthrough
    | Head(count: nat)
    | HeadAllBut(count: nat)
    | Tail(count: nat)
    | TailFrom(count: nat)
    | Slice(first: Bound, last: Bound)
    | Number
    | Sort(numeric: bool, reverse: bool, unique: bool)
    | Uniq(counted: bool)
    | Wc(counts: seq<Count>)
    | Filter(options: GrepOptions)

  /** What a stage writes: its lines, whether the last lacks a line break, and its status. */
  datatype Out = Out(lines: seq<string>, openEnd: bool, status: int)

  // ---------------------------------------------------------------- Python's slices and columns

  function Max(a: int, b: int): int { if a > b then a else b }

  function Index(i: int, length: nat): (k: nat)
    ensures k <= length
  {
    if i < 0 then Max(0, i + length) else if i > length then length else i
  }

  /** `s[low:high]`, where a negative bound counts from the end. */
  function PySlice<T>(s: seq<T>, low: int, high: int): seq<T> {
    if Index(low, |s|) <= Index(high, |s|) then s[Index(low, |s|)..Index(high, |s|)] else []
  }

  function Blanks(n: nat): string { if n == 0 then "" else " " + Blanks(n - 1) }

  /** `f"{n:>width}"`. */
  function Right(n: nat, width: nat): string {
    var digits := Radix.Decimal(n);
    if |digits| >= width then digits else Blanks(width - |digits|) + digits
  }

  // ---------------------------------------------------------------- sort

  /** The order of `sort`: by leading number first under `-n`, then by the line itself. */
  predicate Leq(w: World, numeric: bool, a: string, b: string) {
    if numeric && w.number(a) != w.number(b) then w.number(a) < w.number(b) else Sorting.StrLeq(a, b)
  }

  function Order(w: World, numeric: bool): (string, string) -> bool { (a, b) => Leq(w, numeric, a, b) }

  /** One of each line: `set(lines)` in one of the orders a set may have. */
  function Distinct(s: seq<string>): seq<string> {
    if s == [] then [] else if s[|s| - 1] in s[..|s| - 1] then Distinct(s[..|s| - 1])
        else Distinct(s[..|s| - 1]) + [s[|s| - 1]]
  }

  function Reversed(s: seq<string>): (r: seq<string>)
    ensures |r| == |s|
  {
    seq(|s|, i requires 0 <= i < |s| => s[|s| - 1 - i])
  }

  function SortedOut(w: World, numeric: bool, reverse: bool, unique: bool, lines: seq<string>): seq<string> {
    var s := Sorting.Sorted(Order(w, numeric), if unique then Distinct(lines) else lines);
    if reverse then Reversed(s) else s
  }

  // ---------------------------------------------------------------- uniq

  /** Runs of equal lines with their lengths. */
  function Groups(lines: seq<string>): seq<(string, nat)> {
    if lines == [] then [] else Grouped(Groups(lines[..|lines| - 1]), lines[|lines| - 1])
  }

  function Grouped(groups: seq<(string, nat)>, line: string): seq<(string, nat)> {
    if groups != [] && groups[|groups| - 1].0 == line
    then groups[..|groups| - 1] + [(line, groups[|groups| - 1].1 + 1)]
    else groups + [(line, 1)]
  }

  function GroupLine(group: (string, nat), counted: bool): string {
    if counted then Right(group.1, 7) + " " + group.0 else group.0
  }

  function UniqOut(lines: seq<string>, counted: bool): seq<string> {
    var groups := Groups(lines);
    seq(|groups|, i requires 0 <= i < |groups| => GroupLine(groups[i], counted))
  }

  // ---------------------------------------------------------------- wc

  function LineBreaks(s: string): nat {
    if s == "" then 0 else LineBreaks(s[..|s| - 1]) + if s[|s| - 1] == '\n' then 1 else 0
  }

  /** How many words `split()` makes: the characters that are not blank and follow a blank or nothing. */
  function Words(w: World, s: string): nat {
    if s == "" then 0
    else
      var n := |s| - 1;
      Words(w, s[..n]) + if !w.isSpace(s[n]) && (n == 0 || w.isSpace(s[n - 1])) then 1 else 0
  }

  function Bytes(w: World, s: string): nat {
    if s == "" then 0 else Bytes(w, s[..|s| - 1]) + w.bytes(s[|s| - 1])
  }

  function CountOf(w: World, text: string, count: Count): nat {
    match count
    case LineCount => LineBreaks(text)
    case WordCount => Words(w, text)
    case ByteCount => Bytes(w, text)
  }

  lemma {:induction false} BytesConcat(w: World, a: string, b: string)
    ensures Bytes(w, a + b) == Bytes(w, a) + Bytes(w, b) && LineBreaks(a + b) == LineBreaks(a) + LineBreaks(b)
  {
    if b == "" {
      assert a + b == a;
    } else {
      assert (a + b)[..|a + b| - 1] == a + b[..|b| - 1];
      BytesConcat(w, a, b[..|b| - 1]);
    }
  }

  /** A word goes on from `a` into `b`. */
  predicate Glues(w: World, a: string, b: string) {
    a != "" && b != "" && !w.isSpace(a[|a| - 1]) && !w.isSpace(b[0])
  }

  lemma {:induction false} WordsConcat(w: World, a: string, b: string)
    ensures Words(w, a + b) == Words(w, a) + Words(w, b) - if Glues(w, a, b) then 1 else 0
  {
    if b == "" {
      assert a + b == a;
    } else {
      assert (a + b)[..|a + b| - 1] == a + b[..|b| - 1];
      WordsConcat(w, a, b[..|b| - 1]);
      if |b| == 1 { assert a + b[..0] == a; }
    }
  }

  function WcRow(w: World, text: string, counts: seq<Count>, width: nat): string {
    if |counts| == 0 then ""
    else if |counts| == 1 then Right(CountOf(w, text, counts[0]), width)
    else WcRow(w, text, counts[..|counts| - 1], width) + " " + Right(CountOf(w, text, counts[|counts| - 1]), width)
  }

  function PipeWidth(counts: seq<Count>): nat { if |counts| > 1 then 7 else 1 }

  // ---------------------------------------------------------------- grep

  /** Whether grep declines none of the lines. */
  predicate AllKnown(w: World, o: GrepOptions, lines: seq<string>) {
    forall i :: 0 <= i < |lines| ==> w.search(o.pattern, lines[i]).Some?
  }

  predicate IsHit(w: World, o: GrepOptions, line: string) {
    w.search(o.pattern, line).Some? && w.search(o.pattern, line).value != o.invert
  }

  function Hits(w: World, o: GrepOptions, lines: seq<string>): (hits: seq<nat>)
    ensures forall k :: 0 <= k < |hits| ==> hits[k] < |lines|
  {
    if lines == [] then []
    else Hits(w, o, lines[..|lines| - 1]) + if IsHit(w, o, lines[|lines| - 1]) then [|lines| - 1] else []
  }

  function Limited(hits: seq<nat>, maxCount: nat): (limited: seq<nat>)
    ensures limited <= hits
  {
    if maxCount > 0 && |hits| > maxCount then hits[..maxCount] else hits
  }

  predicate IsNear(hits: seq<nat>, before: nat, after: nat, index: int) {
    exists k :: 0 <= k < |hits| && hits[k] - before <= index <= hits[k] + after
  }

  /** The numbers below `count` that are `chosen`, in order. */
  function Chosen(count: nat, chosen: nat -> bool): (r: seq<nat>)
    ensures forall k :: 0 <= k < |r| ==> r[k] < count
  {
    if count == 0 then [] else Chosen(count - 1, chosen) + if chosen(count - 1) then [count - 1] else []
  }

  /** The line numbers below `count` within reach of a hit, in order. */
  function Wanted(count: nat, hits: seq<nat>, before: nat, after: nat): (wanted: seq<nat>)
    ensures forall k :: 0 <= k < |wanted| ==> wanted[k] < count
  {
    Chosen(count, index => IsNear(hits, before, after, index))
  }

  function ShownLine(line: string, index: nat, isHit: bool, prefix: string, numbered: bool): string {
    var separator := if isHit then ":" else "-";
    (if prefix == "" then "" else prefix + separator) + (if numbered then Radix.Decimal(index + 1) + separator else "")
        + line
  }

  /** `--` before a line that does not follow the previous one, when context is asked for. */
  function Gap(o: GrepOptions, previous: Option<nat>, index: nat): seq<string> {
    if (o.before > 0 || o.after > 0) && previous.Some? && index > previous.value + 1 then ["--"] else []
  }

  function LastOf(wanted: seq<nat>): Option<nat> { if wanted == [] then None else Some(wanted[|wanted| - 1]) }

  function Shown(lines: seq<string>, hits: seq<nat>, wanted: seq<nat>, o: GrepOptions, prefix: string): seq<string>
    requires forall k :: 0 <= k < |wanted| ==> wanted[k] < |lines|
  {
    if wanted == [] then []
    else
      var before, index := wanted[..|wanted| - 1], wanted[|wanted| - 1];
      Shown(lines, hits, before, o, prefix) + Gap(o, LastOf(before), index)
      + [ShownLine(lines[index], index, index in hits, prefix, o.lineNumbers)]
  }

  function Prefix(o: GrepOptions): string { if o.withFilename then "(standard input)" else "" }

  /** What grep prints of its input. */
  function FilterLines(w: World, o: GrepOptions, lines: seq<string>): seq<string> {
    var hits := Limited(Hits(w, o, lines), o.maxCount);
    Shown(lines, hits, Wanted(|lines|, hits, o.before, o.after), o, Prefix(o))
  }

  function FilterOut(w: World, o: GrepOptions, lines: seq<string>): Option<Out> {
    if !AllKnown(w, o, lines) then None
    else
      var hits := Limited(Hits(w, o, lines), o.maxCount);
      var status := if hits == [] then 1 else 0;
      if o.quiet then Some(Out([], false, status))
      else if o.countOnly then Some(Out([Radix.Decimal(|hits|)], false, status))
      else Some(Out(FilterLines(w, o, lines), false, status))
  }

  // ---------------------------------------------------------------- one stage, one read

  function At(bound: Bound, count: nat): nat { if bound.LastLine? then count else bound.n }

  function NumberedFrom(before: nat, lines: seq<string>): (r: seq<string>)
    ensures |r| == |lines|
  {
    seq(|lines|, i requires 0 <= i < |lines| => Right(before + i + 1, 6) + "\t" + lines[i])
  }

  /** The lines of a stage that keeps its status 0, and whether it keeps an unterminated end. */
  function Selected(w: World, stage: Stage, lines: seq<string>): (seq<string>, bool)
    requires !stage.Passthrough? && !stage.Wc? && !stage.Filter?
  {
    match stage
    case Head(n) => (PySlice(lines, 0, n), n >= |lines|)
    case HeadAllBut(n) => (PySlice(lines, 0, Max(0, |lines| - n)), n == 0)
    case Tail(n) => (if n == 0 then [] else PySlice(lines, 0 - n, |lines|), true)
    case TailFrom(n) => (PySlice(lines, Max(n, 1) - 1, |lines|), true)
    case Slice(a, b) =>
      var first, last := At(a, |lines|), At(b, |lines|);
      (if first <= |lines| then PySlice(lines, first - 1, Max(first, last)) else [], Max(first, last) >= |lines|)
    case Number => (NumberedFrom(0, lines), true)
    case Sort(numeric, reverse, unique) => (SortedOut(w, numeric, reverse, unique, lines), false)
    case Uniq(counted) => (UniqOut(lines, counted), false)
  }

  function StageOut(w: World, stage: Stage, lines: seq<string>, openEnd: bool): Option<Out> {
    match stage
    case Passthrough => Some(Out(lines, openEnd, 0))
    case Wc(counts) => Some(Out([WcRow(w, TextOf(lines, openEnd), counts, PipeWidth(counts))], false, 0))
    case Filter(options) => FilterOut(w, options, lines)
    case _ =>
      var (out, keepsEnd) := Selected(w, stage, lines);
      Some(Out(out, openEnd && keepsEnd && out != [], 0))
  }

  /** What a read command selects: `awk` takes a plain line range, `sed -n` one that prints at least its first line. */
  datatype Read =
    | ReadAll
    | ReadHead(count: nat)
    | ReadHeadAllBut(count: nat)
    | ReadTail(count: nat)
    | ReadTailFrom(count: nat)
    | ReadSed(start: Bound, stop: Bound)
    | ReadLines(first: nat, last: int)

  function Range(read: Read, count: nat): (int, int)
    requires !read.ReadAll?
  {
    match read
    case ReadHead(n) => (1, n)
    case ReadHeadAllBut(n) => (1, count - n)
    case ReadTail(n) => (count - n + 1, count)
    case ReadTailFrom(n) => (n, count)
    case ReadSed(a, b) => (At(a, count), Max(At(a, count), At(b, count)))
    case ReadLines(a, b) => (a, b)
  }

  function Select(read: Read, lines: seq<string>, openEnd: bool): (seq<string>, bool) {
    if read.ReadAll? then (lines, openEnd)
    else
      var (low, last) := Range(read, |lines|);
      var selected := PySlice(lines, Max(low, 1) - 1, Max(last, 0));
      (selected, openEnd && selected != [] && last >= |lines|)
  }

  /** The pipe stage that selects what a read selects; the read parser refuses a `sed` range from line 0. */
  function StageOf(read: Read): Stage
    requires !read.ReadLines?
  {
    match read
    case ReadAll => Passthrough
    case ReadHead(n) => Head(n)
    case ReadHeadAllBut(n) => HeadAllBut(n)
    case ReadTail(n) => Tail(n)
    case ReadTailFrom(n) => TailFrom(n)
    case ReadSed(a, b) => Slice(a, b)
  }

  /** A read of a file and the same selection in a pipe print the same lines with the same end. */
  lemma ReadIsStage(w: World, read: Read, lines: seq<string>, openEnd: bool)
    requires !read.ReadLines? && !(read.ReadSed? && read.start == Line(0))
    ensures var (selected, end) := Select(read, lines, openEnd);
            StageOut(w, StageOf(read), lines, openEnd) == Some(Out(selected, end, 0))
  {
    if !read.ReadAll? { SameLines(w, read, lines, openEnd); }
  }

  lemma SameLines(w: World, read: Read, lines: seq<string>, openEnd: bool)
    requires !read.ReadLines? && !read.ReadAll? && !(read.ReadSed? && read.start == Line(0))
    ensures Selected(w, StageOf(read), lines).0 == Select(read, lines, openEnd).0
    ensures Select(read, lines, openEnd).0 != [] ==>
            (Selected(w, StageOf(read), lines).1 <==> Range(read, |lines|).1 >= |lines|)
  {
    if read.ReadSed? {
      SameSlice(w, read.start, read.stop, lines, openEnd);
    } else {
      SameEnds(w, read, lines, openEnd);
    }
  }

  lemma SameSlice(w: World, start: Bound, stop: Bound, lines: seq<string>, openEnd: bool)
    requires start != Line(0)
    ensures var stage, read := Slice(start, stop), ReadSed(start, stop);
            && Selected(w, stage, lines).0 == Select(read, lines, openEnd).0
            && (Select(read, lines, openEnd).0 != [] ==>
                  (Selected(w, stage, lines).1 <==> Range(read, |lines|).1 >= |lines|))
  {
  }

  lemma SameEnds(w: World, read: Read, lines: seq<string>, openEnd: bool)
    requires !read.ReadLines? && !read.ReadAll? && !read.ReadSed?
    ensures Selected(w, StageOf(read), lines).0 == Select(read, lines, openEnd).0
    ensures Select(read, lines, openEnd).0 != [] ==>
            (Selected(w, StageOf(read), lines).1 <==> Range(read, |lines|).1 >= |lines|)
  {
  }

  /**
   * `awk 'NR>=a && NR<=b'` selects what `sed -n a,bp` does, except that `sed` prints line `a` of a range that ends
   * before it.
   */
  lemma AwkRangeIsSedRange(w: World, first: nat, last: nat, lines: seq<string>, openEnd: bool)
    requires first >= 1
    ensures var (selected, end) := Select(ReadLines(first, last), lines, openEnd);
            (StageOut(w, Slice(Line(first), Line(last)), lines, openEnd) == Some(Out(selected, end, 0))
             <==> last >= first || first > |lines|)
  {
    var (selected, end) := Select(ReadLines(first, last), lines, openEnd);
    var (out, _) := Selected(w, Slice(Line(first), Line(last)), lines);
    if last < first <= |lines| {
      assert selected == [] && out[0] == lines[first - 1];
    } else {
      assert out == selected;
    }
  }

  lemma ZerosParse()
    ensures Radix.ParseDecimal("00") == 0
  {
    var digits := seq(2, i requires 0 <= i < 2 => "00"[i] as int - '0' as int);
    assert digits == [0, 0] && [0, 0][..1] == [0] && [0][..0] == [];
    assert Radix.Value([0], 10) == 0;
  }

  /**
   * A pipe's `sed -n` is refused when its first line is spelled `0`, but not when it is spelled `00`: such a range
   * prints the last line if it reaches the end and nothing otherwise, where the read of a file is refused.
   */
  lemma SliceFromZero(w: World, last: nat, lines: seq<string>, openEnd: bool)
    requires lines != []
    ensures StageOut(w, Slice(Line(0), Line(last)), lines, openEnd)
         == Some(if last >= |lines| then Out([lines[|lines| - 1]], openEnd, 0) else Out([], false, 0))
    ensures Radix.ParseDecimal("00") == 0 && "00" != "0"
  {
    ZerosParse();
    var (out, _) := Selected(w, Slice(Line(0), Line(last)), lines);
    assert out == if last >= |lines| then [lines[|lines| - 1]] else [];
  }

  // ---------------------------------------------------------------- a pipeline

  predicate KeepsAll(stage: Stage, count: nat) {
    (stage.Head? || stage.Tail?) && stage.count >= count
  }

  /** Whether a stage is run over lines in filesystem order. */
  predicate TakesUnordered(stage: Stage, count: nat) {
    KeepsAll(stage, count) || stage.Filter? || stage.Wc? || stage.Passthrough? || stage.Sort?
  }

  /** `lines` through the stages, or None when one declines. */
  function Through(w: World, out: Out, pipeline: seq<Stage>, unordered: bool): Option<Out>
    decreases |pipeline|
  {
    if pipeline == [] then Some(out)
    else if unordered && !TakesUnordered(pipeline[0], |out.lines|) then None
    else
      var next := StageOut(w, pipeline[0], out.lines, out.openEnd);
      if next.None? then None else Through(w, next.value, pipeline[1..], unordered && !pipeline[0].Sort?)
  }

  method RunThrough(w: World, lines: seq<string>, openEnd: bool, pipeline: seq<Stage>, unordered: bool)
    returns (r: Option<Out>)
    ensures r == Through(w, Out(lines, openEnd, 0), pipeline, unordered)
  {
    var out, still := Out(lines, openEnd, 0), unordered;
    for i := 0 to |pipeline|
      invariant Through(w, Out(lines, openEnd, 0), pipeline, unordered) == Through(w, out, pipeline[i..], still)
    {
      var stage := pipeline[i];
      assert pipeline[i..][0] == stage && pipeline[i..][1..] == pipeline[i + 1..];
      var keepsAll := KeepsAll(stage, |out.lines|);
      if still && !keepsAll && !(stage.Filter? || stage.Wc? || stage.Passthrough? || stage.Sort?) {
        return None;
      }
      still := still && !stage.Sort?;
      var next := StageOut(w, stage, out.lines, out.openEnd);
      if next.None? { return None; }
      out := next.value;
    }
    r := Some(out);
  }

  // ---------------------------------------------------------------- the loops of `uniq` and of grep's context

  lemma GroupsGrow(lines: seq<string>, i: nat)
    requires i < |lines|
    ensures Groups(lines[..i + 1]) == Grouped(Groups(lines[..i]), lines[i])
  {
    assert lines[..i + 1][..i] == lines[..i];
  }

  method CountGroups(lines: seq<string>) returns (groups: seq<(string, nat)>)
    ensures groups == Groups(lines)
  {
    groups := [];
    for i := 0 to |lines|
      invariant groups == Groups(lines[..i])
    {
      var line := lines[i];
      GroupsGrow(lines, i);
      if groups != [] && groups[|groups| - 1].0 == line {
        groups := groups[|groups| - 1 := (line, groups[|groups| - 1].1 + 1)];
      } else {
        groups := groups + [(line, 1)];
      }
    }
    assert lines[..|lines|] == lines;
  }

  function Repeated(line: string, n: nat): (r: seq<string>)
    ensures |r| == n
  {
    if n == 0 then [] else Repeated(line, n - 1) + [line]
  }

  function Expanded(groups: seq<(string, nat)>): seq<string> {
    if groups == [] then []
    else Expanded(groups[..|groups| - 1]) + Repeated(groups[|groups| - 1].0, groups[|groups| - 1].1)
  }

  /** `uniq -c` loses nothing: the groups spelled out are the lines ... */
  lemma {:induction false} GroupsSpellOut(lines: seq<string>)
    ensures Expanded(Groups(lines)) == lines
  {
    if lines != [] {
      var shorter, line := lines[..|lines| - 1], lines[|lines| - 1];
      GroupsSpellOut(shorter);
      SpelledOneMore(lines, shorter, line, Expanded(Groups(shorter)));
    }
  }

  lemma SpelledOneMore(lines: seq<string>, shorter: seq<string>, line: string, spelled: seq<string>)
    requires lines != [] && shorter == lines[..|lines| - 1] && line == lines[|lines| - 1]
    requires spelled == Expanded(Groups(shorter))
    ensures Expanded(Groups(lines)) == spelled + [line]
  {
    GroupedSpellsOut(Groups(shorter), line);
  }

  lemma GroupedSpellsOut(groups: seq<(string, nat)>, line: string)
    ensures Expanded(Grouped(groups, line)) == Expanded(groups) + [line]
  {
    if groups != [] && groups[|groups| - 1].0 == line {
      GrowLast(groups[..|groups| - 1], line, groups[|groups| - 1].1);
      assert groups == groups[..|groups| - 1] + [(line, groups[|groups| - 1].1)];
    } else {
      ExpandedOneMore(groups, (line, 1));
      assert Repeated(line, 0) + [line] == [line];
    }
  }

  /** ... and its groups are whole runs: none is empty, and neighbours differ. */
  lemma {:induction false} GroupsAreRuns(lines: seq<string>)
    ensures forall i :: 0 <= i < |Groups(lines)| ==> Groups(lines)[i].1 >= 1
    ensures forall i :: 0 < i < |Groups(lines)| ==> Groups(lines)[i].0 != Groups(lines)[i - 1].0
  {
    if lines != [] { GroupsAreRuns(lines[..|lines| - 1]); }
  }

  lemma ExpandedOneMore(groups: seq<(string, nat)>, group: (string, nat))
    ensures Expanded(groups + [group]) == Expanded(groups) + Repeated(group.0, group.1)
  {
    assert (groups + [group])[..|groups|] == groups;
  }

  lemma GrowLast(groups: seq<(string, nat)>, line: string, n: nat)
    ensures Expanded(groups + [(line, n + 1)]) == Expanded(groups + [(line, n)]) + [line]
  {
    ExpandedOneMore(groups, (line, n));
    ExpandedOneMore(groups, (line, n + 1));
    AddOne(Expanded(groups), Repeated(line, n), line);
  }

  lemma AddOne(a: seq<string>, b: seq<string>, line: string)
    ensures a + (b + [line]) == a + b + [line]
  {
  }

  lemma ShownOneMore(lines: seq<string>, hits: seq<nat>, wanted: seq<nat>, i: nat, o: GrepOptions, prefix: string)
    requires i < |wanted| && forall k :: 0 <= k < |wanted| ==> wanted[k] < |lines|
    ensures Shown(lines, hits, wanted[..i + 1], o, prefix)
         == Shown(lines, hits, wanted[..i], o, prefix) + Gap(o, LastOf(wanted[..i]), wanted[i])
            + [ShownLine(lines[wanted[i]], wanted[i], wanted[i] in hits, prefix, o.lineNumbers)]
  {
    assert wanted[..i + 1][..i] == wanted[..i];
  }

  method ContextLines(lines: seq<string>, hits: seq<nat>, o: GrepOptions, prefix: string) returns (out: seq<string>)
    ensures out == Shown(lines, hits, Wanted(|lines|, hits, o.before, o.after), o, prefix)
  {
    var wanted := Wanted(|lines|, hits, o.before, o.after);
    out := [];
    var previous: Option<nat> := None;
    for i := 0 to |wanted|
      invariant previous == LastOf(wanted[..i])
      invariant out == Shown(lines, hits, wanted[..i], o, prefix)
    {
      var index := wanted[i];
      ShownOneMore(lines, hits, wanted, i, o, prefix);
      out := out + Gap(o, previous, index) + [ShownLine(lines[index], index, index in hits, prefix, o.lineNumbers)];
      previous := Some(index);
    }
    assert wanted[..|wanted|] == wanted;
  }
}
