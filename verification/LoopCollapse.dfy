/**
 * Looping output: `_looping_output`, `_trailing_cycle_period` and `_collapse_looping` of
 * `src/albedo_eval_service/judge_api.py`.
 */
module LoopCollapse {
  import opened Results
  import opened TextLines

  const LOOP_LINE_RUN := 25
  const LOOP_TAIL_WINDOW := 512
  const LOOP_MIN_REPEATS := 4
  const MARKER := "... (output repeats)"

  /** `str.strip`, for lines; a line is blank when nothing is left of it. */
  type Strip = string -> string

  // ---------------------------------------------------------------- runs of lines

  predicate IsBlankLine(strip: Strip, line: string) { strip(line) == "" }

  /** The last of the first `n` lines that is not blank. */
  function LastLine(strip: Strip, lines: seq<string>, n: nat): (j: Option<nat>)
    requires n <= |lines|
    ensures j.Some? ==> j.value < n && !IsBlankLine(strip, lines[j.value])
  {
    if n == 0 then None else if !IsBlankLine(strip, lines[n - 1]) then Some(n - 1) else LastLine(strip, lines, n - 1)
  }

  /** How many lines in a row up to `k` are the same, blank lines and outer blanks aside. */
  function RunLength(strip: Strip, lines: seq<string>, k: nat): (r: nat)
    requires k < |lines|
    ensures r >= 1
  {
    var before := LastLine(strip, lines, k);
    if before.Some? && strip(lines[before.value]) == strip(lines[k]) then RunLength(strip, lines, before.value) + 1
        else 1
  }

  /** Some line is the 25th of a run. */
  ghost predicate LinesLoop(strip: Strip, lines: seq<string>) {
    exists k :: 0 <= k < |lines| && IsLongRun(strip, lines, k)
  }

  predicate IsLongRun(strip: Strip, lines: seq<string>, k: nat)
    requires k < |lines|
  {
    !IsBlankLine(strip, lines[k]) && RunLength(strip, lines, k) >= LOOP_LINE_RUN
  }

  /** What a line becomes: the 25th of a run the marker, those after it nothing. */
  function LineOut(strip: Strip, lines: seq<string>, k: nat): seq<string>
    requires k < |lines|
  {
    if IsBlankLine(strip, lines[k]) || RunLength(strip, lines, k) < LOOP_LINE_RUN then [lines[k]]
    else if RunLength(strip, lines, k) == LOOP_LINE_RUN then [MARKER]
    else []
  }

  function CollapsedLines(strip: Strip, lines: seq<string>, n: nat): seq<string>
    requires n <= |lines|
  {
    if n == 0 then [] else CollapsedLines(strip, lines, n - 1) + LineOut(strip, lines, n - 1)
  }

  /** What the scanning loops remember of the first `n` lines. */
  ghost predicate Remembers(strip: Strip, lines: seq<string>, n: nat, run: nat, prev: Option<string>)
    requires n <= |lines|
  {
    var last := LastLine(strip, lines, n);
    if last.None? then prev == None && run == 1
    else prev == Some(strip(lines[last.value])) && run == RunLength(strip, lines, last.value)
  }

  lemma RunGoesOn(strip: Strip, lines: seq<string>, i: nat, run: nat, prev: Option<string>)
    requires i < |lines| && Remembers(strip, lines, i, run, prev)
    ensures IsBlankLine(strip, lines[i]) ==> Remembers(strip, lines, i + 1, run, prev)
    ensures !IsBlankLine(strip, lines[i]) ==>
              && RunLength(strip, lines, i) == (if prev == Some(strip(lines[i])) then run + 1 else 1)
              && Remembers(strip, lines, i + 1, RunLength(strip, lines, i), Some(strip(lines[i])))
  {
  }

  method LineLoop(strip: Strip, lines: seq<string>) returns (loops: bool)
    ensures loops == LinesLoop(strip, lines)
  {
    var run: nat := 1;
    var prev: Option<string> := None;
    for i := 0 to |lines|
      invariant Remembers(strip, lines, i, run, prev)
      invariant forall k :: 0 <= k < i ==> !IsLongRun(strip, lines, k)
    {
      RunGoesOn(strip, lines, i, run, prev);
      var stripped := strip(lines[i]);
      if stripped != "" && Some(stripped) == prev {
        run := run + 1;
        if run >= LOOP_LINE_RUN {
          assert IsLongRun(strip, lines, i);
          return true;
        }
      } else if stripped != "" {
        run := 1;
        prev := Some(stripped);
      }
    }
    loops := false;
  }

  /** The first loop of `_collapse_looping`. */
  method CollapseLines(strip: Strip, lines: seq<string>) returns (out: seq<string>)
    ensures out == CollapsedLines(strip, lines, |lines|)
  {
    out := [];
    var run: nat := 1;
    var prev: Option<string> := None;
    for i := 0 to |lines|
      invariant Remembers(strip, lines, i, run, prev)
      invariant out == CollapsedLines(strip, lines, i)
    {
      RunGoesOn(strip, lines, i, run, prev);
      var stripped := strip(lines[i]);
      if stripped != "" && Some(stripped) == prev {
        run := run + 1;
        if run == LOOP_LINE_RUN { out := out + [MARKER]; }
        if run >= LOOP_LINE_RUN { continue; }
      } else if stripped != "" {
        run := 1;
        prev := Some(stripped);
      }
      out := out + [lines[i]];
    }
  }

  // ---------------------------------------------------------------- no run is left

  lemma {:induction false} LastLineOfPrefix(strip: Strip, lines: seq<string>, more: seq<string>, n: nat)
    requires n <= |lines|
    ensures LastLine(strip, lines + more, n) == LastLine(strip, lines, n)
  {
    if n > 0 { LastLineOfPrefix(strip, lines, more, n - 1); }
  }

  lemma {:induction false} RunLengthOfPrefix(strip: Strip, lines: seq<string>, more: seq<string>, k: nat)
    requires k < |lines|
    ensures RunLength(strip, lines + more, k) == RunLength(strip, lines, k)
  {
    LastLineOfPrefix(strip, lines, more, k);
    var before := LastLine(strip, lines, k);
    if before.Some? { RunLengthOfPrefix(strip, lines, more, before.value); }
  }

  /** One line more at the end of `out`. */
  lemma LineAdded(strip: Strip, out: seq<string>, line: string)
    ensures var more := out + [line];
            && (forall k :: 0 <= k < |out| ==> RunLength(strip, more, k) == RunLength(strip, out, k))
            && LastLine(strip, more, |more|) == (if IsBlankLine(strip, line) then LastLine(strip, out, |out|)
               else Some(|out|))
            && var last := LastLine(strip, out, |out|);
               RunLength(strip, more, |out|)
               == if last.Some? && strip(out[last.value]) == strip(line) then RunLength(strip, out, last.value) + 1
                   else 1
  {
    var more := out + [line];
    forall k | 0 <= k < |out| ensures RunLength(strip, more, k) == RunLength(strip, out, k) {
      RunLengthOfPrefix(strip, out, [line], k);
    }
    LastLineOfPrefix(strip, out, [line], |out|);
  }

  // ---------------------------------------------------------------- when a run is left

  /** How long the run before the one of line `k` is, or 0. */
  function RunBefore(strip: Strip, lines: seq<string>, k: nat): nat
    requires k < |lines|
  {
    var before := LastLine(strip, lines, k);
    if before.None? then 0
    else if strip(lines[before.value]) == strip(lines[k]) then RunBefore(strip, lines, before.value)
    else RunLength(strip, lines, before.value)
  }

  /** Line `k` is the 25th marker of a run, or the 24th after a run that itself becomes a marker. */
  predicate IsMarkerRun(strip: Strip, lines: seq<string>, k: nat)
    requires k < |lines|
  {
    strip(lines[k]) == strip(MARKER) && IsTooMany(RunLength(strip, lines, k), RunBefore(strip, lines, k))
  }

  predicate IsTooMany(run: nat, before: nat) {
    run >= LOOP_LINE_RUN || (run >= LOOP_LINE_RUN - 1 && before >= LOOP_LINE_RUN)
  }

  ghost predicate MarkersLoop(strip: Strip, lines: seq<string>, n: nat)
    requires n <= |lines|
  {
    exists k :: 0 <= k < n && IsMarkerRun(strip, lines, k)
  }

  /** The last run: its line, stripped, how long it is, and how long the run before it is. */
  datatype Ending = NoLine | Run(line: string, run: nat, before: nat)

  function Ends(strip: Strip, lines: seq<string>, n: nat): Ending
    requires n <= |lines|
  {
    var last := LastLine(strip, lines, n);
    if last.None? then NoLine
    else Run(strip(lines[last.value]), RunLength(strip, lines, last.value), RunBefore(strip, lines, last.value))
  }

  /** One line more, stripped. */
  function Advanced(e: Ending, stripped: string): Ending {
    if stripped == "" then e
    else if e.Run? && e.line == stripped then e.(run := e.run + 1)
    else Run(stripped, 1, if e.Run? then e.run else 0)
  }

  lemma EndsAdvance(strip: Strip, lines: seq<string>, i: nat)
    requires i < |lines|
    ensures Ends(strip, lines, i + 1) == Advanced(Ends(strip, lines, i), strip(lines[i]))
    ensures strip(MARKER) != "" ==>
              (IsMarkerRun(strip, lines, i) <==>
                 strip(lines[i]) == strip(MARKER) && IsMarkerEnd(Ends(strip, lines, i + 1), strip(MARKER)))
  {
  }

  lemma EndsGrow(strip: Strip, out: seq<string>, line: string)
    ensures SameRun(Ends(strip, out + [line], |out| + 1), Advanced(Ends(strip, out, |out|), strip(line)))
  {
    LineAdded(strip, out, line);
  }

  /** The same last run, whatever was before it. */
  predicate SameRun(e: Ending, f: Ending) {
    (e.NoLine? <==> f.NoLine?) && (e.Run? ==> e.line == f.line && e.run == f.run)
  }

  /** A line more leaves a run, when there was none, exactly if the run it ends is long. */
  lemma NoRunGrows(strip: Strip, out: seq<string>, line: string)
    requires !LinesLoop(strip, out)
    ensures LinesLoop(strip, out + [line]) <==>
              strip(line) != "" && Advanced(Ends(strip, out, |out|), strip(line)).run >= LOOP_LINE_RUN
  {
    var more := out + [line];
    forall k | 0 <= k < |out| ensures !IsLongRun(strip, more, k) {
      assert !IsLongRun(strip, out, k);
      RunLengthOfPrefix(strip, out, [line], k);
    }
    assert LinesLoop(strip, more) <==> IsLongRun(strip, more, |out|) by {
      if LinesLoop(strip, more) {
        var k :| 0 <= k < |more| && IsLongRun(strip, more, k);
      }
    }
    LastIsLong(strip, out, line);
  }

  lemma LastIsLong(strip: Strip, out: seq<string>, line: string)
    ensures IsLongRun(strip, out + [line], |out|) <==>
              strip(line) != "" && Advanced(Ends(strip, out, |out|), strip(line)).run >= LOOP_LINE_RUN
  {
    LineAdded(strip, out, line);
  }

  lemma RunStays(strip: Strip, out: seq<string>, more: seq<string>)
    requires LinesLoop(strip, out)
    ensures LinesLoop(strip, out + more)
  {
    var k :| 0 <= k < |out| && IsLongRun(strip, out, k);
    RunLengthOfPrefix(strip, out, more, k);
    assert IsLongRun(strip, out + more, k);
  }

  /**
   * The output ends as the input does, or with the marker once the run is long; and a run of markers there is longer
   * by one when the run before it became a marker.
   */
  predicate Related(e: Ending, f: Ending, marker: string) {
    (e.NoLine? <==> f.NoLine?)
    && (e.Run? ==>
          if e.line == marker then f.line == marker && f.run == e.run + (if e.before >= LOOP_LINE_RUN then 1 else 0)
          else if e.run < LOOP_LINE_RUN then f.line == e.line && f.run == e.run
          else f.line == marker && f.run == 1)
  }

  /** What the line at the end of an input that ends in `e` becomes: itself, the marker, or nothing. */
  function Kept(e: Ending, stripped: string, marker: string): seq<string> {
    var next := Advanced(e, stripped);
    if stripped == "" || next.run < LOOP_LINE_RUN then [stripped] else if next.run == LOOP_LINE_RUN then [marker]
        else []
  }

  predicate IsMarkerEnd(e: Ending, marker: string) { e.Run? && e.line == marker && IsTooMany(e.run, e.before) }

  /**
   * One line more: either the output's last run becomes too long and the input's is such a run of markers, or neither.
   */
  lemma RelatedGoesOn(e: Ending, f: Ending, stripped: string, marker: string)
    requires Related(e, f, marker) && marker != "" && !IsMarkerEnd(e, marker)
    ensures var next, kept := Advanced(e, stripped), Kept(e, stripped, marker);
            && (IsMarkerEnd(next, marker) <==> kept != [] && kept[0] != "" && Advanced(f, kept[0]).run >= LOOP_LINE_RUN)
            && (!IsMarkerEnd(next, marker) ==> Related(next, if kept == [] then f else Advanced(f, kept[0]), marker))
  {
  }

  lemma KeptIsLineOut(strip: Strip, lines: seq<string>, i: nat)
    requires i < |lines|
    ensures var out, kept := LineOut(strip, lines, i), Kept(Ends(strip, lines, i), strip(lines[i]), strip(MARKER));
            |out| == |kept| <= 1 && (out != [] ==> strip(out[0]) == kept[0])
  {
  }

  /** The output so far has a run exactly if the input so far has such a run of markers. */
  ghost predicate IsTame(strip: Strip, lines: seq<string>, n: nat, out: seq<string>)
    requires n <= |lines|
  {
    && (LinesLoop(strip, out) <==> MarkersLoop(strip, lines, n))
    && (!LinesLoop(strip, out) ==>
          && !IsMarkerEnd(Ends(strip, lines, n), strip(MARKER))
          && Related(Ends(strip, lines, n), Ends(strip, out, |out|), strip(MARKER)))
  }

  lemma {:induction false} StaysTame(strip: Strip, lines: seq<string>, n: nat)
    requires n <= |lines| && strip(MARKER) != ""
    ensures IsTame(strip, lines, n, CollapsedLines(strip, lines, n))
  {
    if n > 0 {
      StaysTame(strip, lines, n - 1);
      var before := CollapsedLines(strip, lines, n - 1);
      if !LinesLoop(strip, before) {
        TameStep(strip, lines, n - 1, before);
      } else {
        RunStays(strip, before, LineOut(strip, lines, n - 1));
        var k :| 0 <= k < n - 1 && IsMarkerRun(strip, lines, k);
        assert MarkersLoop(strip, lines, n);
      }
      assert CollapsedLines(strip, lines, n) == before + LineOut(strip, lines, n - 1);
    }
  }

  lemma TameStep(strip: Strip, lines: seq<string>, i: nat, before: seq<string>)
    requires i < |lines| && strip(MARKER) != "" && IsTame(strip, lines, i, before) && !LinesLoop(strip, before)
    ensures IsTame(strip, lines, i + 1, before + LineOut(strip, lines, i))
  {
    var piece, marker := LineOut(strip, lines, i), strip(MARKER);
    MarkerRunAtEnd(strip, lines, i);
    KeptIsLineOut(strip, lines, i);
    TameKept(strip, lines, i, before, piece, marker, Ends(strip, lines, i), Ends(strip, before, |before|));
  }

  lemma MarkerRunAtEnd(strip: Strip, lines: seq<string>, i: nat)
    requires i < |lines| && strip(MARKER) != "" && !MarkersLoop(strip, lines, i)
    requires !IsMarkerEnd(Ends(strip, lines, i), strip(MARKER))
    ensures Ends(strip, lines, i + 1) == Advanced(Ends(strip, lines, i), strip(lines[i]))
    ensures MarkersLoop(strip, lines, i + 1) <==> IsMarkerEnd(Ends(strip, lines, i + 1), strip(MARKER))
  {
    EndsAdvance(strip, lines, i);
    assert MarkersLoop(strip, lines, i + 1) <==> IsMarkerRun(strip, lines, i) by {
      if MarkersLoop(strip, lines, i + 1) {
        var k :| 0 <= k < i + 1 && IsMarkerRun(strip, lines, k);
      }
    }
  }

  lemma TameKept(
    strip: Strip, lines: seq<string>, i: nat, before: seq<string>, piece: seq<string>, marker: string, e: Ending,
    f: Ending)
    requires i < |lines| && marker == strip(MARKER) && marker != ""
    requires e == Ends(strip, lines, i) && f == Ends(strip, before, |before|)
    requires Ends(strip, lines, i + 1) == Advanced(e, strip(lines[i]))
    requires MarkersLoop(strip, lines, i + 1) <==> IsMarkerEnd(Advanced(e, strip(lines[i])), marker)
    requires Related(e, f, marker) && !IsMarkerEnd(e, marker) && !LinesLoop(strip, before)
    requires var kept := Kept(e, strip(lines[i]), marker);
             |piece| == |kept| <= 1 && (piece != [] ==> strip(piece[0]) == kept[0])
    ensures IsTame(strip, lines, i + 1, before + piece)
  {
    RelatedGoesOn(e, f, strip(lines[i]), marker);
    if piece == [] {
      assert before + piece == before;
    } else {
      assert piece == [piece[0]];
      EndsGrow(strip, before, piece[0]);
      NoRunGrows(strip, before, piece[0]);
    }
  }

  /**
   * Exactly when the line phase leaves a run of 25 equal lines: 25 markers stand in a row in the input already, or 24
   * of them behind a run of 25.
   */
  lemma CollapseLeavesRunWhen(strip: Strip, lines: seq<string>)
    requires strip(MARKER) != ""
    ensures LinesLoop(strip, CollapsedLines(strip, lines, |lines|)) <==> MarkersLoop(strip, lines, |lines|)
  {
    StaysTame(strip, lines, |lines|);
  }

  /** Output without such a run is left as it is. */
  lemma {:induction false} NothingToCollapse(strip: Strip, lines: seq<string>, n: nat)
    requires n <= |lines| && !LinesLoop(strip, lines)
    ensures CollapsedLines(strip, lines, n) == lines[..n]
  {
    if n > 0 {
      NothingToCollapse(strip, lines, n - 1);
      assert !IsLongRun(strip, lines, n - 1);
    }
  }

  function Copies(line: string, n: nat): (c: seq<string>)
    ensures |c| == n && forall k :: 0 <= k < n ==> c[k] == line
  {
    seq(n, _ => line)
  }

  lemma {:induction false} RunOfCopies(strip: Strip, lines: seq<string>, low: nat, k: nat)
    requires low <= k < |lines| && (forall i :: low <= i <= k ==> lines[i] == lines[low])
             && !IsBlankLine(strip, lines[low])
    ensures RunLength(strip, lines, k) >= k - low + 1
    ensures low == 0 || (!IsBlankLine(strip, lines[low - 1]) && strip(lines[low - 1]) != strip(lines[low])) ==>
              RunLength(strip, lines, k) == k - low + 1
  {
    if k > low { RunOfCopies(strip, lines, low, k - 1); }
  }

  /**
   * With the marker in the input its lines can make a run: 25 equal lines and then 24 markers collapse to 25 markers.
   */
  lemma MarkerLinesCanLoop(strip: Strip, line: string)
    requires strip(line) != "" && strip(MARKER) != "" && strip(line) != strip(MARKER)
    ensures var lines := Copies(line, 25) + Copies(MARKER, 24);
            LinesLoop(strip, CollapsedLines(strip, lines, |lines|))
  {
    var lines := Copies(line, 25) + Copies(MARKER, 24);
    FirstCopies(strip, line, lines, 24);
    RunOfCopies(strip, lines, 0, 24);
    assert CollapsedLines(strip, lines, 25) == Copies(line, 24) + [MARKER];
    MarkersKept(strip, line, lines, 24);
    var out := Copies(line, 24) + Copies(MARKER, 25);
    RunOfCopies(strip, out, 24, 48);
    assert IsLongRun(strip, out, 48);
  }

  lemma {:induction false} FirstCopies(strip: Strip, line: string, lines: seq<string>, n: nat)
    requires lines == Copies(line, 25) + Copies(MARKER, 24) && strip(line) != "" && n <= 24
    ensures CollapsedLines(strip, lines, n) == Copies(line, n)
  {
    if n > 0 {
      FirstCopies(strip, line, lines, n - 1);
      RunOfCopies(strip, lines, 0, n - 1);
    }
  }

  lemma OneCopyMore(line: string, n: nat)
    ensures Copies(line, 24) + Copies(MARKER, n) + [MARKER] == Copies(line, 24) + Copies(MARKER, n + 1)
  {
  }

  lemma {:induction false} MarkersKept(strip: Strip, line: string, lines: seq<string>, n: nat)
    requires lines == Copies(line, 25) + Copies(MARKER, 24) && n <= 24
    requires strip(line) != "" && strip(MARKER) != "" && strip(line) != strip(MARKER)
    requires CollapsedLines(strip, lines, 25) == Copies(line, 24) + [MARKER]
    ensures CollapsedLines(strip, lines, 25 + n) == Copies(line, 24) + Copies(MARKER, n + 1)
  {
    if n == 0 {
      assert Copies(MARKER, 1) == [MARKER];
    } else {
      MarkersKept(strip, line, lines, n - 1);
      RunOfCopies(strip, lines, 25, 24 + n);
      assert LineOut(strip, lines, 24 + n) == [MARKER];
      OneCopyMore(line, n);
    }
  }

  // ---------------------------------------------------------------- the trailing cycle

  /** Where the text ends but for trailing blanks. */
  function RStrip(isSpace: char -> bool, s: string): (r: string)
    ensures r <= s && (r == "" || !isSpace(r[|r| - 1]))
  {
    if s == "" || !isSpace(s[|s| - 1]) then s else RStrip(isSpace, s[..|s| - 1])
  }

  /** Whether `s` repeats with this period from `low` on. */
  predicate IsPeriodicFrom(s: string, low: nat, period: nat) {
    period > 0 && forall k :: low <= k && k + period < |s| ==> s[k] == s[k + period]
  }

  /** A period to look for: no more than a quarter of the window, and the whole window repeats with it. */
  predicate IsTailPeriod(s: string, period: nat) {
    |s| >= LOOP_TAIL_WINDOW && 1 <= period <= LOOP_TAIL_WINDOW / LOOP_MIN_REPEATS
        && IsPeriodicFrom(s, |s| - LOOP_TAIL_WINDOW, period)
  }

  predicate IsShift(tail: string, p: nat)
    requires p <= |tail|
  {
    tail[p..] == tail[..|tail| - p]
  }

  /** The first period from `p` on that a window of 512 characters repeats with, or 0. */
  function FirstShift(tail: string, p: nat): nat
    requires |tail| == LOOP_TAIL_WINDOW && 1 <= p <= LOOP_TAIL_WINDOW / LOOP_MIN_REPEATS + 1
    decreases LOOP_TAIL_WINDOW - p
  {
    if p > LOOP_TAIL_WINDOW / LOOP_MIN_REPEATS then 0 else if IsShift(tail, p) then p else FirstShift(tail, p + 1)
  }

  function Tail(s: string): string { if |s| > LOOP_TAIL_WINDOW then s[|s| - LOOP_TAIL_WINDOW..] else s }

  /** The period a text without trailing blanks ends with, or 0. */
  function TailPeriod(s: string): nat {
    if |s| < LOOP_TAIL_WINDOW then 0 else FirstShift(Tail(s), 1)
  }

  method TrailingCyclePeriod(isSpace: char -> bool, text: string) returns (period: nat)
    ensures period == TailPeriod(RStrip(isSpace, text))
  {
    var tail := Tail(RStrip(isSpace, text));
    if |tail| < LOOP_TAIL_WINDOW { return 0; }
    for p := 1 to LOOP_TAIL_WINDOW / LOOP_MIN_REPEATS + 1
      invariant FirstShift(tail, 1) == FirstShift(tail, p)
    {
      if IsShift(tail, p) { return p; }
    }
    period := 0;
  }

  lemma {:induction false} FirstShiftIsFirst(s: string, p: nat)
    requires |s| >= LOOP_TAIL_WINDOW && 1 <= p <= LOOP_TAIL_WINDOW / LOOP_MIN_REPEATS + 1
    ensures var first := FirstShift(Tail(s), p);
            && (first > 0 ==> first >= p && IsTailPeriod(s, first))
            && (forall q :: p <= q && (first == 0 || q < first) ==> !IsTailPeriod(s, q))
    decreases LOOP_TAIL_WINDOW - p
  {
    if p <= LOOP_TAIL_WINDOW / LOOP_MIN_REPEATS {
      ShiftedTail(s, Tail(s), p);
      if !IsShift(Tail(s), p) {
        FirstShiftIsFirst(s, p + 1);
        forall q | p <= q && (FirstShift(Tail(s), p) == 0 || q < FirstShift(Tail(s), p)) ensures !IsTailPeriod(s, q) {
          if q > p { assert p + 1 <= q; }
        }
      }
    }
  }

  /** The smallest period of up to 128 that the last 512 characters repeat with, and 0 only if there is none. */
  lemma TailPeriodIsSmallest(s: string, p: nat)
    ensures TailPeriod(s) > 0 ==> IsTailPeriod(s, TailPeriod(s))
    ensures IsTailPeriod(s, p) ==> 0 < TailPeriod(s) <= p
  {
    if |s| >= LOOP_TAIL_WINDOW { FirstShiftIsFirst(s, 1); }
  }

  /**
   * The tail without its first `p` characters is the tail without its last `p` exactly when it repeats with period `p`.
   */
  lemma ShiftedTail(s: string, tail: string, p: nat)
    requires |s| >= LOOP_TAIL_WINDOW && tail == s[|s| - LOOP_TAIL_WINDOW..]
             && 1 <= p <= LOOP_TAIL_WINDOW / LOOP_MIN_REPEATS
    ensures IsShift(tail, p) <==> IsTailPeriod(s, p)
  {
    var low := |s| - LOOP_TAIL_WINDOW;
    if tail[p..] == tail[..|tail| - p] {
      forall k | low <= k && k + p < |s| ensures s[k] == s[k + p] {
        assert tail[p..][k - low] == s[k + p] && tail[..|tail| - p][k - low] == s[k];
      }
    }
    if IsTailPeriod(s, p) {
      forall k | 0 <= k < |tail| - p ensures tail[p..][k] == tail[..|tail| - p][k] {
        assert s[low + k] == s[low + k + p];
      }
    }
  }

  /** `kept` continued with a period, to a length. */
  function Extended(kept: string, period: nat, length: nat): string
    requires 0 < period <= |kept| <= length
    decreases length
  {
    if length == |kept| then kept
    else var shorter := Extended(kept, period, length - 1); shorter + [Char(shorter, |shorter| - period)]
  }

  function Char(s: string, i: int): char { if 0 <= i < |s| then s[i] else ' ' }

  lemma {:induction false} ExtensionIs(s: string, keep: nat, period: nat, length: nat)
    requires 0 < period <= keep <= length <= |s| && IsPeriodicFrom(s, keep - period, period)
    ensures Extended(s[..keep], period, length) == s[..length]
  {
    if length > keep {
      ExtensionIs(s, keep, period, length - 1);
      assert s[length - 1 - period] == s[length - 1 - period + period];
    }
  }

  /** Where the last stretch of period `period` starts: it cannot be made longer. */
  ghost predicate IsMaximal(s: string, start: nat, period: nat) {
    IsPeriodicFrom(s, start, period) && (start > 0 ==> !IsPeriodicFrom(s, start - 1, period))
  }

  /** The first `keep` characters without trailing blanks, and the marker. */
  function Cut(isSpace: char -> bool, s: string, keep: nat): string
    requires keep <= |s|
  {
    RStrip(isSpace, s[..keep]) + "\n" + MARKER
  }

  /** The text cut down to two periods of its last, maximal periodic stretch, which extend to the whole text again. */
  ghost predicate IsCutDown(isSpace: char -> bool, s: string, period: nat, r: string)
    requires period > 0
  {
    exists start: nat :: IsCutAt(isSpace, s, start, period, r)
  }

  ghost predicate IsCutAt(isSpace: char -> bool, s: string, start: nat, period: nat, r: string)
    requires period > 0
  {
    && start + LOOP_TAIL_WINDOW <= |s| && IsMaximal(s, start, period)
    && start + 2 * period <= |s| - LOOP_TAIL_WINDOW / 2
    && Extended(s[..start + 2 * period], period, |s|) == s
    && r == Cut(isSpace, s, start + 2 * period)
  }

  /** The second half of `_collapse_looping`: a looping tail is cut down to two periods and the marker. */
  method CollapseTail(isSpace: char -> bool, collapsed: string) returns (r: string)
    ensures var s := RStrip(isSpace, collapsed);
            if TailPeriod(s) == 0 then r == collapsed else IsCutDown(isSpace, s, TailPeriod(s), r)
  {
    var period := TrailingCyclePeriod(isSpace, collapsed);
    r := collapsed;
    if period > 0 {
      var s := RStrip(isSpace, collapsed);
      TailPeriodIsSmallest(s, 0);
      var start := CycleStart(s, period);
      var keep := if |s| < start + 2 * period then |s| else start + 2 * period;
      r := Cut(isSpace, s, keep);
      assert IsCutAt(isSpace, s, start, period, r);
    }
  }

  /** The loop that walks back as long as the text repeats. */
  method CycleStart(s: string, p: nat) returns (start: nat)
    requires IsTailPeriod(s, p)
    ensures start <= |s| - LOOP_TAIL_WINDOW && IsMaximal(s, start, p) && start + 2 * p <= |s| - LOOP_TAIL_WINDOW / 2
    ensures Extended(s[..start + 2 * p], p, |s|) == s
  {
    var index := |s| - p - 1;
    while index >= 0 && s[index] == s[index + p]
      invariant -1 <= index <= |s| - p - 1
      invariant IsPeriodicFrom(s, index + 1, p)
    {
      index := index - 1;
    }
    start := index + 1;
    EarlyStart(s, index, p);
    ExtensionIs(s, start + 2 * p, p, |s|);
    assert s[..|s|] == s;
  }

  lemma EarlyStart(s: string, index: int, p: nat)
    requires -1 <= index <= |s| - p - 1 && IsTailPeriod(s, p)
    requires index >= 0 ==> s[index] != s[index + p]
    ensures index + 1 <= |s| - LOOP_TAIL_WINDOW && index + 1 + 2 * p <= |s| - LOOP_TAIL_WINDOW / 2
  {
  }

  // ---------------------------------------------------------------- both phases

  /** The characters `str.splitlines` breaks at; a carriage return and the newline behind it are one break. */
  predicate IsBreak(c: char) {
    c in ['\n', '\r', '\U{000B}', '\U{000C}', '\U{001C}', '\U{001D}', '\U{001E}', '\U{0085}', '\U{2028}', '\U{2029}']
  }

  /** The position of the first line break, or the length. */
  function BreakAt(s: string): (i: nat)
    ensures i <= |s| && (i < |s| ==> IsBreak(s[i])) && HasNoBreak(s[..i])
  {
    if s == "" || IsBreak(s[0]) then 0
    else
      var i := 1 + BreakAt(s[1..]);
      assert s[..i] == [s[0]] + s[1..][..i - 1];
      i
  }

  predicate HasNoBreak(s: string) { forall k :: 0 <= k < |s| ==> !IsBreak(s[k]) }

  /** How many characters the break at `i` has. */
  function BreakSize(s: string, i: nat): (n: nat)
    requires i < |s|
    ensures 1 <= n <= |s| - i
  {
    if s[i] == '\r' && i + 1 < |s| && s[i + 1] == '\n' then 2 else 1
  }

  function SplitLines(s: string): seq<string>
    decreases |s|
  {
    if s == "" then []
    else
      var i := BreakAt(s);
      if i == |s| then [s] else [s[..i]] + SplitLines(s[i + BreakSize(s, i)..])
  }

  /** The text after its lines are collapsed. */
  function LinesCollapsed(strip: Strip, text: string): string {
    var lines := SplitLines(text);
    Join(CollapsedLines(strip, lines, |lines|))
  }

  /** Whether `_looping_output` takes a text for looping. */
  method LoopingOutput(strip: Strip, isSpace: char -> bool, text: string) returns (loops: bool)
    ensures loops <==> IsLooping(strip, isSpace, text)
  {
    loops := LineLoop(strip, SplitLines(text));
    if loops { return; }
    var period := TrailingCyclePeriod(isSpace, text);
    loops := period > 0;
  }

  ghost predicate IsLooping(strip: Strip, isSpace: char -> bool, text: string) {
    LinesLoop(strip, SplitLines(text)) || TailPeriod(RStrip(isSpace, text)) > 0
  }

  /**
   * `_collapse_looping`: the lines first, and then the tail of what they make. Other text keeps all but its last break.
   */
  method CollapseLooping(strip: Strip, isSpace: char -> bool, text: string) returns (r: string)
    ensures var collapsed := LinesCollapsed(strip, text);
            var s := RStrip(isSpace, collapsed);
            if TailPeriod(s) == 0 then r == collapsed else IsCutDown(isSpace, s, TailPeriod(s), r)
    ensures HasPlainBreaks(text) && isSpace('\n') && !IsLooping(strip, isSpace, text) ==> r == WithoutLastBreak(text)
  {
    var lines := SplitLines(text);
    var out := CollapseLines(strip, lines);
    var collapsed := Join(out);
    r := CollapseTail(isSpace, collapsed);
    if HasPlainBreaks(text) && isSpace('\n') && !IsLooping(strip, isSpace, text) {
      NothingToCollapse(strip, lines, |lines|);
      assert lines[..|lines|] == lines;
      JoinSplit(text);
      LastBreakIsSpace(isSpace, text);
    }
  }

  predicate HasPlainBreaks(s: string) { forall i :: 0 <= i < |s| && IsBreak(s[i]) ==> s[i] == '\n' }

  /** With newlines for breaks, lines joined again are the text, but for a newline at its end. */
  lemma {:induction false} JoinSplit(s: string)
    requires HasPlainBreaks(s)
    ensures Join(SplitLines(s)) == WithoutLastBreak(s) && (SplitLines(s) == [] <==> s == "")
    decreases |s|
  {
    var i := BreakAt(s);
    if s == "" {
      assert SplitLines(s) == [];
    } else if i == |s| {
      NoLastBreak(s);
      assert SplitLines(s) == [s];
    } else {
      var line, rest := s[..i], s[i + 1..];
      FirstLine(s, i, line, rest);
      JoinSplit(rest);
      LineInFront(line, rest, SplitLines(rest));
    }
  }

  lemma NoLastBreak(s: string)
    requires s != "" && BreakAt(s) == |s|
    ensures WithoutLastBreak(s) == s
  {
    assert s[..|s|] == s && !IsBreak(s[..|s|][|s| - 1]);
  }

  lemma FirstLine(s: string, i: nat, line: string, rest: string)
    requires i == BreakAt(s) < |s| && HasPlainBreaks(s) && line == s[..i] && rest == s[i + 1..]
    ensures SplitLines(s) == [line] + SplitLines(rest) && s == line + "\n" + rest && HasPlainBreaks(rest)
  {
    PlainRest(s, i, line, rest);
    SplitOnce(s, i, line, rest);
  }

  lemma SplitOnce(s: string, i: nat, line: string, rest: string)
    requires i == BreakAt(s) < |s| && s[i] == '\n' && line == s[..i] && rest == s[i + 1..]
    ensures SplitLines(s) == [line] + SplitLines(rest)
  {
    assert BreakSize(s, i) == 1;
  }

  lemma PlainRest(s: string, i: nat, line: string, rest: string)
    requires i < |s| && IsBreak(s[i]) && HasPlainBreaks(s) && line == s[..i] && rest == s[i + 1..]
    ensures s[i] == '\n' && s == line + "\n" + rest && HasPlainBreaks(rest)
  {
    forall k | 0 <= k < |rest| && IsBreak(rest[k]) ensures rest[k] == '\n' {
      assert rest[k] == s[i + 1 + k];
    }
  }

  lemma LineInFront(line: string, rest: string, lines: seq<string>)
    requires Join(lines) == WithoutLastBreak(rest) && (lines == [] <==> rest == "")
    ensures Join([line] + lines) == WithoutLastBreak(line + "\n" + rest)
  {
    var s := line + "\n" + rest;
    if rest == "" {
      assert s[..|s| - 1] == line;
    } else {
      JoinFront(line, lines);
      assert s[|s| - 1] == rest[|rest| - 1];
      assert s[..|s| - 1] == line + "\n" + rest[..|rest| - 1];
    }
  }

  lemma {:induction false} JoinFront(line: string, lines: seq<string>)
    requires lines != []
    ensures Join([line] + lines) == line + "\n" + Join(lines)
  {
    var all, init := [line] + lines, lines[..|lines| - 1];
    assert all[..|all| - 1] == [line] + init;
    if init == [] {
      assert all[..1] == [line];
    } else {
      JoinFront(line, init);
      assert line + "\n" + Join(init) + "\n" + lines[|lines| - 1] == line + "\n"
             + (Join(init) + "\n" + lines[|lines| - 1]);
    }
  }

  lemma LastBreakIsSpace(isSpace: char -> bool, s: string)
    requires isSpace('\n')
    ensures RStrip(isSpace, WithoutLastBreak(s)) == RStrip(isSpace, s)
  {
  }
}
