/** What is taken for looping output and what it is cut down to, in counts of lines and characters. */
module LoopMeaning {
  import opened Results
  import opened LoopCollapse

  // ---------------------------------------------------------------- runs of lines

  predicate IsSame(strip: Strip, lines: seq<string>, j: nat, k: nat)
    requires j <= k < |lines|
  {
    forall i :: j <= i <= k ==> strip(lines[i]) == "" || strip(lines[i]) == strip(lines[k])
  }

  /** The lines of the run that ends with line `k`: like it, with only blank lines between. */
  function RunTo(strip: Strip, lines: seq<string>, k: nat): set<nat>
    requires k < |lines|
  {
    set j: nat | j <= k && strip(lines[j]) != "" && IsSame(strip, lines, j, k)
  }

  lemma {:induction false} LastIs(strip: Strip, lines: seq<string>, n: nat)
    requires n <= |lines|
    ensures var last := LastLine(strip, lines, n);
            if last.None? then forall i :: 0 <= i < n ==> strip(lines[i]) == ""
            else last.value < n && strip(lines[last.value]) != ""
                 && forall i :: last.value < i < n ==> strip(lines[i]) == ""
  {
    if n > 0 { LastIs(strip, lines, n - 1); }
  }

  lemma {:induction false} RunIs(strip: Strip, lines: seq<string>, k: nat)
    requires k < |lines| && strip(lines[k]) != ""
    ensures RunLength(strip, lines, k) == |RunTo(strip, lines, k)|
    decreases k
  {
    LastIs(strip, lines, k);
    var before := LastLine(strip, lines, k);
    if before.Some? && strip(lines[before.value]) == strip(lines[k]) {
      RunIs(strip, lines, before.value);
      OneMoreInRun(strip, lines, before.value, k);
    } else {
      forall j | j in RunTo(strip, lines, k) ensures j == k {
        match before {
          case None =>
          case Some(b) => assert j < k ==> j <= b;
        }
      }
      assert RunTo(strip, lines, k) == {k};
    }
  }

  lemma OneMoreInRun(strip: Strip, lines: seq<string>, i: nat, k: nat)
    requires i < k < |lines| && strip(lines[i]) == strip(lines[k]) != ""
    requires forall j :: i < j < k ==> strip(lines[j]) == ""
    ensures |RunTo(strip, lines, k)| == |RunTo(strip, lines, i)| + 1
  {
    forall j: nat | j <= k && strip(lines[j]) != ""
      ensures j in RunTo(strip, lines, k) <==> j in RunTo(strip, lines, i) + {k}
    {
      if j <= i {
        if IsSame(strip, lines, j, i) {
          assert IsSame(strip, lines, j, k);
        }
        if IsSame(strip, lines, j, k) {
          forall m | j <= m <= i ensures strip(lines[m]) == "" || strip(lines[m]) == strip(lines[i]) {
            assert j <= m <= k;
          }
          assert IsSame(strip, lines, j, i);
        }
      } else {
        assert j == k && IsSame(strip, lines, k, k);
      }
    }
    assert RunTo(strip, lines, k) == RunTo(strip, lines, i) + {k};
  }

  /** The lines that leave something: blank ones, and those up to the 25th of a run. */
  predicate IsShown(strip: Strip, lines: seq<string>, k: nat)
    requires k < |lines|
  {
    strip(lines[k]) == "" || |RunTo(strip, lines, k)| <= 25
  }

  /** What is shown for a line: the 25th of a run is the marker. */
  function Shown(strip: Strip, lines: seq<string>, k: nat): string
    requires k < |lines|
  {
    if strip(lines[k]) != "" && |RunTo(strip, lines, k)| == 25 then "... (output repeats)" else lines[k]
  }

  /** The positions of all lines that are shown, in order. */
  predicate AreShown(strip: Strip, lines: seq<string>, at: seq<nat>, n: nat)
    requires n <= |lines|
  {
    && (forall i :: 0 <= i < |at| ==> at[i] < n && IsShown(strip, lines, at[i]))
    && (forall i, j :: 0 <= i < j < |at| ==> at[i] < at[j])
    && (forall k: nat :: k < n && IsShown(strip, lines, k) ==> k in at)
  }

  lemma LineOutIs(strip: Strip, lines: seq<string>, k: nat)
    requires k < |lines|
    ensures LineOut(strip, lines, k) == if IsShown(strip, lines, k) then [Shown(strip, lines, k)] else []
  {
    if strip(lines[k]) != "" { RunIs(strip, lines, k); }
  }

  /** These are shown as said for the lines at these positions. */
  predicate ShowsAt(strip: Strip, lines: seq<string>, out: seq<string>, at: seq<nat>) {
    |out| == |at| && forall i :: 0 <= i < |at| ==> at[i] < |lines| && out[i] == Shown(strip, lines, at[i])
  }

  /** The line phase shows exactly these lines, as said. */
  lemma {:induction false} CollapsedAre(strip: Strip, lines: seq<string>, n: nat) returns (at: seq<nat>)
    requires n <= |lines|
    ensures AreShown(strip, lines, at, n) && ShowsAt(strip, lines, CollapsedLines(strip, lines, n), at)
  {
    if n == 0 {
      at := [];
    } else {
      var before := CollapsedAre(strip, lines, n - 1);
      OneLineMore(strip, lines, n - 1);
      at := Grown(strip, lines, CollapsedLines(strip, lines, n - 1), before, n - 1, CollapsedLines(strip, lines, n));
    }
  }

  lemma OneLineMore(strip: Strip, lines: seq<string>, k: nat)
    requires k < |lines|
    ensures CollapsedLines(strip, lines, k + 1) == CollapsedLines(strip, lines, k)
              + if IsShown(strip, lines, k) then [Shown(strip, lines, k)] else []
  {
    LineOutIs(strip, lines, k);
  }

  lemma Grown(strip: Strip, lines: seq<string>, out: seq<string>, at: seq<nat>, k: nat, next: seq<string>)
    returns (r: seq<nat>)
    requires k < |lines| && AreShown(strip, lines, at, k) && ShowsAt(strip, lines, out, at)
    requires next == out + if IsShown(strip, lines, k) then [Shown(strip, lines, k)] else []
    ensures AreShown(strip, lines, r, k + 1) && ShowsAt(strip, lines, next, r)
  {
    OneMoreShown(strip, lines, at, k);
    OneMoreAt(strip, lines, out, at, k);
    if IsShown(strip, lines, k) { r := at + [k]; } else { r := at; }
  }

  lemma OneMoreShown(strip: Strip, lines: seq<string>, at: seq<nat>, k: nat)
    requires k < |lines| && AreShown(strip, lines, at, k)
    ensures AreShown(strip, lines, if IsShown(strip, lines, k) then at + [k] else at, k + 1)
  {
    if IsShown(strip, lines, k) {
      assert (at + [k])[|at|] == k;
      forall m: nat | m < k && IsShown(strip, lines, m) ensures m in at + [k] { assert m in at; }
    }
  }

  lemma OneMoreAt(strip: Strip, lines: seq<string>, out: seq<string>, at: seq<nat>, k: nat)
    requires k < |lines| && ShowsAt(strip, lines, out, at)
    ensures ShowsAt(strip, lines, out + [Shown(strip, lines, k)], at + [k]) && out + [] == out
  {
  }

  /** Output loops by lines when some run has 25. */
  lemma LinesLoopIs(strip: Strip, lines: seq<string>)
    ensures LinesLoop(strip, lines) <==>
            exists k: nat :: k < |lines| && strip(lines[k]) != "" && |RunTo(strip, lines, k)| >= 25
  {
    forall k: nat | k < |lines| && strip(lines[k]) != ""
      ensures IsLongRun(strip, lines, k) <==> |RunTo(strip, lines, k)| >= 25
    {
      RunIs(strip, lines, k);
    }
  }

  // ---------------------------------------------------------------- the trailing cycle

  /** The last 512 characters repeat with this period, at least four times. */
  predicate EndsWithPeriod(s: string, p: nat) {
    |s| >= 512 && p >= 1 && 4 * p <= 512 && forall k :: |s| - 512 <= k < |s| - p ==> s[k] == s[k + p]
  }

  /** The period found is the smallest of them, and 0 if there is none. */
  lemma PeriodIs(s: string, p: nat)
    ensures TailPeriod(s) == p > 0 <==> EndsWithPeriod(s, p) && forall q :: 1 <= q < p ==> !EndsWithPeriod(s, q)
    ensures TailPeriod(s) == 0 <==> forall q :: !EndsWithPeriod(s, q)
  {
    forall q: nat ensures IsTailPeriod(s, q) <==> EndsWithPeriod(s, q) {
      SamePeriod(s, q);
    }
    forall q: nat ensures IsTailPeriod(s, q) ==> 0 < TailPeriod(s) <= q {
      TailPeriodIsSmallest(s, q);
    }
    TailPeriodIsSmallest(s, p);
  }

  lemma SamePeriod(s: string, p: nat)
    ensures IsTailPeriod(s, p) <==> EndsWithPeriod(s, p)
  {
    assert LOOP_TAIL_WINDOW / LOOP_MIN_REPEATS == 128;
    if EndsWithPeriod(s, p) {
      forall k | |s| - 512 <= k && k + p < |s| ensures s[k] == s[k + p] {
        assert |s| - 512 <= k < |s| - p;
      }
    }
  }

  /** `head` is `s` without the blanks at its end. */
  predicate IsStripped(isSpace: char -> bool, s: string, head: string) {
    && |head| <= |s| && head == s[..|head|] && (head == "" || !isSpace(head[|head| - 1]))
    && forall k :: |head| <= k < |s| ==> isSpace(s[k])
  }

  lemma {:induction false} StrippedIs(isSpace: char -> bool, s: string)
    ensures IsStripped(isSpace, s, RStrip(isSpace, s))
    decreases |s|
  {
    if s != "" && isSpace(s[|s| - 1]) {
      var n := |s| - 1;
      StrippedIs(isSpace, s[..n]);
      var head := RStrip(isSpace, s[..n]);
      assert head == s[..|head|];
      forall k | |head| <= k < |s| ensures isSpace(s[k]) {
        if k < n { assert s[k] == s[..n][k]; }
      }
    }
  }

  /** The text repeats with this period from `start` to its end, and from no place before. */
  predicate RepeatsFrom(s: string, start: nat, p: nat) {
    && (forall k :: start <= k < |s| - p ==> s[k] == s[k + p])
    && (start > 0 ==> |s| >= start + p && s[start - 1] != s[start - 1 + p])
  }

  /** Two periods of the repeating end are kept, and the marker stands for the rest. */
  lemma CutIs(isSpace: char -> bool, s: string, start: nat, p: nat, r: string) returns (head: string)
    requires 0 < p <= 128 && IsCutAt(isSpace, s, start, p, r)
    ensures start + 512 <= |s| && RepeatsFrom(s, start, p)
    ensures IsStripped(isSpace, s[..start + 2 * p], head) && r == head + "\n" + "... (output repeats)"
  {
    head := RStrip(isSpace, s[..start + 2 * p]);
    StrippedIs(isSpace, s[..start + 2 * p]);
    forall k | start <= k < |s| - p ensures s[k] == s[k + p] {
      assert k + p < |s|;
    }
    if start > 0 {
      var k :| start - 1 <= k && k + p < |s| && s[k] != s[k + p];
      assert k == start - 1;
    }
  }

  // ---------------------------------------------------------------- lines

  /** The characters that break lines. */
  predicate Breaks(c: char) {
    var n := c as int;
    10 <= n <= 13 || 28 <= n <= 30 || n == 133 || n == 8232 || n == 8233
  }

  /** One line break: a breaking character, or a carriage return and the newline behind it. */
  predicate IsLineBreak(b: string) { b == "\r\n" || (|b| == 1 && Breaks(b[0])) }

  /** The lines with their breaks. */
  function Woven(lines: seq<string>, breaks: seq<string>): string
    requires |lines| == |breaks|
  {
    if lines == [] then "" else lines[0] + breaks[0] + Woven(lines[1..], breaks[1..])
  }

  /** Lines without breaks, each with a break but perhaps the last; and no break is half of another. */
  predicate AreLines(lines: seq<string>, breaks: seq<string>) {
    && |lines| == |breaks|
    && (forall i, k :: 0 <= i < |lines| && 0 <= k < |lines[i]| ==> !Breaks(lines[i][k]))
    && (forall i :: 0 <= i < |lines| ==>
          IsLineBreak(breaks[i]) || (breaks[i] == "" && i == |lines| - 1 && lines[i] != ""))
    && (forall i :: 0 <= i < |lines| - 1 && breaks[i] == "\r" && lines[i + 1] == "" ==> breaks[i + 1] != "\n")
  }

  lemma BreaksAre(c: char)
    ensures IsBreak(c) <==> Breaks(c)
  {
  }

  /** `str.splitlines`: these are the lines, with these breaks. */
  lemma {:induction false} SplitIs(text: string) returns (breaks: seq<string>)
    ensures AreLines(SplitLines(text), breaks) && Woven(SplitLines(text), breaks) == text
    decreases |text|
  {
    breaks := [];
    if text != "" {
      var i := BreakAt(text);
      forall c ensures IsBreak(c) <==> Breaks(c) { BreaksAre(c); }
      if i == |text| {
        assert text[..i] == text;
        breaks := [""];
        assert Woven([text], [""]) == text;
      } else {
        var n := BreakSize(text, i);
        var line, b, rest := text[..i], text[i..i + n], text[i + n..];
        var more := SplitIs(rest);
        breaks := [b] + more;
        assert text == line + b + rest;
        FirstBreak(text, i, n, SplitLines(rest), more);
        LineInFront(line, b, SplitLines(rest), more);
      }
    }
  }

  lemma LineInFront(line: string, b: string, lines: seq<string>, breaks: seq<string>)
    requires AreLines(lines, breaks) && IsLineBreak(b) && forall k :: 0 <= k < |line| ==> !Breaks(line[k])
    requires b == "\r" && lines != [] && lines[0] == "" ==> breaks[0] != "\n"
    ensures AreLines([line] + lines, [b] + breaks)
            && Woven([line] + lines, [b] + breaks) == line + b + Woven(lines, breaks)
  {
    assert ([line] + lines)[1..] == lines && ([b] + breaks)[1..] == breaks;
  }

  lemma FirstBreak(text: string, i: nat, n: nat, lines: seq<string>, breaks: seq<string>)
    requires i < |text| && n == BreakSize(text, i) && AreLines(lines, breaks) && IsBreak(text[i])
    requires Woven(lines, breaks) == text[i + n..]
    ensures IsLineBreak(text[i..i + n])
    ensures text[i..i + n] == "\r" && lines != [] && lines[0] == "" ==> breaks[0] != "\n"
  {
    BreaksAre(text[i]);
    if n == 2 { assert text[i..i + n] == "\r\n"; }
    else {
      assert text[i..i + n] == [text[i]];
      assert lines != [] && lines[0] == "" && breaks[0] == "\n" ==> Woven(lines, breaks)[0] == '\n';
      assert text[i + n..] != "" ==> text[i + 1] == text[i + n..][0];
    }
  }
}
