/**
 * Reads of files and the text a terminal shows of them: `_run_read`, `_emit`, `_finish` and `SearchResult.raw` of
 * `src/repo_context_service/command_search.py`.
 */
module FileReads {
  import opened Results
  import opened TextLines
  import opened Pipeline
  import Radix

  const MAX_TEXT_CHARS := 8 * 1024 * 1024

  /** An operand of `cat`: a file, one whose text or absence is not known, or one it prints a message for. */
  datatype Operand = Text(text: string) | Unknown | Message(line: string)

  /** A line, and whether it is an error message. */
  type Written = (string, bool)

  datatype SearchResult = SearchResult(output: string, empty: bool, openEnd: bool, returncode: int) {
    /** The output exactly as the terminal shows it. */
    function Raw(): string { if empty then "" else output + if openEnd then "" else "\n" }
  }

  // ---------------------------------------------------------------- finishing a run

  function Marked(lines: seq<string>, error: bool): (r: seq<Written>)
    ensures |r| == |lines|
  {
    seq(|lines|, i requires 0 <= i < |lines| => (lines[i], error))
  }

  /** The lines that are kept: all of them, or those that are no messages. */
  function Kept(lines: seq<Written>, errorsDropped: bool): seq<string> {
    if lines == [] then []
    else
      var (line, error) := lines[|lines| - 1];
      Kept(lines[..|lines| - 1], errorsDropped) + if error && errorsDropped then [] else [line]
  }

  function Messages(lines: seq<Written>): seq<string> {
    if lines == [] then []
    else
      var (line, error) := lines[|lines| - 1];
      Messages(lines[..|lines| - 1]) + if error then [line] else []
  }

  /** The result of a run whose messages are not piped. */
  function Finish(
    w: World, lines: seq<Written>, runOpen: bool, status: int, unordered: bool,
    pipeline: seq<Stage>, errorsDropped: bool, outputDropped: bool): Option<SearchResult>
  {
    var piped := Kept(lines, true);
    var shown := if errorsDropped then [] else Messages(lines);
    var openEnd := runOpen && piped != [] && !lines[|lines| - 1].1;
    if pipeline != [] then
      var r := Through(w, Out(piped, openEnd, 0), pipeline, unordered);
      if r.None? then None else Some(ResultOf(shown + if outputDropped then []
          else r.value.lines, r.value.openEnd, r.value.status))
    else Some(ResultOf(if outputDropped then shown else Kept(lines, errorsDropped), openEnd, status))
  }

  function ResultOf(output: seq<string>, openEnd: bool, status: int): SearchResult {
    SearchResult(Join(output), output == [], openEnd && output != [], status)
  }

  lemma RawOfResult(output: seq<string>, openEnd: bool, status: int)
    ensures ResultOf(output, openEnd, status).Raw() == TextOf(output, openEnd && output != [])
  {
  }

  lemma {:induction false} KeptConcat(a: seq<Written>, b: seq<Written>, errorsDropped: bool)
    ensures Kept(a + b, errorsDropped) == Kept(a, errorsDropped) + Kept(b, errorsDropped)
  {
    if b == [] {
      assert a + b == a;
    } else {
      assert (a + b)[..|a + b| - 1] == a + b[..|b| - 1];
      KeptConcat(a, b[..|b| - 1], errorsDropped);
    }
  }

  lemma {:induction false} KeptMarked(lines: seq<string>, errorsDropped: bool)
    ensures Kept(Marked(lines, false), errorsDropped) == lines
  {
    if lines != [] {
      var shorter := lines[..|lines| - 1];
      KeptMarked(shorter, errorsDropped);
      assert Marked(lines, false)[..|lines| - 1] == Marked(shorter, false);
      assert lines == shorter + [lines[|lines| - 1]];
    }
  }

  lemma KeptMessage(line: string, errorsDropped: bool)
    ensures Kept([(line, true)], errorsDropped) == if errorsDropped then [] else [line]
  {
    assert [(line, true)][..0] == [];
  }

  lemma {:induction false} NoMessages(lines: seq<string>)
    ensures Messages(Marked(lines, false)) == []
  {
    if lines != [] {
      NoMessages(lines[..|lines| - 1]);
      assert Marked(lines, false)[..|lines| - 1] == Marked(lines[..|lines| - 1], false);
    }
  }

  // ---------------------------------------------------------------- a read against its pipe

  /** What a read of files with these texts writes. */
  function Emitted(read: Read, text: string): (seq<Written>, bool) {
    var (lines, openEnd) := FileLines(text);
    var (selected, end) := Select(read, lines, openEnd);
    (Marked(selected, false), end)
  }

  /**
   * `head -n 3 f` and `cat f | head -n 3`, `sed -n 2,5p f` and `cat f | sed -n 2,5p`, ...: the same result, to the last
   * byte.
   */
  lemma ReadEqualsPipe(w: World, read: Read, text: string, errorsDropped: bool, outputDropped: bool)
    requires !read.ReadLines? && !(read.ReadSed? && read.start == Line(0))
    ensures var (direct, directEnd), (all, allEnd) := Emitted(read, text), Emitted(ReadAll, text);
            Finish(w, direct, directEnd, 0, false, [], errorsDropped, outputDropped)
            == Finish(w, all, allEnd, 0, false, [StageOf(read)], errorsDropped, outputDropped)
  {
    var (lines, openEnd) := FileLines(text);
    var (selected, end) := Select(read, lines, openEnd);
    ReadIsStage(w, read, lines, openEnd);
    SelectedWhenOpen(read, lines, openEnd);
    TextOfFileLines(text);
    FinishPlain(w, selected, end, errorsDropped, outputDropped);
    OneStage(w, StageOf(read), lines, openEnd, Out(selected, end, 0));
    FinishPiped(w, lines, openEnd, [StageOf(read)], Out(selected, end, 0), errorsDropped, outputDropped);
  }

  lemma FinishPlain(w: World, lines: seq<string>, openEnd: bool, errorsDropped: bool, outputDropped: bool)
    requires openEnd ==> lines != []
    ensures Finish(w, Marked(lines, false), openEnd, 0, false, [], errorsDropped, outputDropped)
         == Some(ResultOf(if outputDropped then [] else lines, openEnd, 0))
  {
    KeptMarked(lines, true);
    KeptMarked(lines, errorsDropped);
    NoMessages(lines);
  }

  lemma FinishPiped(
    w: World, lines: seq<string>, openEnd: bool, pipeline: seq<Stage>, out: Out, errorsDropped: bool,
    outputDropped: bool)
    requires openEnd ==> lines != []
    requires pipeline != [] && Through(w, Out(lines, openEnd, 0), pipeline, false) == Some(out)
    ensures Finish(w, Marked(lines, false), openEnd, 0, false, pipeline, errorsDropped, outputDropped)
         == Some(ResultOf(if outputDropped then [] else out.lines, out.openEnd, out.status))
  {
    KeptMarked(lines, true);
    NoMessages(lines);
    assert [] + out.lines == out.lines;
  }

  lemma SelectedWhenOpen(read: Read, lines: seq<string>, openEnd: bool)
    requires openEnd ==> lines != []
    ensures Select(read, lines, openEnd).1 ==> Select(read, lines, openEnd).0 != []
  {
  }

  lemma OneStage(w: World, stage: Stage, lines: seq<string>, openEnd: bool, out: Out)
    requires StageOut(w, stage, lines, openEnd) == Some(out)
    ensures Through(w, Out(lines, openEnd, 0), [stage], false) == Some(out)
  {
    assert [stage][1..] == [];
  }

  /** `cat -n f` and `cat f | cat -n`: numbering in the read or in the pipe gives the same result. */
  lemma NumberedReadEqualsPipe(w: World, text: string, errorsDropped: bool, outputDropped: bool)
    ensures var (lines, openEnd) := FileLines(text);
            Finish(w, Marked(Show(true, 0, lines), false), openEnd, 0, false, [], errorsDropped, outputDropped)
            == Finish(w, Marked(lines, false), openEnd, 0, false, [Number], errorsDropped, outputDropped)
  {
    var (lines, openEnd) := FileLines(text);
    var out := Out(Show(true, 0, lines), openEnd, 0);
    TextOfFileLines(text);
    assert StageOut(w, Number, lines, openEnd) == Some(out);
    FinishPlain(w, out.lines, openEnd, errorsDropped, outputDropped);
    OneStage(w, Number, lines, openEnd, out);
    FinishPiped(w, lines, openEnd, [Number], out, errorsDropped, outputDropped);
  }

  /** `wc` in a pipe after `cat` counts the bytes, words and line breaks of the files themselves. */
  lemma PipedWcCountsTheFile(w: World, counts: seq<Count>, text: string)
    ensures var (lines, openEnd) := FileLines(text);
            StageOut(w, Wc(counts), lines, openEnd) == Some(Out([WcRow(w, text, counts, PipeWidth(counts))], false, 0))
  {
    TextOfFileLines(text);
  }

  // ---------------------------------------------------------------- wc of files

  /** A row of `wc` for a file, `file` being its name and its text. */
  function NamedRow(w: World, counts: seq<Count>, file: (string, string), width: nat): string {
    WcRow(w, file.1, counts, width) + " " + file.0
  }

  function WcRows(w: World, counts: seq<Count>, files: seq<(string, string)>, width: nat): seq<string> {
    if files == [] then []
    else WcRows(w, counts, files[..|files| - 1], width) + [NamedRow(w, counts, files[|files| - 1], width)]
  }

  function TextOfAll(files: seq<(string, string)>): string {
    if files == [] then "" else TextOfAll(files[..|files| - 1]) + files[|files| - 1].1
  }

  function WcWidth(w: World, counts: seq<Count>, files: seq<(string, string)>, operands: nat): nat {
    if |counts| == 1 && operands == 1 then 1 else |Radix.Decimal(Bytes(w, TextOfAll(files)))|
  }

  function WcTotal(w: World, counts: seq<Count>, files: seq<(string, string)>, width: nat, operands: nat): seq<string> {
    if operands > 1 then [WcRow(w, TextOfAll(files), counts, width) + " total"] else []
  }

  method TotalBytes(w: World, files: seq<(string, string)>) returns (total: nat)
    ensures total == Bytes(w, TextOfAll(files)) == SumOf(w, files, ByteCount)
  {
    total := 0;
    for i := 0 to |files|
      invariant total == Bytes(w, TextOfAll(files[..i]))
    {
      assert files[..i + 1][..i] == files[..i];
      BytesConcat(w, TextOfAll(files[..i]), files[i].1);
      total := total + Bytes(w, files[i].1);
    }
    assert files[..|files|] == files;
    TotalIsSum(w, files, ByteCount);
  }

  lemma MarkedSnoc(before: seq<Written>, lines: seq<string>, line: string)
    ensures before + Marked(lines, false) + [(line, false)] == before + Marked(lines + [line], false)
  {
  }

  /** For one count, `wc f` is the row of `cat f | wc` and the name. */
  lemma WcOfFileIsPiped(w: World, count: Count, file: (string, string))
    ensures var (lines, openEnd) := FileLines(file.1);
            var width := WcWidth(w, [count], [file], 1);
            var piped := StageOut(w, Wc([count]), lines, openEnd);
            && WcRows(w, [count], [file], width) == [piped.value.lines[0] + " " + file.0]
            && WcTotal(w, [count], [file], width, 1) == []
  {
    PipedWcCountsTheFile(w, [count], file.1);
    assert [file][..0] == [];
  }

  /** The sum of a count over the files. */
  function SumOf(w: World, files: seq<(string, string)>, count: Count): nat {
    if files == [] then 0 else SumOf(w, files[..|files| - 1], count) + CountOf(w, files[|files| - 1].1, count)
  }

  /** How many files start in the middle of a word of the texts before. */
  function Glued(w: World, files: seq<(string, string)>): nat {
    if files == [] then 0
    else
      Glued(w, files[..|files| - 1])
      + if Glues(w, TextOfAll(files[..|files| - 1]), files[|files| - 1].1) then 1 else 0
  }

  /**
   * The row `total` counts the texts joined. For line breaks and bytes that is the sum of the rows above it; for words
   * it is exactly if no file starts in the middle of a word of those before.
   */
  lemma {:induction false} TotalIsSum(w: World, files: seq<(string, string)>, count: Count)
    ensures CountOf(w, TextOfAll(files), count)
            + (if count == WordCount then Glued(w, files) else 0) == SumOf(w, files, count)
    ensures CountOf(w, TextOfAll(files), count) == SumOf(w, files, count) <==>
            count != WordCount || Glued(w, files) == 0
  {
    if files != [] {
      var before, last := files[..|files| - 1], files[|files| - 1].1;
      TotalIsSum(w, before, count);
      BytesConcat(w, TextOfAll(before), last);
      WordsConcat(w, TextOfAll(before), last);
    }
  }

  // ---------------------------------------------------------------- cat

  /** The texts read since the last message. */
  function Stream(operands: seq<Operand>): string {
    if operands == [] then ""
    else
      var last := operands[|operands| - 1];
      if last.Text? then Stream(operands[..|operands| - 1]) + last.text else ""
  }

  function Texts(operands: seq<Operand>): string {
    if operands == [] then ""
    else
      var last := operands[|operands| - 1];
      Texts(operands[..|operands| - 1]) + if last.Text? then last.text else ""
  }

  /** What `cat` shows: each text and each message in the order of the operands. */
  function Displayed(operands: seq<Operand>, errorsDropped: bool): string {
    if operands == [] then ""
    else
      var last := operands[|operands| - 1];
      Displayed(operands[..|operands| - 1], errorsDropped)
      + match last
        case Text(text) => text
        case Message(line) => if errorsDropped then "" else line + "\n"
        case Unknown => ""
  }

  predicate IsTerminated(text: string) { text == "" || text[|text| - 1] == '\n' }

  /**
   * `cat` is answered when every operand is known, no message follows an unterminated line and no stretch of text is
   * too long.
   */
  predicate IsAnswered(operands: seq<Operand>) {
    operands == [] || (IsAnswered(operands[..|operands| - 1])
        && Admits(operands[..|operands| - 1], operands[|operands| - 1]))
  }

  /** Whether `cat`, having read `before`, goes on past the next operand. */
  predicate Admits(before: seq<Operand>, operand: Operand) {
    match operand
    case Text(text) => |Stream(before) + text| <= MAX_TEXT_CHARS
    case Message(_) => IsTerminated(Stream(before))
    case Unknown => false
  }

  predicate HasMessage(operands: seq<Operand>) {
    operands != [] && (HasMessage(operands[..|operands| - 1]) || operands[|operands| - 1].Message?)
  }

  /**
   * The output lines are those of the texts joined, numbered as one text under `-n`; and without numbers the run shows
   * the texts and messages in the order of the operands.
   */
  ghost predicate IsCat(lines: seq<Written>, openEnd: bool, numbered: bool, operands: seq<Operand>) {
    var (all, allEnd) := FileLines(Texts(operands));
    && Kept(lines, true) == Show(numbered, 0, all) && openEnd == allEnd
    && (openEnd ==> lines != [] && !lines[|lines| - 1].1)
    && (!numbered ==> forall d :: TextOf(Kept(lines, d), openEnd) == Displayed(operands, d))
  }

  /** The lines as printed: numbered on from `printed` for `cat -n`. */
  function Show(numbered: bool, printed: nat, lines: seq<string>): (r: seq<string>)
    ensures |r| == |lines|
  {
    if numbered then NumberedFrom(printed, lines) else lines
  }

  lemma ShowConcat(numbered: bool, a: seq<string>, b: seq<string>)
    ensures Show(numbered, 0, a) + Show(numbered, |a|, b) == Show(numbered, 0, a + b)
  {
    if numbered { NumberedConcat(a, b); }
  }

  lemma NumberedConcat(a: seq<string>, b: seq<string>)
    ensures NumberedFrom(0, a) + NumberedFrom(|a|, b) == NumberedFrom(0, a + b)
  {
    var parts, all := NumberedFrom(0, a) + NumberedFrom(|a|, b), NumberedFrom(0, a + b);
    forall k | 0 <= k < |all| ensures parts[k] == all[k] {}
  }

  class Run {
    var lines: seq<Written>
    var openEnd: bool
    var returncode: int

    constructor ()
      ensures lines == [] && !openEnd && returncode == 0
    {
      lines, openEnd, returncode := [], false, 0;
    }

    method Put(line: string)
      modifies this`lines
      ensures lines == old(lines) + [(line, false)]
    {
      lines := lines + [(line, false)];
    }

    method Error(line: string, code: int)
      modifies this`lines, this`returncode
      ensures lines == old(lines) + [(line, true)] && returncode == code
    {
      lines, returncode := lines + [(line, true)], code;
    }

    /** Prints what a read selects of `stream`, numbering on from `printed` lines. */
    method Emit(read: Read, numbered: bool, stream: string, printed: nat) returns (count: nat)
      modifies this`lines, this`openEnd
      ensures var (all, allEnd) := FileLines(stream);
              var (selected, end) := Select(read, all, allEnd);
              && lines == old(lines) + Marked(Show(numbered, printed, selected), false)
              && openEnd == (if selected == [] then old(openEnd) else end)
              && count == printed + |selected|
    {
      var (all, allEnd) := FileLines(stream);
      var (selected, end) := Select(read, all, allEnd);
      var shown := Show(numbered, printed, selected);
      ghost var before := lines;
      for i := 0 to |selected|
        invariant lines == before + Marked(shown[..i], false)
        invariant openEnd == old(openEnd)
      {
        Put(shown[i]);
        MarkedOneMore(before, shown, i);
      }
      assert shown[..|selected|] == shown;
      if selected != [] { openEnd := end; }
      count := printed + |selected|;
    }

    /** `_run_wc`: a row for each file, with its name, and one for all of them when there are several operands. */
    method CountFiles(w: World, counts: seq<Count>, files: seq<(string, string)>, operands: nat)
      modifies this`lines
      ensures var width := WcWidth(w, counts, files, operands);
              lines == old(lines) + Marked(WcRows(w, counts, files, width), false)
                       + Marked(WcTotal(w, counts, files, width, operands), false)
    {
      var total := TotalBytes(w, files);
      var width := if |counts| == 1 && operands == 1 then 1 else |Radix.Decimal(total)|;
      PutRows(w, counts, files, width);
      ghost var rows := lines;
      if operands > 1 {
        var row := WcRow(w, TextOfAll(files), counts, width) + " total";
        Put(row);
        assert Marked([row], false) == [(row, false)];
      } else {
        assert rows + Marked([], false) == rows;
      }
    }

    method PutRows(w: World, counts: seq<Count>, files: seq<(string, string)>, width: nat)
      modifies this`lines
      ensures lines == old(lines) + Marked(WcRows(w, counts, files, width), false)
    {
      ghost var before := lines;
      for i := 0 to |files|
        invariant lines == before + Marked(WcRows(w, counts, files[..i], width), false)
      {
        Put(NamedRow(w, counts, files[i], width));
        assert files[..i + 1][..i] == files[..i];
        MarkedSnoc(before, WcRows(w, counts, files[..i], width), NamedRow(w, counts, files[i], width));
      }
      assert files[..|files|] == files;
    }

    /** Prints the texts read since the last message. */
    method Flush(numbered: bool, stream: string, printed: nat, ghost flushed: seq<string>, ghost operands: seq<Operand>)
      returns (count: nat)
      requires Flushed(lines, flushed, numbered, operands) && !openEnd
      requires stream == Stream(operands) && IsTerminated(stream) && printed == |flushed|
      modifies this`lines, this`openEnd
      ensures AllWritten(lines, flushed + FileLines(stream).0, numbered, operands) && !openEnd
      ensures count == |flushed + FileLines(stream).0|
    {
      FlushedLines(lines, flushed, numbered, operands);
      count := Emit(ReadAll, numbered, stream, printed);
    }

    /** Prints what is left at the end. */
    method FlushLast(
      numbered: bool, stream: string, printed: nat, ghost flushed: seq<string>, ghost operands: seq<Operand>)
      requires Flushed(lines, flushed, numbered, operands) && !openEnd
      requires stream == Stream(operands) && printed == |flushed|
      modifies this`lines, this`openEnd
      ensures IsCat(lines, openEnd, numbered, operands)
    {
      FlushedAtEnd(lines, flushed, numbered, operands);
      var _ := Emit(ReadAll, numbered, stream, printed);
    }

    /** Where the loop over the operands stands after `operands`. */
    ghost predicate Reading(stream: string, printed: nat, flushed: seq<string>, numbered: bool, operands: seq<Operand>)
      reads this
    {
      && stream == Stream(operands) && printed == |flushed| && !openEnd
      && returncode == (if HasMessage(operands) then 1 else 0)
      && Flushed(lines, flushed, numbered, operands)
    }

    /** The body of the loop over the operands. */
    method ReadOperand(
      operand: Operand, numbered: bool, stream: string, printed: nat, ghost flushed: seq<string>,
      ghost before: seq<Operand>)
      returns (ok: bool, more: string, count: nat, ghost flushedNow: seq<string>)
      requires Reading(stream, printed, flushed, numbered, before)
      modifies this`lines, this`openEnd, this`returncode
      ensures ok == Admits(before, operand)
      ensures ok ==> Reading(more, count, flushedNow, numbered, before + [operand])
    {
      more, count, flushedNow := stream, printed, flushed;
      OneOperandMore(before, operand);
      match operand
      case Unknown => return false, more, count, flushedNow;
      case Text(text) =>
        FlushedText(lines, flushed, numbered, before, text);
        more := stream + text;
        ok := |more| <= MAX_TEXT_CHARS;
      case Message(line) =>
        if stream != "" && stream[|stream| - 1] != '\n' { return false, more, count, flushedNow; }
        count := Flush(numbered, stream, printed, flushed, before);
        flushedNow := flushed + FileLines(stream).0;
        more := "";
        FlushedMessage(lines, flushedNow, numbered, before, line);
        Error(line, 1);
        ok := true;
    }

    /**
     * `cat` of its operands. It is answered exactly when `IsAnswered`; then its output lines are those of the texts
     * joined, numbered as one text under `-n`, and what it shows is the texts and messages in operand order.
     */
    method Cat(operands: seq<Operand>, numbered: bool) returns (ok: bool)
      requires lines == [] && !openEnd && returncode == 0
      modifies this`lines, this`openEnd, this`returncode
      ensures ok == IsAnswered(operands)
      ensures ok ==> IsCat(lines, openEnd, numbered, operands)
      ensures ok ==> returncode == if HasMessage(operands) then 1 else 0
    {
      var stream, printed := "", 0;
      ghost var flushed: seq<string> := [];
      for i := 0 to |operands|
        invariant Reading(stream, printed, flushed, numbered, operands[..i])
        invariant IsAnswered(operands[..i])
      {
        PrefixIsAnswered(operands, i + 1);
        OneOperandMore(operands[..i], operands[i]);
        assert operands[..i + 1] == operands[..i] + [operands[i]];
        ok, stream, printed, flushed := ReadOperand(operands[i], numbered, stream, printed, flushed, operands[..i]);
        if !ok { return; }
      }
      assert operands[..|operands|] == operands;
      FlushLast(numbered, stream, printed, flushed, operands);
      ok := true;
    }
  }

  lemma MarkedOneMore(before: seq<Written>, lines: seq<string>, i: nat)
    requires i < |lines|
    ensures before + Marked(lines[..i + 1], false) == before + Marked(lines[..i], false) + [(lines[i], false)]
  {
    assert Marked(lines[..i + 1], false) == Marked(lines[..i], false) + [(lines[i], false)];
  }

  // ---------------------------------------------------------------- what holds while `cat` runs

  /** The lines written so far are those of all texts but the pending stream, and the messages where they belong. */
  ghost predicate Flushed(lines: seq<Written>, flushed: seq<string>, numbered: bool, operands: seq<Operand>) {
    && AreLines(flushed) && TextOf(flushed, false) + Stream(operands) == Texts(operands)
    && Kept(lines, true) == Show(numbered, 0, flushed)
    && (!numbered ==> forall d :: TextOf(Kept(lines, d), false) + Stream(operands) == Displayed(operands, d))
  }

  lemma OneOperandMore(before: seq<Operand>, operand: Operand)
    ensures HasMessage(before + [operand]) <==> HasMessage(before) || operand.Message?
    ensures Stream(before + [operand]) == if operand.Text? then Stream(before) + operand.text else ""
    ensures IsAnswered(before + [operand]) <==> IsAnswered(before) && Admits(before, operand)
  {
    assert (before + [operand])[..|before|] == before;
  }

  lemma {:induction false} PrefixIsAnswered(operands: seq<Operand>, i: nat)
    requires i <= |operands|
    ensures IsAnswered(operands) ==> IsAnswered(operands[..i])
  {
    if i < |operands| {
      PrefixIsAnswered(operands[..|operands| - 1], i);
      assert operands[..|operands| - 1][..i] == operands[..i];
    } else {
      assert operands[..i] == operands;
    }
  }

  lemma FlushedText(lines: seq<Written>, flushed: seq<string>, numbered: bool, operands: seq<Operand>, text: string)
    requires Flushed(lines, flushed, numbered, operands)
    ensures Flushed(lines, flushed, numbered, operands + [Text(text)])
    ensures Stream(operands + [Text(text)]) == Stream(operands) + text
  {
    var more := operands + [Text(text)];
    assert more[..|operands|] == operands;
    assert TextOf(flushed, false) + (Stream(operands) + text) == TextOf(flushed, false) + Stream(operands) + text;
    forall d | !numbered ensures TextOf(Kept(lines, d), false) + Stream(more) == Displayed(more, d) {
      assert TextOf(Kept(lines, d), false) + (Stream(operands) + text) == TextOf(Kept(lines, d), false)
             + Stream(operands) + text;
    }
  }

  /** Flushing a terminated stream. */
  ghost predicate AllWritten(lines: seq<Written>, flushed: seq<string>, numbered: bool, operands: seq<Operand>) {
    && AreLines(flushed) && TextOf(flushed, false) == Texts(operands)
    && Kept(lines, true) == Show(numbered, 0, flushed)
    && (!numbered ==> forall d :: TextOf(Kept(lines, d), false) == Displayed(operands, d))
  }

  /** One text more on the terminal. */
  lemma ShownAfter(lines: seq<Written>, more: seq<string>, openEnd: bool, d: bool)
    ensures TextOf(Kept(lines + Marked(more, false), d), openEnd && more != [])
         == TextOf(Kept(lines, d), false) + TextOf(more, openEnd && more != [])
  {
    KeptConcat(lines, Marked(more, false), d);
    KeptMarked(more, d);
    TextOfConcat(Kept(lines, d), more, openEnd);
  }

  lemma KeptAfter(lines: seq<Written>, flushed: seq<string>, more: seq<string>, numbered: bool)
    requires Kept(lines, true) == Show(numbered, 0, flushed)
    ensures Kept(lines + Marked(Show(numbered, |flushed|, more), false), true) == Show(numbered, 0, flushed + more)
  {
    KeptConcat(lines, Marked(Show(numbered, |flushed|, more), false), true);
    KeptMarked(Show(numbered, |flushed|, more), true);
    ShowConcat(numbered, flushed, more);
  }

  lemma FlushedLines(lines: seq<Written>, flushed: seq<string>, numbered: bool, operands: seq<Operand>)
    requires Flushed(lines, flushed, numbered, operands) && IsTerminated(Stream(operands))
    ensures var more := FileLines(Stream(operands)).0;
            AllWritten(lines + Marked(Show(numbered, |flushed|, more), false), flushed + more, numbered, operands)
    ensures !FileLines(Stream(operands)).1
  {
    var more := FileLines(Stream(operands)).0;
    TextOfFileLines(Stream(operands));
    TextOfConcat(flushed, more, false);
    KeptAfter(lines, flushed, more, numbered);
    if !numbered {
      forall d ensures TextOf(Kept(lines + Marked(more, false), d), false) == Displayed(operands, d) {
        ShownAfter(lines, more, false, d);
      }
    }
  }

  lemma FlushedMessage(lines: seq<Written>, flushed: seq<string>, numbered: bool, operands: seq<Operand>, line: string)
    requires AllWritten(lines, flushed, numbered, operands)
    ensures Flushed(lines + [(line, true)], flushed, numbered, operands + [Message(line)])
    ensures Stream(operands + [Message(line)]) == ""
  {
    var more := operands + [Message(line)];
    assert more[..|operands|] == operands;
    assert Texts(more) == Texts(operands);
    KeptConcat(lines, [(line, true)], true);
    KeptMessage(line, true);
    forall d | !numbered ensures TextOf(Kept(lines + [(line, true)], d), false) + "" == Displayed(more, d) {
      MessageShown(lines, line, d);
    }
  }

  lemma MessageShown(lines: seq<Written>, line: string, d: bool)
    ensures TextOf(Kept(lines + [(line, true)], d), false) == TextOf(Kept(lines, d), false) + if d then ""
            else line + "\n"
  {
    KeptConcat(lines, [(line, true)], d);
    KeptMessage(line, d);
    TextOfConcat(Kept(lines, d), [line], false);
    assert Kept(lines, d) + [] == Kept(lines, d);
  }

  lemma UnterminatedLine(text: string)
    requires FileLines(text).1
    ensures var lines := FileLines(text).0; lines != [] && lines[|lines| - 1] != ""
  {
    var lines := FileLines(text).0;
    TextOfFileLines(text);
    if lines[|lines| - 1] == "" { EmptyLastLine(lines); }
  }

  lemma FlushedAtEnd(lines: seq<Written>, flushed: seq<string>, numbered: bool, operands: seq<Operand>)
    requires Flushed(lines, flushed, numbered, operands)
    ensures var (more, openEnd) := FileLines(Stream(operands));
            var after := lines + Marked(Show(numbered, |flushed|, more), false);
            && FileLines(Texts(operands)).1 == openEnd && (openEnd ==> more != [])
            && Kept(after, true) == Show(numbered, 0, FileLines(Texts(operands)).0)
            && (!numbered ==> forall d :: TextOf(Kept(after, d), openEnd) == Displayed(operands, d))
  {
    var (more, openEnd) := FileLines(Stream(operands));
    TextOfFileLines(Stream(operands));
    TextOfConcat(flushed, more, openEnd);
    if openEnd { UnterminatedLine(Stream(operands)); }
    FileLinesOfTextOf(flushed + more, openEnd);
    KeptAfter(lines, flushed, more, numbered);
    if !numbered {
      forall d ensures TextOf(Kept(lines + Marked(more, false), d), openEnd) == Displayed(operands, d) {
        ShownAfter(lines, more, openEnd, d);
      }
    }
  }

  /** With no pipe, the terminal shows exactly what the run wrote: for `cat`, its texts and messages, byte for byte. */
  lemma RawOfRun(w: World, lines: seq<Written>, openEnd: bool, status: int, unordered: bool, errorsDropped: bool)
    requires openEnd ==> lines != [] && !lines[|lines| - 1].1
    ensures var r := Finish(w, lines, openEnd, status, unordered, [], errorsDropped, false);
            r.Some? && r.value.Raw() == TextOf(Kept(lines, errorsDropped), openEnd) && r.value.returncode == status
  {
    RawOfResult(Kept(lines, errorsDropped), openEnd, status);
  }
}
