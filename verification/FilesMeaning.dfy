/** What reads of files print, in terms of the files, the operands and what was written. */
module FilesMeaning {
  import opened Results
  import opened TextLines
  import opened Pipeline
  import opened FileReads
  import opened Picks
  import Radix

  // ---------------------------------------------------------------- finishing

  /** The lines that are no messages, or all of them: in the order they were written. */
  lemma {:induction false} KeptAre(lines: seq<Written>, dropped: bool) returns (at: seq<nat>)
    ensures ArePicked(lines, (x: Written) => !(x.1 && dropped), (x: Written) => x.0, Kept(lines, dropped), at)
  {
    at := [];
    if lines != [] {
      var n := |lines| - 1;
      at := KeptAre(lines[..n], dropped);
      OneMorePicked(lines[..n], (x: Written) => !(x.1 && dropped), (x: Written) => x.0, Kept(lines[..n], dropped), at,
                    lines[n]);
      assert lines[..n] + [lines[n]] == lines;
      if !(lines[n].1 && dropped) { at := at + [n]; }
    }
  }

  lemma {:induction false} MessagesAre(lines: seq<Written>) returns (at: seq<nat>)
    ensures ArePicked(lines, (x: Written) => x.1, (x: Written) => x.0, Messages(lines), at)
  {
    at := [];
    if lines != [] {
      var n := |lines| - 1;
      at := MessagesAre(lines[..n]);
      OneMorePicked(lines[..n], (x: Written) => x.1, (x: Written) => x.0, Messages(lines[..n]), at, lines[n]);
      assert lines[..n] + [lines[n]] == lines;
      if lines[n].1 { at := at + [n]; }
    }
  }

  /**
   * With a pipe, the terminal shows the messages and then what the last stage prints, each unless it is thrown away,
   * and the status is that of the last stage.
   */
  lemma PipedIs(
    w: World, lines: seq<Written>, runOpen: bool, status: int, unordered: bool, pipeline: seq<Stage>,
    errorsDropped: bool, outputDropped: bool, out: Out)
    requires pipeline != [] && (runOpen ==> lines != [])
    requires Through(w, Out(Kept(lines, true), runOpen && Kept(lines, true) != [] && !lines[|lines| - 1].1, 0),
                     pipeline, unordered) == Some(out)
    ensures var r := Finish(w, lines, runOpen, status, unordered, pipeline, errorsDropped, outputDropped);
            var shown := (if errorsDropped then [] else Messages(lines)) + if outputDropped then [] else out.lines;
            r.Some? && r.value.returncode == out.status && r.value.Raw() == TextOf(shown, out.openEnd && shown != [])
  {
    var shown := (if errorsDropped then [] else Messages(lines)) + if outputDropped then [] else out.lines;
    RawOfResult(shown, out.openEnd, out.status);
  }

  /** Without a pipe, a run whose output is thrown away shows its messages, unless they are too. */
  lemma DroppedIs(w: World, lines: seq<Written>, openEnd: bool, status: int, unordered: bool, errorsDropped: bool)
    ensures var r := Finish(w, lines, openEnd, status, unordered, [], errorsDropped, true);
            var shown := if errorsDropped then [] else Messages(lines);
            r.Some? && r.value.returncode == status && r.value.output == Join(shown) && (r.value.empty <==> shown == [])
  {
  }

  // ---------------------------------------------------------------- wc

  /** What `wc` prints of files: a row and the name for each, and a row `total` when there are two operands or more. */
  ghost predicate IsReport(
    w: World, counts: seq<Count>, files: seq<(string, string)>, operands: nat, width: nat, out: seq<string>)
  {
    && |out| == |files| + (if operands >= 2 then 1 else 0)
    && (forall i :: 0 <= i < |files| ==> out[i] == WcRow(w, files[i].1, counts, width) + " " + files[i].0)
    && (operands >= 2 ==> out[|files|] == WcRow(w, TextOfAll(files), counts, width) + " total")
  }

  /** The columns are as wide as all bytes together in decimal, but one count of one operand stands alone. */
  lemma ReportIs(w: World, counts: seq<Count>, files: seq<(string, string)>, operands: nat)
    ensures var width := WcWidth(w, counts, files, operands);
            && width == (if |counts| == 1 && operands == 1 then 1 else |Radix.Decimal(SumOf(w, files, ByteCount))|)
            && IsReport(w, counts, files, operands, width,
                        WcRows(w, counts, files, width) + WcTotal(w, counts, files, width, operands))
  {
    TotalIsSum(w, files, ByteCount);
    RowsAre(w, counts, files, WcWidth(w, counts, files, operands));
  }

  lemma {:induction false} RowsAre(w: World, counts: seq<Count>, files: seq<(string, string)>, width: nat)
    ensures |WcRows(w, counts, files, width)| == |files|
    ensures forall i :: 0 <= i < |files| ==>
              WcRows(w, counts, files, width)[i] == WcRow(w, files[i].1, counts, width) + " " + files[i].0
  {
    if files != [] {
      var n := |files| - 1;
      RowsAre(w, counts, files[..n], width);
      OneRowMore(w, counts, files, n, width, WcRows(w, counts, files[..n], width));
    }
  }

  lemma OneRowMore(w: World, counts: seq<Count>, files: seq<(string, string)>, n: nat, width: nat, rows: seq<string>)
    requires |files| == n + 1 && |rows| == n
    requires forall i :: 0 <= i < n ==> rows[i] == WcRow(w, files[i].1, counts, width) + " " + files[i].0
    ensures var more := rows + [NamedRow(w, counts, files[n], width)];
            forall i :: 0 <= i < |files| ==> more[i] == WcRow(w, files[i].1, counts, width) + " " + files[i].0
  {
  }

  // ---------------------------------------------------------------- cat

  function Joined(texts: seq<string>): string { if texts == [] then "" else texts[0] + Joined(texts[1..]) }

  /** What an operand adds to the text that is read, and what it shows. */
  predicate AddsText(o: Operand, text: string) { if o.Text? then text == o.text else text == "" }

  predicate Shows(o: Operand, errorsDropped: bool, text: string) {
    match o
    case Text(t) => text == t
    case Message(line) => if errorsDropped then text == "" else text == line + "\n"
    case Unknown => text == ""
  }

  lemma {:induction false} JoinedMore(texts: seq<string>, last: string)
    ensures Joined(texts + [last]) == Joined(texts) + last
  {
    if texts == [] {
      assert [last][1..] == [];
    } else {
      assert (texts + [last])[1..] == texts[1..] + [last];
      JoinedMore(texts[1..], last);
    }
  }

  lemma {:induction false} TextsAre(operands: seq<Operand>) returns (texts: seq<string>)
    ensures |texts| == |operands| && Texts(operands) == Joined(texts)
    ensures forall i :: 0 <= i < |texts| ==> AddsText(operands[i], texts[i])
  {
    texts := [];
    if operands != [] {
      var n := |operands| - 1;
      var before := TextsAre(operands[..n]);
      var last := if operands[n].Text? then operands[n].text else "";
      JoinedMore(before, last);
      texts := before + [last];
    }
  }

  lemma {:induction false} DisplayedAre(operands: seq<Operand>, errorsDropped: bool) returns (texts: seq<string>)
    ensures |texts| == |operands| && Displayed(operands, errorsDropped) == Joined(texts)
    ensures forall i :: 0 <= i < |texts| ==> Shows(operands[i], errorsDropped, texts[i])
  {
    texts := [];
    if operands != [] {
      var n := |operands| - 1;
      var before := DisplayedAre(operands[..n], errorsDropped);
      var last := match operands[n] case Text(t) => t case Message(line) => (if errorsDropped then "" else line + "\n")
                  case Unknown => "";
      JoinedMore(before, last);
      texts := before + [last];
    }
  }

  /** From the operand at `j` on there are only texts, and before it a message or nothing. */
  predicate IsStretch(operands: seq<Operand>, j: nat, i: nat) {
    j <= i <= |operands| && (forall k :: j <= k < i ==> operands[k].Text?) && (j == 0 || !operands[j - 1].Text?)
  }

  lemma {:induction false} StreamIs(operands: seq<Operand>, j: nat, i: nat)
    requires IsStretch(operands, j, i)
    ensures Stream(operands[..i]) == Texts(operands[j..i])
  {
    if j < i {
      StreamIs(operands, j, i - 1);
      assert operands[..i][..i - 1] == operands[..i - 1] && operands[j..i][..i - 1 - j] == operands[j..i - 1];
    }
  }

  /** Where the stretch of texts before `i` starts. */
  lemma {:induction false} StretchBefore(operands: seq<Operand>, i: nat) returns (j: nat)
    requires i <= |operands|
    ensures IsStretch(operands, j, i)
  {
    j := i;
    if i > 0 && operands[i - 1].Text? { j := StretchBefore(operands, i - 1); }
  }

  /**
   * Past this operand `cat` is answered: a text makes its stretch no longer than 8388608 characters, a message does not
   * follow an unterminated line, and nothing is unknown.
   */
  ghost predicate GoesOn(operands: seq<Operand>, i: nat)
    requires i < |operands|
  {
    match operands[i]
    case Unknown => false
    case Text(_) => IsShortTo(operands, i + 1)
    case Message(_) => IsTerminatedTo(operands, i)
  }

  ghost predicate IsShortTo(operands: seq<Operand>, end: nat) {
    forall j: nat :: IsStretch(operands, j, end) ==> |Texts(operands[j..end])| <= 8388608
  }

  ghost predicate IsTerminatedTo(operands: seq<Operand>, end: nat) {
    forall j: nat :: IsStretch(operands, j, end) ==>
      var text := Texts(operands[j..end]); text == "" || text[|text| - 1] == '\n'
  }

  lemma SameStream(operands: seq<Operand>, end: nat)
    requires end <= |operands|
    ensures forall j: nat :: IsStretch(operands, j, end) ==> Stream(operands[..end]) == Texts(operands[j..end])
  {
    forall j: nat | IsStretch(operands, j, end) ensures Stream(operands[..end]) == Texts(operands[j..end]) {
      StreamIs(operands, j, end);
    }
  }

  lemma AdmitsIs(operands: seq<Operand>, i: nat)
    requires i < |operands|
    ensures Admits(operands[..i], operands[i]) <==> GoesOn(operands, i)
  {
    var before := StretchBefore(operands, i);
    var after := StretchBefore(operands, i + 1);
    SameStream(operands, i);
    SameStream(operands, i + 1);
    assert operands[..i + 1][..i] == operands[..i];
    assert MAX_TEXT_CHARS == 8388608;
  }

  lemma {:induction false} AnsweredIs(operands: seq<Operand>, n: nat)
    requires n <= |operands|
    ensures IsAnswered(operands[..n]) <==> forall i :: 0 <= i < n ==> GoesOn(operands, i)
  {
    if n > 0 {
      AnsweredIs(operands, n - 1);
      AdmitsIs(operands, n - 1);
      assert operands[..n][..n - 1] == operands[..n - 1];
    }
  }
}
