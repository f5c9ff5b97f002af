/**
 * Texts and their lines: `_file_lines` and the final line break of a result,
 * `src/repo_context_service/command_search.py`.
 */
module TextLines {

  /** `text.split("\n")`: one piece more than there are line breaks. */
  function Split(text: string): (lines: seq<string>)
    ensures |lines| >= 1
  {
    if text == "" then [""]
    else
      var before, last := Split(text[..|text| - 1]), text[|text| - 1];
      if last == '\n' then before + [""] else before[..|before| - 1] + [before[|before| - 1] + [last]]
  }

  /** `"\n".join(lines)`. */
  function Join(lines: seq<string>): string {
    if |lines| == 0 then ""
    else if |lines| == 1 then lines[0]
    else Join(lines[..|lines| - 1]) + "\n" + lines[|lines| - 1]
  }

  /** `text.removesuffix("\n")`. */
  function WithoutLastBreak(text: string): string {
    if text != "" && text[|text| - 1] == '\n' then text[..|text| - 1] else text
  }

  predicate AreLines(lines: seq<string>) {
    forall i :: 0 <= i < |lines| ==> '\n' !in lines[i]
  }

  /** A file's lines, and whether its last line lacks a line break. */
  function FileLines(text: string): (seq<string>, bool) {
    if text == "" then ([], false)
    else if text[|text| - 1] == '\n' then (Split(text[..|text| - 1]), false)
    else (Split(text), true)
  }

  /** The text that consists of these lines, the last without a line break when `openEnd`. */
  function TextOf(lines: seq<string>, openEnd: bool): string {
    Join(lines) + if openEnd || lines == [] then "" else "\n"
  }

  lemma {:induction false} JoinSnoc(lines: seq<string>, c: char)
    requires lines != []
    ensures Join(lines[..|lines| - 1] + [lines[|lines| - 1] + [c]]) == Join(lines) + [c]
  {
    var more := lines[..|lines| - 1] + [lines[|lines| - 1] + [c]];
    if |lines| > 1 { assert more[..|lines| - 1] == lines[..|lines| - 1]; }
  }

  lemma {:induction false} JoinSplit(text: string)
    ensures Join(Split(text)) == text && AreLines(Split(text))
  {
    if text != "" {
      var before, last := Split(text[..|text| - 1]), text[|text| - 1];
      JoinSplit(text[..|text| - 1]);
      assert text == text[..|text| - 1] + [last];
      if last == '\n' {
        assert (before + [""])[..|before|] == before;
      } else {
        JoinSnoc(before, last);
      }
    }
  }

  lemma {:induction false} SplitAppend(text: string, line: string)
    requires '\n' !in line
    ensures var before := Split(text);
            Split(text + line) == before[..|before| - 1] + [before[|before| - 1] + line]
  {
    var before := Split(text);
    if line == "" {
      assert text + line == text;
      assert before[|before| - 1] + line == before[|before| - 1];
    } else {
      var shorter, last := line[..|line| - 1], line[|line| - 1];
      assert last in line && forall c :: c in shorter ==> c in line;
      SplitAppend(text, shorter);
      assert (text + line)[..|text + line| - 1] == text + shorter;
      assert line == shorter + [last];
      assert before[|before| - 1] + line == before[|before| - 1] + shorter + [last];
    }
  }

  lemma SplitNextLine(text: string, line: string)
    requires '\n' !in line
    ensures Split(text + "\n" + line) == Split(text) + [line]
  {
    var head := text + "\n";
    assert head[..|head| - 1] == text;
    SplitAppend(head, line);
    assert "" + line == line;
    assert (Split(text) + [""])[..|Split(text)|] == Split(text);
  }

  lemma {:induction false} SplitJoin(lines: seq<string>)
    requires lines != [] && AreLines(lines)
    ensures Split(Join(lines)) == lines
  {
    var n := |lines|;
    if n == 1 {
      SplitAppend("", lines[0]);
      assert "" + lines[0] == lines[0];
      assert lines == [lines[0]];
    } else {
      SplitJoin(lines[..n - 1]);
      SplitNextLine(Join(lines[..n - 1]), lines[n - 1]);
      assert lines == lines[..n - 1] + [lines[n - 1]];
    }
  }

  /** Reading a file into lines loses nothing. */
  lemma TextOfFileLines(text: string)
    ensures var (lines, openEnd) := FileLines(text);
            TextOf(lines, openEnd) == text && AreLines(lines) && (openEnd ==> lines != [])
                && (lines == [] <==> text == "")
  {
    if text != "" {
      JoinSplit(text);
      JoinSplit(text[..|text| - 1]);
      assert text == text[..|text| - 1] + [text[|text| - 1]];
    }
  }

  /** ... and printing lines then reading them gives them back, exactly when an unterminated last line is not empty. */
  lemma FileLinesOfTextOf(lines: seq<string>, openEnd: bool)
    requires AreLines(lines)
    ensures FileLines(TextOf(lines, openEnd)) == (lines, openEnd)
       <==> (openEnd ==> lines != [] && lines[|lines| - 1] != "")
  {
    var text := TextOf(lines, openEnd);
    if openEnd {
      assert text == Join(lines);
      if lines != [] && lines[|lines| - 1] != "" {
        LastOfJoin(lines);
        SplitJoin(lines);
      } else if lines != [] {
        EmptyLastLine(lines);
      }
    } else if lines != [] {
      SplitJoin(lines);
      assert text[..|text| - 1] == Join(lines);
    }
  }

  lemma LastOfJoin(lines: seq<string>)
    requires AreLines(lines) && lines != [] && lines[|lines| - 1] != ""
    ensures Join(lines) != "" && Join(lines)[|Join(lines)| - 1] != '\n'
  {
    var last := lines[|lines| - 1];
    assert last[|last| - 1] in last;
    assert Join(lines)[|Join(lines)| - 1] == last[|last| - 1];
  }

  lemma EmptyLastLine(lines: seq<string>)
    requires lines != [] && lines[|lines| - 1] == ""
    ensures Join(lines) == "" || Join(lines)[|Join(lines)| - 1] == '\n'
  {
  }

  /** Lines of a text that ends with a line break, followed by those of another text, are the lines of both texts. */
  lemma TextOfConcat(a: seq<string>, b: seq<string>, openEnd: bool)
    ensures TextOf(a + b, openEnd && b != []) == TextOf(a, false) + TextOf(b, openEnd && b != [])
  {
    if b == [] {
      assert a + b == a;
    } else if a == [] {
      assert a + b == b;
    } else {
      JoinConcat(a, b);
    }
  }

  lemma {:induction false} JoinConcat(a: seq<string>, b: seq<string>)
    requires a != [] && b != []
    ensures Join(a + b) == Join(a) + "\n" + Join(b)
  {
    var n := |a + b| - 1;
    assert (a + b)[n] == b[|b| - 1];
    if |b| == 1 {
      assert (a + b)[..n] == a;
    } else {
      assert (a + b)[..n] == a + b[..|b| - 1];
      JoinConcat(a, b[..|b| - 1]);
    }
  }
}
