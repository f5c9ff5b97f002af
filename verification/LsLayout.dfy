/**
 * How `ls` lays names out in columns: `ls_layouts` and `_columns_text` of `src/repo_context_service/command_search.py`.
 */
module LsLayout {
  import Radix

  const MIN_COLUMN_WIDTH := 3
  const TAB := 8

  // ---------------------------------------------------------------- what a terminal shows

  /** The display column after printing `s` from column `from`: a tab moves to the next multiple of eight. */
  function Column(from: nat, s: string): nat
    decreases |s|
  {
    if s == "" then from
    else Column(if s[0] == '\t' then from + TAB - from % TAB else from + 1, s[1..])
  }

  predicate IsBlank(s: string) {
    forall k :: 0 <= k < |s| ==> s[k] == ' ' || s[k] == '\t'
  }

  predicate IsTabFree(names: seq<string>) {
    forall i :: 0 <= i < |names| ==> '\t' !in names[i]
  }

  lemma {:induction false} ColumnOfConcat(from: nat, s: string, t: string)
    ensures Column(from, s + t) == Column(Column(from, s), t)
    decreases |s|
  {
    if s == "" {
      assert s + t == t;
    } else {
      assert (s + t)[1..] == s[1..] + t;
      ColumnOfConcat(if s[0] == '\t' then from + TAB - from % TAB else from + 1, s[1..], t);
    }
  }

  lemma {:induction false} ColumnOfText(from: nat, s: string)
    requires '\t' !in s
    ensures Column(from, s) == from + |s|
    decreases |s|
  {
    if s != "" {
      assert s[0] in s && forall c :: c in s[1..] ==> c in s;
      ColumnOfText(from + 1, s[1..]);
    }
  }

  // ---------------------------------------------------------------- columns and their widths

  function Max(a: int, b: int): int { if a > b then a else b }

  /** `-(-count // columns)`. */
  function RowCount(count: nat, columns: nat): nat
    requires columns >= 1
  {
    (count + columns - 1) / columns
  }

  /**
   * The width the names before `upTo` ask of a column: its longest name, and two blanks after all but the last column.
   */
  function SpanUpTo(names: seq<string>, columns: nat, column: nat, upTo: nat): (w: nat)
    requires columns >= 1 && upTo <= |names|
    ensures w >= MIN_COLUMN_WIDTH
  {
    if upTo == 0 then MIN_COLUMN_WIDTH
    else
      var before := SpanUpTo(names, columns, column, upTo - 1);
      if (upTo - 1) / RowCount(|names|, columns) != column then before
      else Max(before, |names[upTo - 1]| + if column == columns - 1 then 0 else 2)
  }

  function Spans(names: seq<string>, columns: nat): (spans: seq<nat>)
    requires columns >= 1
    ensures |spans| == columns
  {
    seq(columns, c requires 0 <= c < columns => SpanUpTo(names, columns, c, |names|))
  }

  function Sum(spans: seq<nat>): nat {
    if spans == [] then 0 else Sum(spans[..|spans| - 1]) + spans[|spans| - 1]
  }

  predicate Fits(names: seq<string>, width: int, columns: nat) {
    1 <= columns <= |names| && columns <= width / MIN_COLUMN_WIDTH && Sum(Spans(names, columns)) < width
  }

  /** The largest fitting number of columns up to `most`, or one. */
  function Chosen(names: seq<string>, width: int, most: nat): (c: nat)
    ensures c >= 1
    ensures c == 1 || (c <= most && Fits(names, width, c))
    ensures forall d :: c < d <= most ==> !Fits(names, width, d)
  {
    if most <= 1 then 1 else if Fits(names, width, most) then most else Chosen(names, width, most - 1)
  }

  // ---------------------------------------------------------------- one line

  /** Tabs and blanks from column `start` to column `goal`. */
  function Pad(start: nat, goal: nat): string
    decreases goal - start
  {
    if start >= goal then ""
    else if goal / TAB > (start + 1) / TAB then "\t" + Pad(start + TAB - start % TAB, goal)
    else " " + Pad(start + 1, goal)
  }

  /** The line from the name at `index` on, printed at `position`, the left edge of `column`. */
  function LineFrom(names: seq<string>, spans: seq<nat>, rows: nat, index: nat, column: nat, position: nat): string
    requires rows >= 1
    decreases |names| - index
  {
    if index >= |names| then ""
    else if index + rows >= |names| || column >= |spans| then names[index]
    else names[index] + Pad(position + |names[index]|, position + spans[column])
         + LineFrom(names, spans, rows, index + rows, column + 1, position + spans[column])
  }

  function Lines(names: seq<string>, columns: nat): (lines: seq<string>)
    requires columns >= 1
    ensures |lines| == RowCount(|names|, columns)
  {
    var rows := RowCount(|names|, columns);
    seq(rows, row requires 0 <= row < rows => LineFrom(names, Spans(names, columns), rows, row, 0, 0))
  }

  /** What `ls` prints on a terminal of this width. */
  function Layout(names: seq<string>, width: int): seq<string> {
    Lines(names, Chosen(names, width, |names|))
  }

  // ---------------------------------------------------------------- padding

  /** Padding ends exactly at the goal: no tab ever jumps past it. */
  lemma {:induction false} PadReachesGoal(start: nat, goal: nat)
    requires start <= goal
    ensures Column(start, Pad(start, goal)) == goal && IsBlank(Pad(start, goal))
    decreases goal - start
  {
    if start < goal {
      if goal / TAB > (start + 1) / TAB {
        var next := start + TAB - start % TAB;
        assert next <= goal;
        PadReachesGoal(next, goal);
        assert Pad(start, goal)[1..] == Pad(next, goal);
      } else {
        PadReachesGoal(start + 1, goal);
        assert Pad(start, goal)[1..] == Pad(start + 1, goal);
      }
    }
  }

  lemma TabStops(from: nat)
    ensures var next := Column(from, "\t");
            next % 8 == 0 && from < next <= from + 8 && forall k :: from < k < next ==> k % 8 != 0
    ensures Column(from, " ") == from + 1
  {
    assert Column(from, "\t") == Column(from + TAB - from % TAB, "\t"[1..]);
    assert Column(from, " ") == Column(from + 1, " "[1..]);
  }

  /** Past a tab stop there is less left to pad. */
  lemma StopNeedsLess(start: nat, goal: nat)
    requires start + TAB - start % TAB <= goal
    ensures |Pad(start, goal)| == 1 + |Pad(start + TAB - start % TAB, goal)|
    ensures |Pad(start + TAB - start % TAB, goal)| <= |Pad(start + 1, goal)|
  {
    var stop := start + TAB - start % TAB;
    if start + 1 < stop {
      assert (start + 1) + TAB - (start + 1) % TAB == stop;
      assert goal / TAB >= stop / TAB == start / TAB + 1;
    }
  }

  /** No other blanks from `start` to `goal` are fewer. */
  lemma {:induction false} PadIsShortest(start: nat, goal: nat, blanks: string)
    requires IsBlank(blanks) && Column(start, blanks) == goal
    ensures start <= goal && |Pad(start, goal)| <= |blanks|
    decreases |blanks|
  {
    if blanks != "" {
      var next := if blanks[0] == '\t' then start + TAB - start % TAB else start + 1;
      PadIsShortest(next, goal, blanks[1..]);
      if start + TAB - start % TAB <= goal { StopNeedsLess(start, goal); }
    }
  }

  // ---------------------------------------------------------------- the grid

  /** `index` sits in row `index % rows` and column `index / rows`: column-major order, each index in one place. */
  lemma GridPlace(count: nat, columns: nat, index: nat)
    requires columns >= 1 && index < count
    ensures var rows := RowCount(count, columns);
            rows >= 1 && index % rows < rows && index / rows < columns && index == index % rows + index / rows * rows
  {
    var rows := RowCount(count, columns);
    assert count <= rows * columns by {
      assert count + columns - 1 == rows * columns + (count + columns - 1) % columns;
    }
    assert rows >= 1;
    var c := index / rows;
    assert index == c * rows + index % rows;
    assert c >= columns ==> c * rows >= columns * rows;
  }

  lemma {:induction false} SpanCoversName(names: seq<string>, columns: nat, index: nat, upTo: nat)
    requires columns >= 1 && index < upTo <= |names|
    ensures RowCount(|names|, columns) >= 1
    ensures var column := index / RowCount(|names|, columns);
            SpanUpTo(names, columns, column, upTo) >= |names[index]| + (if column == columns - 1 then 0 else 2)
  {
    GridPlace(|names|, columns, index);
    if index < upTo - 1 { SpanCoversName(names, columns, index, upTo - 1); }
  }

  lemma {:induction false} SumOfPrefix(spans: seq<nat>, n: nat)
    requires n <= |spans|
    ensures Sum(spans[..n]) <= Sum(spans)
    ensures n < |spans| ==> Sum(spans[..n + 1]) == Sum(spans[..n]) + spans[n]
  {
    if n < |spans| {
      assert spans[..n + 1][..n] == spans[..n];
      if n + 1 < |spans| {
        SumOfPrefix(spans[..|spans| - 1], n);
        assert spans[..|spans| - 1][..n] == spans[..n];
      } else {
        assert spans[..n + 1] == spans;
      }
    } else {
      assert spans[..n] == spans;
    }
  }

  // ---------------------------------------------------------------- what a line holds

  /**
   * Printed from `position`, `line` is the name at `index`, blanks up to where the next column starts, the name
   * `rows` further on, and so on to the last name of the row: every name of the row once, and nothing else but blanks.
   */
  ghost predicate Holds(
    line: string, names: seq<string>, spans: seq<nat>, rows: nat, index: nat, column: nat, position: nat)
    requires rows >= 1
    decreases |names| - index
  {
    index < |names| && column < |spans| && (
      if index + rows >= |names| then line == names[index]
      else exists gap, rest ::
        && line == names[index] + gap + rest && IsBlank(gap) && gap != ""
        && Column(position, names[index] + gap) == position + spans[column]
        && Holds(rest, names, spans, rows, index + rows, column + 1, position + spans[column]))
  }

  lemma NextPlace(count: nat, columns: nat, index: nat)
    requires columns >= 1 && index < count
    ensures var rows := RowCount(count, columns);
            rows >= 1 && (index + rows < count ==>
                (index + rows) / rows == index / rows + 1 && index / rows + 1 < columns)
  {
    GridPlace(count, columns, index);
    var rows := RowCount(count, columns);
    OneMore(index, rows);
    if index + rows < count { GridPlace(count, columns, index + rows); }
  }

  lemma OneMore(index: nat, rows: nat)
    requires rows >= 1
    ensures (index + rows) / rows == index / rows + 1
  {
    assert index + rows == (index / rows + 1) * rows + index % rows;
    Radix.DivMod(index / rows + 1, index % rows, rows);
  }

  /** `index` is in column `column` of the grid. */
  predicate InColumn(names: seq<string>, columns: nat, index: nat, column: nat) {
    columns >= 1 && index < |names| && RowCount(|names|, columns) >= 1 && index / RowCount(|names|, columns) == column
  }

  lemma PlaceFacts(names: seq<string>, columns: nat, index: nat, column: nat)
    requires InColumn(names, columns, index, column)
    ensures column < columns && |names[index]| <= Spans(names, columns)[column]
    ensures var rows := RowCount(|names|, columns);
            index + rows < |names| ==>
              && InColumn(names, columns, index + rows, column + 1)
              && |names[index]| + 2 <= Spans(names, columns)[column]
  {
    GridPlace(|names|, columns, index);
    NextPlace(|names|, columns, index);
    SpanCoversName(names, columns, index, |names|);
  }

  lemma {:induction false} LineHolds(names: seq<string>, columns: nat, index: nat, column: nat, position: nat)
    requires InColumn(names, columns, index, column) && IsTabFree(names)
    ensures var rows, spans := RowCount(|names|, columns), Spans(names, columns);
            Holds(LineFrom(names, spans, rows, index, column, position), names, spans, rows, index, column, position)
    decreases |names| - index
  {
    var rows, spans := RowCount(|names|, columns), Spans(names, columns);
    PlaceFacts(names, columns, index, column);
    if index + rows < |names| {
      var name, next := names[index], position + spans[column];
      var gap := Pad(position + |name|, next);
      var rest := LineFrom(names, spans, rows, index + rows, column + 1, next);
      GapReachesNext(name, position, next);
      LineHolds(names, columns, index + rows, column + 1, next);
      assert LineFrom(names, spans, rows, index, column, position) == name + gap + rest;
    }
  }

  lemma GapReachesNext(name: string, position: nat, next: nat)
    requires '\t' !in name && position + |name| < next
    ensures var gap := Pad(position + |name|, next); IsBlank(gap) && gap != "" && Column(position, name + gap) == next
  {
    PadReachesGoal(position + |name|, next);
    ColumnOfText(position, name);
    ColumnOfConcat(position, name, Pad(position + |name|, next));
  }

  /** Where the next column starts: after a name and the blanks behind it. */
  lemma SplitHeld(line: string, names: seq<string>, spans: seq<nat>, rows: nat, index: nat, column: nat, position: nat)
    returns (head: string, rest: string)
    requires rows >= 1 && Holds(line, names, spans, rows, index, column, position) && index + rows < |names|
    ensures line == head + rest && Column(position, head) == position + spans[column]
    ensures Holds(rest, names, spans, rows, index + rows, column + 1, position + spans[column])
  {
    var gap;
    gap, rest :|
      && line == names[index] + gap + rest && IsBlank(gap) && gap != ""
      && Column(position, names[index] + gap) == position + spans[column]
      && Holds(rest, names, spans, rows, index + rows, column + 1, position + spans[column]);
    head := names[index] + gap;
  }

  /** Each name is on the line of its row, starting at the display column its column starts at. */
  lemma {:induction false} NameStartsAtColumn(
    line: string, names: seq<string>, spans: seq<nat>, rows: nat, from: nat, column: nat, position: nat, k: nat,
    index: nat) returns (at: nat)
    requires rows >= 1 && Holds(line, names, spans, rows, from, column, position)
    requires index == from + k * rows < |names|
    ensures column + k < |spans| && at + |names[index]| <= |line| && line[at..at + |names[index]|] == names[index]
    ensures Column(position, line[..at]) == position + Sum(spans[column..column + k])
    decreases k
  {
    if k == 0 {
      at := 0;
      assert spans[column..column] == [] && index == from;
    } else {
      OneRowOn(from, k, rows, |names|);
      var head, rest := SplitHeld(line, names, spans, rows, from, column, position);
      var inner := NameStartsAtColumn(rest, names, spans, rows, from + rows, column + 1, position + spans[column],
                                      k - 1, index);
      at := |head| + inner;
      PlaceAfter(position, head, rest, inner, names[index]);
      SumFrom(spans, column, column + k);
    }
  }

  lemma OneRowOn(from: nat, k: nat, rows: nat, count: nat)
    requires k > 0 && from + k * rows < count
    ensures from + rows + (k - 1) * rows == from + k * rows && from + rows < count
  {
    TimesIsMonotone(1, k, rows);
  }

  lemma SumFrom(spans: seq<nat>, low: nat, high: nat)
    requires low < high <= |spans|
    ensures Sum(spans[low..high]) == spans[low] + Sum(spans[low + 1..high])
  {
    SumOfCons(spans[low], spans[low + 1..high]);
    assert spans[low..high] == [spans[low]] + spans[low + 1..high];
  }

  lemma PlaceAfter(position: nat, head: string, rest: string, at: nat, name: string)
    requires at + |name| <= |rest| && rest[at..at + |name|] == name
    ensures (head + rest)[|head| + at..|head| + at + |name|] == name
    ensures Column(position, (head + rest)[..|head| + at]) == Column(Column(position, head), rest[..at])
  {
    assert (head + rest)[..|head| + at] == head + rest[..at];
    ColumnOfConcat(position, head, rest[..at]);
  }

  lemma {:induction false} SumOfCons(x: nat, spans: seq<nat>)
    ensures Sum([x] + spans) == x + Sum(spans)
  {
    if spans != [] {
      assert ([x] + spans)[..|spans|] == [x] + spans[..|spans| - 1];
      SumOfCons(x, spans[..|spans| - 1]);
    } else {
      assert [x] + spans == [x];
      assert [x][..0] == [];
    }
  }

  lemma SpanEnds(spans: seq<nat>, column: nat)
    requires column < |spans|
    ensures Sum(spans[..column + 1]) == Sum(spans[..column]) + spans[column] <= Sum(spans)
  {
    SumOfPrefix(spans, column + 1);
    assert spans[..column + 1][..column] == spans[..column];
  }

  /** No line is wider than the columns together. */
  lemma {:induction false} LineWidth(names: seq<string>, columns: nat, line: string, index: nat, column: nat)
    requires InColumn(names, columns, index, column) && IsTabFree(names) && column < columns
    requires var spans := Spans(names, columns);
             Holds(line, names, spans, RowCount(|names|, columns), index, column, Sum(spans[..column]))
    ensures Column(Sum(Spans(names, columns)[..column]), line) <= Sum(Spans(names, columns))
    decreases |names| - index
  {
    var rows, spans := RowCount(|names|, columns), Spans(names, columns);
    var name, position := names[index], Sum(spans[..column]);
    PlaceFacts(names, columns, index, column);
    SpanEnds(spans, column);
    if index + rows >= |names| {
      ColumnOfText(position, name);
    } else {
      PlaceFacts(names, columns, index + rows, column + 1);
      var head, rest := SplitHeld(line, names, spans, rows, index, column, position);
      LineWidth(names, columns, rest, index + rows, column + 1);
      ColumnOfConcat(position, head, rest);
    }
  }

  /** Row `r` of a grid: its line holds exactly the names of the row, and is no wider than the columns together. */
  lemma RowIsRight(names: seq<string>, columns: nat, r: nat)
    requires IsTabFree(names) && columns >= 1 && r < RowCount(|names|, columns)
    ensures var rows, spans, line := RowCount(|names|, columns), Spans(names, columns), Lines(names, columns)[r];
            r < |names| && Holds(line, names, spans, rows, r, 0, 0) && Column(0, line) <= Sum(spans)
  {
    RowsAreNonEmpty(|names|, columns, r);
    LineHolds(names, columns, r, 0, 0);
    assert Spans(names, columns)[..0] == [];
    LineWidth(names, columns, Lines(names, columns)[r], r, 0);
  }

  // ---------------------------------------------------------------- the grid by itself

  /** The room a name takes in its column: two blanks follow it except in the last column. */
  function Room(names: seq<string>, columns: nat, column: nat, index: nat): nat
    requires index < |names|
  {
    |names[index]| + if column + 1 < columns then 2 else 0
  }

  /** A width of three or what some name of the column takes, and enough for every one, of the names before `upTo`. */
  ghost predicate IsLeastSpan(names: seq<string>, columns: nat, rows: nat, column: nat, upTo: nat, span: nat)
    requires rows >= 1 && upTo <= |names|
  {
    && span >= 3
    && (forall i :: 0 <= i < upTo && i / rows == column ==> Room(names, columns, column, i) <= span)
    && (span == 3 || exists i :: 0 <= i < upTo && Takes(names, columns, rows, column, i, span))
  }

  predicate Takes(names: seq<string>, columns: nat, rows: nat, column: nat, i: nat, span: nat)
    requires rows >= 1 && i < |names|
  {
    i / rows == column && Room(names, columns, column, i) == span
  }

  /** As few rows as hold the names in so many columns, and the least widths for them. */
  ghost predicate IsGrid(names: seq<string>, columns: nat, rows: nat, spans: seq<nat>) {
    && rows >= 1 && (rows - 1) * columns < |names| <= rows * columns && |spans| == columns
    && forall c :: 0 <= c < columns ==> IsLeastSpan(names, columns, rows, c, |names|, spans[c])
  }

  lemma LeastRows(count: nat, columns: nat)
    requires columns >= 1 && count >= 1
    ensures var rows := RowCount(count, columns);
            rows >= 1 && (rows - 1) * columns < count <= rows * columns
  {
    var rows := RowCount(count, columns);
    GridPlace(count, columns, count - 1);
    assert count + columns - 1 == rows * columns + (count + columns - 1) % columns;
    assert (rows - 1) * columns == rows * columns - columns;
  }

  lemma OneRowCount(count: nat, columns: nat, rows: nat)
    requires columns >= 1 && count >= 1 && rows >= 1 && (rows - 1) * columns < count <= rows * columns
    ensures rows == RowCount(count, columns)
  {
    LeastRows(count, columns);
    var least := RowCount(count, columns);
    if rows < least { TimesIsMonotone(rows, least - 1, columns); }
    if least < rows { TimesIsMonotone(least, rows - 1, columns); }
  }

  lemma {:induction false} LeastSpanUpTo(names: seq<string>, columns: nat, column: nat, upTo: nat)
    requires column < columns && upTo <= |names| && RowCount(|names|, columns) >= 1
    ensures IsLeastSpan(names, columns, RowCount(|names|, columns), column, upTo,
            SpanUpTo(names, columns, column, upTo))
  {
    if upTo > 0 {
      LeastSpanUpTo(names, columns, column, upTo - 1);
      OneNameMore(names, columns, RowCount(|names|, columns), column, upTo - 1,
                  SpanUpTo(names, columns, column, upTo - 1), SpanUpTo(names, columns, column, upTo));
    }
  }

  lemma OneNameMore(names: seq<string>, columns: nat, rows: nat, column: nat, i: nat, before: nat, span: nat)
    requires rows >= 1 && i < |names| && IsLeastSpan(names, columns, rows, column, i, before)
    requires span == if i / rows == column then Max(before, Room(names, columns, column, i)) else before
    ensures IsLeastSpan(names, columns, rows, column, i + 1, span)
  {
    if span != before {
      assert Takes(names, columns, rows, column, i, span);
    } else if span != 3 {
      var k :| 0 <= k < i && Takes(names, columns, rows, column, k, span);
    }
  }

  /** The spans of the layout are those of the grid ... */
  lemma SpansAreLeast(names: seq<string>, columns: nat)
    requires columns >= 1 && names != []
    ensures IsGrid(names, columns, RowCount(|names|, columns), Spans(names, columns))
  {
    LeastRows(|names|, columns);
    forall c | 0 <= c < columns
      ensures IsLeastSpan(names, columns, RowCount(|names|, columns), c, |names|, Spans(names, columns)[c])
    {
      LeastSpanUpTo(names, columns, c, |names|);
    }
  }

  /** ... and of no other. */
  lemma GridIsUnique(names: seq<string>, columns: nat, rows: nat, spans: seq<nat>)
    requires columns >= 1 && names != [] && IsGrid(names, columns, rows, spans)
    ensures rows == RowCount(|names|, columns) && spans == Spans(names, columns)
  {
    OneRowCount(|names|, columns, rows);
    SpansAreLeast(names, columns);
    forall c | 0 <= c < columns ensures spans[c] == Spans(names, columns)[c] {
      OneLeastSpan(names, columns, rows, c, spans[c], Spans(names, columns)[c]);
    }
  }

  lemma OneLeastSpan(names: seq<string>, columns: nat, rows: nat, column: nat, a: nat, b: nat)
    requires rows >= 1
    requires IsLeastSpan(names, columns, rows, column, |names|, a)
             && IsLeastSpan(names, columns, rows, column, |names|, b)
    ensures a == b
  {
  }

  /** A grid that a terminal of this width has room for: three characters to a column, and one free at the end. */
  ghost predicate HasRoom(names: seq<string>, width: int, columns: nat, spans: seq<nat>) {
    1 <= columns <= |names| && 3 * columns <= width && Sum(spans) < width
  }

  lemma FitsIsRoom(names: seq<string>, width: int, columns: nat)
    requires columns >= 1
    ensures Fits(names, width, columns) <==> HasRoom(names, width, columns, Spans(names, columns))
  {
  }

  /**
   * The layout for one width, of tab-free names: it is the grid with the largest number of columns that there is room
   * for, or one column when there is none; row `r` holds exactly the names `r`, `r + rows`, ...; and when there is room
   * every line is narrower than the terminal.
   */
  lemma LayoutIsRight(names: seq<string>, width: int, r: nat) returns (columns: nat, spans: seq<nat>)
    requires IsTabFree(names) && r < |Layout(names, width)|
    ensures columns == Chosen(names, width, |names|) && IsGrid(names, columns, |Layout(names, width)|, spans)
    ensures columns == 1 || HasRoom(names, width, columns, spans)
    ensures forall more, rows, wider :: more > columns && IsGrid(names, more, rows, wider) ==>
              !HasRoom(names, width, more, wider)
    ensures r < |names| && Holds(Layout(names, width)[r], names, spans, |Layout(names, width)|, r, 0, 0)
    ensures HasRoom(names, width, columns, spans) ==> Column(0, Layout(names, width)[r]) < width
  {
    columns, spans := Chosen(names, width, |names|), Spans(names, Chosen(names, width, |names|));
    RowIsRight(names, columns, r);
    SpansAreLeast(names, columns);
    FitsIsRoom(names, width, columns);
    forall more, rows, wider | more > columns && IsGrid(names, more, rows, wider)
      ensures !HasRoom(names, width, more, wider)
    {
      GridIsUnique(names, more, rows, wider);
      FitsIsRoom(names, width, more);
    }
  }

  /**
   * The cell in `row` and `column` of the grid holds the name `row + column * rows`, starting where the column starts.
   */
  lemma CellPlace(names: seq<string>, columns: nat, row: nat, column: nat, index: nat) returns (at: nat)
    requires IsTabFree(names) && columns >= 1 && row < RowCount(|names|, columns)
    requires index < |names| && index == row + column * RowCount(|names|, columns)
    ensures var line := Lines(names, columns)[row];
            && column < columns && at + |names[index]| <= |line| && line[at..at + |names[index]|] == names[index]
            && Column(0, line[..at]) == Sum(Spans(names, columns)[..column])
  {
    RowIsRight(names, columns, row);
    var spans, line := Spans(names, columns), Lines(names, columns)[row];
    at := NameStartsAtColumn(line, names, spans, RowCount(|names|, columns), row, 0, 0, column, index);
    assert spans[0..0 + column] == spans[..column];
  }

  /** Every name is printed, in one cell of the grid, at the display column its column starts at. */
  lemma NamePlace(names: seq<string>, width: int, index: nat) returns (row: nat, column: nat, at: nat)
    requires IsTabFree(names) && index < |names|
    ensures var columns := Chosen(names, width, |names|);
            && row < |Layout(names, width)| && column < columns && index == row + column * |Layout(names, width)|
            && var line := Layout(names, width)[row];
               && at + |names[index]| <= |line| && line[at..at + |names[index]|] == names[index]
               && Column(0, line[..at]) == Sum(Spans(names, columns)[..column])
  {
    var columns := Chosen(names, width, |names|);
    row, column := GridCell(|names|, columns, index);
    at := CellPlace(names, columns, row, column, index);
  }

  lemma GridCell(count: nat, columns: nat, index: nat) returns (row: nat, column: nat)
    requires columns >= 1 && index < count
    ensures row < RowCount(count, columns) && index == row + column * RowCount(count, columns)
  {
    GridPlace(count, columns, index);
    row, column := index % RowCount(count, columns), index / RowCount(count, columns);
  }

  lemma RowsAreNonEmpty(count: nat, columns: nat, r: nat)
    requires columns >= 1 && r < RowCount(count, columns)
    ensures r < count && r / RowCount(count, columns) == 0
  {
    var rows := RowCount(count, columns);
    assert rows * columns <= count + columns - 1;
    TooManyRows(rows, count, columns);
  }

  lemma TooManyRows(rows: nat, count: nat, columns: nat)
    requires columns >= 1 && rows * columns <= count + columns - 1
    ensures rows <= count
  {
    TimesIsMonotone(1, columns, count);
    assert (count + 1) * columns == count * columns + columns;
    if rows > count { TimesIsMonotone(count + 1, rows, columns); }
  }

  lemma TimesIsMonotone(a: nat, b: nat, factor: nat)
    requires a <= b
    ensures a * factor <= b * factor
  {
    assert (b - a) * factor >= 0;
  }

  // ---------------------------------------------------------------- the loops of the source

  /** The padding loop of `_columns_text`. */
  method PadLine(text: string, from: nat, goal: nat) returns (line: string)
    ensures line == text + Pad(from, goal)
  {
    line := text;
    var start := from;
    while start < goal
      invariant text + Pad(from, goal) == line + Pad(start, goal)
      decreases goal - start
    {
      if goal / TAB > (start + 1) / TAB {
        line := line + "\t";
        start := start + (TAB - start % TAB);
      } else {
        line := line + " ";
        start := start + 1;
      }
    }
  }

  lemma Regroup(before: string, name: string, gap: string, rest: string)
    ensures before + (name + gap + rest) == before + name + gap + rest
  {
  }

  lemma LineGoesOn(
    names: seq<string>, spans: seq<nat>, rows: nat, index: nat, column: nat, position: nat, line: string, all: string)
    requires rows >= 1 && index + rows < |names| && column < |spans|
    requires all == line + LineFrom(names, spans, rows, index, column, position)
    ensures var next := position + spans[column];
            all == line + names[index] + Pad(position + |names[index]|, next)
                   + LineFrom(names, spans, rows, index + rows, column + 1, next)
  {
    var next := position + spans[column];
    Regroup(line, names[index], Pad(position + |names[index]|, next),
            LineFrom(names, spans, rows, index + rows, column + 1, next));
  }

  lemma LineEnds(names: seq<string>, spans: seq<nat>, rows: nat, index: nat, column: nat, position: nat)
    requires rows >= 1 && index < |names| && (index + rows >= |names| || column >= |spans|)
    ensures LineFrom(names, spans, rows, index, column, position) == names[index]
  {
  }

  method RowText(names: seq<string>, spans: seq<nat>, rows: nat, row: nat) returns (line: string)
    requires rows >= 1
    ensures line == LineFrom(names, spans, rows, row, 0, 0)
  {
    line := "";
    ghost var all := LineFrom(names, spans, rows, row, 0, 0);
    var position: nat, column: nat, index: nat := 0, 0, row;
    while index < |names|
      invariant all == line + LineFrom(names, spans, rows, index, column, position)
      decreases |names| - index
    {
      var name := names[index];
      if index + rows >= |names| || column >= |spans| {
        LineEnds(names, spans, rows, index, column, position);
        return line + name;
      }
      var next := position + spans[column];
      LineGoesOn(names, spans, rows, index, column, position, line, all);
      line := PadLine(line + name, position + |name|, next);
      position, column, index := next, column + 1, index + rows;
    }
  }

  method ColumnsText(names: seq<string>, spans: seq<nat>, columns: nat) returns (lines: seq<string>)
    requires columns >= 1 && (columns == 1 || spans == Spans(names, columns))
    ensures lines == Lines(names, columns)
  {
    var rows := RowCount(|names|, columns);
    lines := [];
    for row := 0 to rows
      invariant |lines| == row
      invariant forall r :: 0 <= r < row ==> lines[r] == LineFrom(names, Spans(names, columns), rows, r, 0, 0)
    {
      if columns == 1 {
        OneColumnIgnoresSpans(names, spans, Spans(names, 1), row);
      }
      var line := RowText(names, spans, rows, row);
      lines := lines + [line];
    }
  }

  lemma OneColumnIgnoresSpans(names: seq<string>, spans: seq<nat>, others: seq<nat>, row: nat)
    requires RowCount(|names|, 1) >= 1
    ensures LineFrom(names, spans, RowCount(|names|, 1), row, 0, 0)
            == LineFrom(names, others, RowCount(|names|, 1), row, 0, 0)
  {
  }

  /** The inner loop of `ls_layouts`: one pass over the names, widening the column each falls in. */
  method ColumnSpans(names: seq<string>, columns: nat) returns (spans: seq<nat>)
    requires 1 <= columns <= |names|
    ensures spans == Spans(names, columns)
  {
    var rows := RowCount(|names|, columns);
    spans := seq(columns, _ => MIN_COLUMN_WIDTH);
    for index := 0 to |names|
      invariant |spans| == columns
      invariant forall c :: 0 <= c < columns ==> spans[c] == SpanUpTo(names, columns, c, index)
    {
      GridPlace(|names|, columns, index);
      var column := index / rows;
      spans := spans[column := Max(spans[column], |names[index]| + if column == columns - 1 then 0 else 2)];
    }
  }

  method MaxWidth(widths: seq<int>) returns (m: int)
    requires widths != []
    ensures forall i :: 0 <= i < |widths| ==> widths[i] <= m
  {
    m := widths[0];
    for i := 1 to |widths|
      invariant forall k :: 0 <= k < i ==> widths[k] <= m
    {
      m := Max(m, widths[i]);
    }
  }

  /** The first loop of `ls_layouts`: the spans of every number of columns worth trying. */
  method AllSpans(names: seq<string>, most: int) returns (fitting: map<nat, (seq<nat>, nat)>)
    requires most <= |names|
    ensures IsFitting(names, most, fitting)
  {
    fitting := map[];
    for columns := 1 to Max(most + 1, 1)
      invariant IsFitting(names, columns - 1, fitting)
    {
      var spans := ColumnSpans(names, columns);
      fitting := fitting[columns := (spans, Sum(spans))];
    }
  }

  ghost predicate IsFitting(names: seq<string>, most: int, fitting: map<nat, (seq<nat>, nat)>) {
    && (forall c :: c in fitting <==> 1 <= c <= most)
    && (forall c :: c in fitting ==> fitting[c] == (Spans(names, c), Sum(Spans(names, c))))
  }

  lemma WiderHasMore(width: int, widest: int)
    requires width <= widest
    ensures width / MIN_COLUMN_WIDTH <= widest / MIN_COLUMN_WIDTH
  {
  }

  /** The layout for each width is the layout for that width alone, whatever other widths are asked for. */
  method LsLayouts(names: seq<string>, widths: seq<int>) returns (out: map<int, seq<string>>)
    ensures forall w :: w in out <==> w in widths
    ensures forall w :: w in out ==> out[w] == Layout(names, w)
  {
    out := map[];
    if widths == [] { return; }
    var widest := MaxWidth(widths);
    var most := if |names| < widest / MIN_COLUMN_WIDTH then |names| else widest / MIN_COLUMN_WIDTH;
    var fitting := AllSpans(names, most);
    var rendered: map<nat, seq<string>> := map[];
    for i := 0 to |widths|
      invariant forall w :: w in out <==> w in widths[..i]
      invariant forall w :: w in out ==> out[w] == Layout(names, w)
      invariant forall c :: c in rendered ==> c >= 1 && rendered[c] == Lines(names, c)
    {
      var width := widths[i];
      WiderHasMore(width, widest);
      var columns := LargestFitting(names, width, most, fitting);
      if columns !in rendered {
        var lines := ColumnsText(names, if columns in fitting then fitting[columns].0 else [0], columns);
        rendered := rendered[columns := lines];
      }
      out := out[width := rendered[columns]];
      assert widths[..i + 1] == widths[..i] + [width];
    }
    assert widths[..|widths|] == widths;
  }

  method LargestFitting(names: seq<string>, width: int, most: int, fitting: map<nat, (seq<nat>, nat)>)
    returns (columns: nat)
    requires IsFitting(names, most, fitting)
    requires most <= |names| && (most == |names| || width / MIN_COLUMN_WIDTH <= most)
    ensures columns == Chosen(names, width, |names|) && (columns == 1 || columns in fitting)
  {
    columns := 1;
    for c := 1 to Max(most + 1, 1)
      invariant 1 <= columns && (columns == 1 || (columns < c && Fits(names, width, columns)))
      invariant forall d :: columns < d < c ==> !Fits(names, width, d)
    {
      if c <= width / MIN_COLUMN_WIDTH && fitting[c].1 < width {
        columns := c;
      }
    }
    ChosenIsUnique(names, width, |names|, columns);
  }

  lemma {:induction false} ChosenIsUnique(names: seq<string>, width: int, most: nat, columns: nat)
    requires columns == 1 || (1 <= columns <= most && Fits(names, width, columns))
    requires forall d :: columns < d <= most ==> !Fits(names, width, d)
    ensures columns == Chosen(names, width, most)
  {
  }
}
