/**
 * The output of a command stitched from its parts: `stitch_parts` of `src/albedo_eval_service/repo_context_client.py`.
 */
module Stitch {
  import opened Results
  import TextLines

  datatype Separator = Sequence | IfOk | IfFailed

  /** A part whose output and status are derived, or a gap to be answered. */
  datatype Part =
    | Exact(separator: Separator, output: string, returncode: Option<int>)
    | Gap(separator: Separator)

  /** The observation's body and exit status for a gap. */
  type Answer = nat -> (string, Option<int>)

  function Printed(parts: seq<Part>, answer: Answer, i: nat): string
    requires i < |parts|
  {
    if parts[i].Exact? then parts[i].output else if answer(i).0 == "" then "" else answer(i).0 + "\n"
  }

  function Known(parts: seq<Part>, answer: Answer, i: nat): Option<int>
    requires i < |parts|
  {
    if parts[i].Exact? then parts[i].returncode else answer(i).1
  }

  // ---------------------------------------------------------------- the shell (section 2.9.3 of POSIX.1-2017 XCU)

  /** An AND-OR list: the operators have the same precedence and group to the left. */
  datatype AndOr = Run(part: nat) | And(left: AndOr, right: nat) | Or(left: AndOr, right: nat)

  /** The AND-OR list of the parts from `first` up to `end`. */
  function Grouped(parts: seq<Part>, first: nat, end: nat): AndOr
    requires first < end <= |parts|
    decreases end
  {
    if end == first + 1 then Run(first)
    else if parts[end - 1].separator == IfOk then And(Grouped(parts, first, end - 1), end - 1)
    else Or(Grouped(parts, first, end - 1), end - 1)
  }

  /** Every part's exit status, known or not. */
  type Statuses = nat -> int

  /** The parts an AND-OR list runs, and its exit status: that of the last part it runs. */
  function Evaluate(list: AndOr, statuses: Statuses): (seq<nat>, int) {
    match list
    case Run(i) => ([i], statuses(i))
    case And(left, i) =>
      var (ran, status) := Evaluate(left, statuses);
      if status == 0 then (ran + [i], statuses(i)) else (ran, status)
    case Or(left, i) =>
      var (ran, status) := Evaluate(left, statuses);
      if status == 0 then (ran, status) else (ran + [i], statuses(i))
  }

  /** Where the AND-OR list that holds part `i` begins. */
  function ListStart(parts: seq<Part>, i: nat): (s: nat)
    requires i < |parts|
    ensures s <= i
  {
    if i == 0 || parts[i].separator == Sequence then i else ListStart(parts, i - 1)
  }

  /** What the shell runs of the first `n` parts: its AND-OR lists one after the other. */
  function Shell(parts: seq<Part>, n: nat, statuses: Statuses): (seq<nat>, Option<int>)
    requires n <= |parts|
    decreases n
  {
    if n == 0 then ([], None)
    else
      var first := ListStart(parts, n - 1);
      var (ran, status) := Evaluate(Grouped(parts, first, n), statuses);
      (Shell(parts, first, statuses).0 + ran, Some(status))
  }

  /** Statuses that agree with those that are known: of a part that was derived, or of the answer to a gap. */
  ghost predicate Completes(parts: seq<Part>, answer: Answer, statuses: Statuses) {
    forall i :: 0 <= i < |parts| ==> IsStatus(parts[i], answer(i).1, statuses(i))
  }

  predicate IsStatus(part: Part, answered: Option<int>, status: int) {
    match part
    case Exact(_, _, returncode) => returncode.Some? ==> returncode.value == status
    case Gap(_) => answered.Some? ==> answered.value == status
  }

  // ---------------------------------------------------------------- the stitching

  /** Which parts the loop has run after `n` parts and the status it holds, or None when it has given up. */
  function Stitched(parts: seq<Part>, answer: Answer, n: nat): (r: Option<(seq<nat>, Option<int>)>)
    requires n <= |parts|
    ensures r.Some? ==> forall k :: 0 <= k < |r.value.0| ==> r.value.0[k] < n
  {
    if n == 0 then Some(([], None))
    else
      var before, i := Stitched(parts, answer, n - 1), n - 1;
      if before.None? then None
      else
        var (ran, last) := before.value;
        var separator := if i == 0 then Sequence else parts[i].separator;
        if separator == Sequence then Some((ran + [i], Known(parts, answer, i)))
        else if last.None? then None
        else if (separator == IfOk) != (last.value == 0) then before
        else Some((ran + [i], Known(parts, answer, i)))
  }

  function TextOf(parts: seq<Part>, answer: Answer, ran: seq<nat>): string
    requires forall k :: 0 <= k < |ran| ==> ran[k] < |parts|
  {
    if ran == [] then "" else TextOf(parts, answer, ran[..|ran| - 1]) + Printed(parts, answer, ran[|ran| - 1])
  }

  function Glued(pieces: seq<string>): string {
    if pieces == [] then "" else Glued(pieces[..|pieces| - 1]) + pieces[|pieces| - 1]
  }

  /** What a part that runs prints: its output, or the body of the answer and a newline unless there is none. */
  predicate IsPrinted(part: Part, body: string, piece: string) {
    match part
    case Exact(_, output, _) => piece == output
    case Gap(_) => if body == "" then piece == "" else piece == body + "\n"
  }

  /** The text is what the parts print that run, one after the other. */
  lemma {:induction false} TextIs(parts: seq<Part>, answer: Answer, ran: seq<nat>) returns (pieces: seq<string>)
    requires forall k :: 0 <= k < |ran| ==> ran[k] < |parts|
    ensures |pieces| == |ran| && TextOf(parts, answer, ran) == Glued(pieces)
    ensures forall k :: 0 <= k < |ran| ==> IsPrinted(parts[ran[k]], answer(ran[k]).0, pieces[k])
  {
    if ran == [] {
      pieces := [];
    } else {
      var n := |ran| - 1;
      var before := TextIs(parts, answer, ran[..n]);
      pieces := OnePieceMore(parts, answer, ran, n, before, TextOf(parts, answer, ran[..n]));
    }
  }

  lemma OnePieceMore(parts: seq<Part>, answer: Answer, ran: seq<nat>, n: nat, before: seq<string>, text: string)
    returns (pieces: seq<string>)
    requires |ran| == n + 1 && ran[n] < |parts| && |before| == n && text == Glued(before)
    requires forall k :: 0 <= k < n ==> ran[k] < |parts| && IsPrinted(parts[ran[k]], answer(ran[k]).0, before[k])
    ensures |pieces| == n + 1 && Glued(pieces) == text + Printed(parts, answer, ran[n])
    ensures forall k :: 0 <= k <= n ==> ran[k] < |parts| && IsPrinted(parts[ran[k]], answer(ran[k]).0, pieces[k])
  {
    pieces := before + [Printed(parts, answer, ran[n])];
    assert pieces[..n] == before;
  }

  method StitchParts(parts: seq<Part>, answer: Answer) returns (r: Option<(string, Option<int>)>)
    ensures var s := Stitched(parts, answer, |parts|);
            r == if s.None? then None else Some((TextLines.WithoutLastBreak(TextOf(parts, answer, s.value.0)),
                s.value.1))
  {
    var text := "";
    var last: Option<int> := None;
    ghost var ran: seq<nat> := [];
    for index := 0 to |parts|
      invariant Stitched(parts, answer, index) == Some((ran, last))
      invariant (forall k :: 0 <= k < |ran| ==> ran[k] < index) && text == TextOf(parts, answer, ran)
    {
      var part := parts[index];
      var separator := if index == 0 then Sequence else part.separator;
      if separator != Sequence {
        if last.None? {
          GaveUp(parts, answer, index + 1);
          return None;
        }
        if (separator == IfOk) != (last.value == 0) { continue; }
      }
      if part.Gap? {
        var (body, status) := answer(index);
        last := status;
        text := text + if body == "" then "" else body + "\n";
      } else {
        last := part.returncode;
        text := text + part.output;
      }
      assert (ran + [index])[..|ran|] == ran;
      ran := ran + [index];
    }
    r := Some((TextLines.WithoutLastBreak(text), last));
  }

  lemma {:induction false} GaveUp(parts: seq<Part>, answer: Answer, n: nat)
    requires n <= |parts| && Stitched(parts, answer, n).None?
    ensures Stitched(parts, answer, |parts|).None?
    decreases |parts| - n
  {
    if n < |parts| { GaveUp(parts, answer, n + 1); }
  }

  // ---------------------------------------------------------------- one list at a time is one part at a time

  /** The shell's rule for one part more. */
  lemma OnePartMore(parts: seq<Part>, n: nat, statuses: Statuses)
    requires n < |parts|
    ensures var (ran, last) := Shell(parts, n, statuses);
            Shell(parts, n + 1, statuses)
            == if n == 0 || parts[n].separator == Sequence
                || (last.Some? && ((parts[n].separator == IfOk) <==> last.value == 0))
               then (ran + [n], Some(statuses(n))) else (ran, last)
    ensures n > 0 ==> Shell(parts, n, statuses).1.Some?
  {
    if n > 0 && parts[n].separator != Sequence {
      var first := ListStart(parts, n - 1);
      var (ran, status) := Evaluate(Grouped(parts, first, n), statuses);
      var before := Shell(parts, first, statuses).0;
      assert before + (ran + [n]) == before + ran + [n];
    } else {
      assert Shell(parts, n, statuses).0 + [n] == Shell(parts, n + 1, statuses).0;
    }
  }

  /** While the stitching goes on, every completion of the unknown statuses runs exactly the parts it runs. */
  lemma {:induction false} EveryCompletionAgrees(parts: seq<Part>, answer: Answer, n: nat, statuses: Statuses)
    requires n <= |parts| && Completes(parts, answer, statuses) && Stitched(parts, answer, n).Some?
    ensures var (ran, last) := Stitched(parts, answer, n).value;
            && Shell(parts, n, statuses).0 == ran
            && (last.Some? ==> Shell(parts, n, statuses).1 == last)
            && (last.None? && n > 0 ==> ran != [] && Shell(parts, n, statuses).1 == Some(statuses(ran[|ran| - 1])))
    decreases n
  {
    if n > 0 {
      assert Stitched(parts, answer, n - 1).Some?;
      EveryCompletionAgrees(parts, answer, n - 1, statuses);
      OnePartMore(parts, n - 1, statuses);
      if n - 1 > 0 && Stitched(parts, answer, n - 1).value.1.None? { MissingStatus(parts, answer, n - 1); }
    }
  }

  /** The last part that ran is the one whose status is missing. */
  lemma {:induction false} MissingStatus(parts: seq<Part>, answer: Answer, n: nat)
    requires 0 < n <= |parts| && Stitched(parts, answer, n).Some? && Stitched(parts, answer, n).value.1.None?
    ensures var ran := Stitched(parts, answer, n).value.0;
            ran != [] && Known(parts, answer, ran[|ran| - 1]).None?
    decreases n
  {
  }

  /** The known statuses, and `missing` for those that are not. */
  function Filled(parts: seq<Part>, answer: Answer, missing: int): Statuses {
    (i: nat) => if i < |parts| && Known(parts, answer, i).Some? then Known(parts, answer, i).value else missing
  }

  /** Giving up at part `k`: with the missing status zero it runs or not, with the missing status one the other way. */
  lemma {:induction false} GivesUpWhenItMatters(parts: seq<Part>, answer: Answer, n: nat) returns (k: nat)
    requires n <= |parts| && Stitched(parts, answer, n).None?
    ensures k < n
    ensures k in Shell(parts, k + 1, Filled(parts, answer, 0)).0 <==>
            k !in Shell(parts, k + 1, Filled(parts, answer, 1)).0
    decreases n
  {
    if Stitched(parts, answer, n - 1).None? {
      k := GivesUpWhenItMatters(parts, answer, n - 1);
    } else {
      k := n - 1;
      var zero, one := Filled(parts, answer, 0), Filled(parts, answer, 1);
      EveryCompletionAgrees(parts, answer, k, zero);
      EveryCompletionAgrees(parts, answer, k, one);
      MissingStatus(parts, answer, k);
      OnePartMore(parts, k, zero);
      OnePartMore(parts, k, one);
      assert k !in Stitched(parts, answer, k).value.0;
    }
  }

  /** A part runs or not by the time it is reached: what comes after does not change it. */
  lemma {:induction false} LaterPartsDoNotMatter(parts: seq<Part>, k: nat, n: nat, statuses: Statuses)
    requires k < n <= |parts|
    ensures k in Shell(parts, n, statuses).0 <==> k in Shell(parts, k + 1, statuses).0
    decreases n
  {
    if k + 1 < n {
      LaterPartsDoNotMatter(parts, k, n - 1, statuses);
      OnePartMore(parts, n - 1, statuses);
    }
  }

  /** Whether two completions of the unknown statuses differ on whether some part runs. */
  ghost predicate Undecided(parts: seq<Part>, answer: Answer) {
    exists x: Statuses, y: Statuses, k: nat :: DiffersAt(parts, answer, x, y, k)
  }

  ghost predicate DiffersAt(parts: seq<Part>, answer: Answer, x: Statuses, y: Statuses, k: nat) {
    && Completes(parts, answer, x) && Completes(parts, answer, y)
    && k in Shell(parts, |parts|, x).0 && k !in Shell(parts, |parts|, y).0
  }

  /**
   * An answer is withheld exactly when the unknown statuses decide what runs; otherwise, however they turn out, the
   * shell runs the stitched parts, so prints the stitched text, and ends with the stitched status if there is one.
   */
  lemma StitchingIsRight(parts: seq<Part>, answer: Answer)
    ensures Stitched(parts, answer, |parts|).None? <==> Undecided(parts, answer)
    ensures forall statuses :: Stitched(parts, answer, |parts|).Some? && Completes(parts, answer, statuses) ==>
              var (ran, last) := Stitched(parts, answer, |parts|).value;
              Shell(parts, |parts|, statuses).0 == ran && (last.Some? ==> Shell(parts, |parts|, statuses).1 == last)
  {
    if Stitched(parts, answer, |parts|).Some? {
      forall statuses | Completes(parts, answer, statuses)
        ensures var (ran, last) := Stitched(parts, answer, |parts|).value;
                Shell(parts, |parts|, statuses).0 == ran && (last.Some? ==> Shell(parts, |parts|, statuses).1 == last)
      {
        EveryCompletionAgrees(parts, answer, |parts|, statuses);
      }
    } else {
      var k := GivesUpWhenItMatters(parts, answer, |parts|);
      var zero, one := Filled(parts, answer, 0), Filled(parts, answer, 1);
      LaterPartsDoNotMatter(parts, k, |parts|, zero);
      LaterPartsDoNotMatter(parts, k, |parts|, one);
      assert DiffersAt(parts, answer, zero, one, k) || DiffersAt(parts, answer, one, zero, k);
    }
  }
}
