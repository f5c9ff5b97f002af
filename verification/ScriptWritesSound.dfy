/** That the analysis of `ScriptWrites` finds exactly what a program writes. */
module ScriptWritesSound {
  import opened Results
  import opened ScriptWrites
  import opened ScriptRun
  import opened ScriptValues

  // ---------------------------------------------------------------- a known value is the value of the run

  /** How well each name's text is known. */
  type Levels = map<string, Level>

  ghost predicate Knows(env: Env, levels: Levels, run: RunEnv, w: World) {
    forall id :: id in env && env[id].Some? ==> IsNameKnown(id, env[id], levels, run, w)
  }

  ghost predicate IsNameKnown(id: string, v: Values, levels: Levels, run: RunEnv, w: World) {
    id in levels && id in run && IsKnown(v, levels[id], run[id], w)
  }

  /** How well the pieces from `position` on are known when put behind `before`; each must be followed as one text. */
  function LevelFrom(
    pieces: seq<Values>, grades: seq<Option<Level>>, position: nat, before: string, known: Level,
    slash: bool): Option<Level>
    requires position <= |pieces| == |grades| && forall i :: 0 <= i < |pieces| ==> pieces[i].Some?
    decreases |pieces| - position
  {
    if position == |pieces| then Some(known)
    else if |pieces[position].value| != 1 || grades[position].None? then None
    else
      var piece, glue := pieces[position].value[0], slash && position > 0;
      var next := NextLevel(before, known, piece, grades[position].value, glue);
      if next.None? then None else LevelFrom(pieces, grades, position + 1, Glue(before, piece, glue), next.value, slash)
  }

  function CombinedLevel(pieces: seq<Values>, grades: seq<Option<Level>>, slash: bool): Option<Level>
    requires |pieces| == |grades|
  {
    if exists i :: 0 <= i < |pieces| && pieces[i].None? then Some(Exact)
    else LevelFrom(pieces, grades, 0, "", Exact, slash)
  }

  ghost function LevelOfCall(call: string, v: Values, g: Option<Level>, w: World): Option<Level> {
    if g.None? || v.None? || |v.value| != 1 then None else CalledLevel(call, v.value[0], g.value, w)
  }

  /**
   * How well an expression's value is known if it is followed, or None when the analysis may be wrong about it: a NUL
   * in a literal, a temporary path or another place appended to something, a call that returns another path, and
   * `.name` of anything but a temporary file or directory object.
   */
  ghost function Grade(e: Expr, env: Env, levels: Levels, w: World): Option<Level> {
    if Value(e, env).None? then Some(Exact)
    else
      match e
      case Str(text) => if IsPlain(text) then Some(Exact) else None
      case Name(id) => if id in levels then Some(levels[id]) else None
      case FString(parts) => CombinedLevel(ValueOfEach(parts, env), GradeOfEach(parts, env, levels, w), false)
      case Add(l, r) =>
        CombinedLevel([Value(l, env), Value(r, env)], [Grade(l, env, levels, w), Grade(r, env, levels, w)], false)
      case Div(l, r) =>
        var joined := CombinedLevel([Value(l, env), Value(r, env)],
                                    [Grade(l, env, levels, w), Grade(r, env, levels, w)], true);
        LevelOfCall("Path", Value(e, env), joined, w)
      case Temp(kind) => Some(if kind.TemporaryName? then Exact else Object(kind))
      case Cwd => if IsHere(w) then Some(Place) else None
      case Same(call, a) => LevelOfCall(call, Value(a, env), Grade(a, env, levels, w), w)
      case Join(args) => CombinedLevel(ValueOfEach(args, env), GradeOfEach(args, env, levels, w), true)
      case NameOf(f) =>
        var g := Grade(f, env, levels, w);
        if g.Some? && g.value.Object? && HasName(g.value.kind) then Some(Exact) else None
      case _ => Some(Exact)
  }

  ghost function GradeOfEach(es: seq<Expr>, env: Env, levels: Levels, w: World): (r: seq<Option<Level>>)
    ensures |r| == |es|
    ensures forall i :: 0 <= i < |es| ==> r[i] == Grade(es[i], env, levels, w)
  {
    if es == [] then [] else [Grade(es[0], env, levels, w)] + GradeOfEach(es[1..], env, levels, w)
  }

  /** The working directory is `.`. */
  ghost predicate IsHere(w: World) {
    forall at :: IsPlace(".", w.cwd(at), w)
  }

  lemma {:induction false} CombineKnown(
    pieces: seq<Values>, grades: seq<Option<Level>>, values: seq<RunValue>, position: nat, out: string, known: Level,
    run: RunValue, slash: bool, w: World, at: Position)
    requires position <= |pieces| == |grades| == |values| && forall i :: 0 <= i < |pieces| ==> pieces[i].Some?
    requires forall i :: 0 <= i < |pieces| ==> IsPieceKnown(pieces[i], grades[i], values[i], w)
    requires run.Text? && Names(out, known, run, w) && IsReal(w)
    requires LevelFrom(pieces, grades, position, out, known, slash).Some?
    ensures CombineFrom(pieces, position, [out], slash).Some?
    ensures IsKnown(CombineFrom(pieces, position, [out], slash),
                    LevelFrom(pieces, grades, position, out, known, slash).value,
                    RunCombine(values, position, run, slash, w, at), w)
    decreases |pieces| - position
  {
    if position < |pieces| {
      var piece, glue := pieces[position].value[0], slash && position > 0;
      var g, text := grades[position].value, AsText(values[position], w, at + [position]);
      assert IsPieceKnown(pieces[position], grades[position], values[position], w);
      var next := NextLevel(out, known, piece, g, glue).value;
      GlueKnown(out, known, piece, g, run, values[position], glue, w);
      ProductOfOne(out, pieces[position].value, glue);
      CombineKnown(pieces, grades, values, position + 1, Glue(out, piece, glue), next, RunGlue(run, text, glue), slash,
                   w, at);
    }
  }

  ghost predicate IsPieceKnown(v: Values, g: Option<Level>, r: RunValue, w: World) {
    g.Some? ==> IsKnown(v, g.value, r, w)
  }

  lemma ProductOfOne(out: string, piece: seq<string>, slash: bool)
    requires |piece| == 1
    ensures Product([out], piece, slash) == [Glue(out, piece[0], slash)]
  {
    assert [out][1..] == [];
  }

  lemma CombineIsKnown(
    pieces: seq<Values>, grades: seq<Option<Level>>, values: seq<RunValue>, slash: bool, w: World, at: Position)
    requires |pieces| == |grades| == |values| && IsReal(w) && CombinedLevel(pieces, grades, slash).Some?
    requires forall i :: 0 <= i < |pieces| ==> IsPieceKnown(pieces[i], grades[i], values[i], w)
    ensures IsKnown(Combine(pieces, slash), CombinedLevel(pieces, grades, slash).value,
                    RunCombine(values, 0, Text("", None), slash, w, at), w)
  {
    if forall i :: 0 <= i < |pieces| ==> pieces[i].Some? {
      CombineKnown(pieces, grades, values, 0, "", Exact, Text("", None), slash, w, at);
    }
  }

  /**
   * The text the analysis knows of an expression, if any, is right: it is the text of the run or names the same place,
   * as its level says.
   */
  lemma {:induction false} ValueIsKnown(e: Expr, env: Env, levels: Levels, run: RunEnv, w: World, at: Position)
    requires Grade(e, env, levels, w).Some? && Knows(env, levels, run, w) && IsReal(w)
    ensures IsKnown(Value(e, env), Grade(e, env, levels, w).value, Eval(e, run, w, at), w)
    decreases e
  {
    if Value(e, env).Some? {
      match e
      case Name(id) => assert IsNameKnown(id, env[id], levels, run, w);
      case FString(parts) => PartsAreKnown(e, parts, false, env, levels, run, w, at);
      case Join(args) => PartsAreKnown(e, args, true, env, levels, run, w, at);
      case Add(l, r) => PairIsKnown(e, l, r, false, env, levels, run, w, at);
      case Div(l, r) => QuotientIsKnown(e, l, r, env, levels, run, w, at);
      case Temp(kind) => TempIsKnown(kind, w, at);
      case Same(call, a) =>
        assert Children(e)[0] == a;
        ValueIsKnown(a, env, levels, run, w, at + [0]);
        CallKnown(call, Value(a, env).value[0], Grade(a, env, levels, w).value, Eval(a, run, w, at + [0]), w, at);
      case NameOf(f) =>
        assert Children(e)[0] == f;
        ValueIsKnown(f, env, levels, run, w, at + [0]);
        NameNames(Grade(f, env, levels, w).value, Eval(f, run, w, at + [0]), w, at);
      case _ =>
    }
  }

  lemma TempIsKnown(kind: Temporary, w: World, at: Position)
    ensures kind.TemporaryName? ==> IsExact(TEMPORARY, Text(w.temp(at), Some(at)), w)
  {
    assert Beyond(TEMPORARY) == "" && w.temp(at) + "" == w.temp(at);
  }

  lemma PartsAreKnown(
    e: Expr, es: seq<Expr>, slash: bool, env: Env, levels: Levels, run: RunEnv, w: World, at: Position)
    requires es == Children(e) && Knows(env, levels, run, w) && IsReal(w)
    requires CombinedLevel(ValueOfEach(es, env), GradeOfEach(es, env, levels, w), slash).Some?
    ensures IsKnown(Combine(ValueOfEach(es, env), slash),
                    CombinedLevel(ValueOfEach(es, env), GradeOfEach(es, env, levels, w), slash).value,
                    RunCombine(EvalEach(es, run, w, at), 0, Text("", None), slash, w, at), w)
    decreases e, 0
  {
    var values, grades, texts := ValueOfEach(es, env), GradeOfEach(es, env, levels, w), EvalEach(es, run, w, at);
    forall i | 0 <= i < |es| ensures IsPieceKnown(values[i], grades[i], texts[i], w) {
      if grades[i].Some? { ValueIsKnown(es[i], env, levels, run, w, at + [i]); }
    }
    CombineIsKnown(values, grades, texts, slash, w, at);
  }

  lemma PairIsKnown(
    e: Expr, l: Expr, r: Expr, slash: bool, env: Env, levels: Levels, run: RunEnv, w: World, at: Position)
    requires Children(e) == [l, r] && Knows(env, levels, run, w) && IsReal(w)
    requires CombinedLevel([Value(l, env), Value(r, env)], [Grade(l, env, levels, w), Grade(r, env, levels, w)],
                           slash).Some?
    ensures var pieces, grades := [Value(l, env), Value(r, env)], [Grade(l, env, levels, w), Grade(r, env, levels, w)];
            var values := [Eval(l, run, w, at + [0]), Eval(r, run, w, at + [1])];
            IsKnown(Combine(pieces, slash), CombinedLevel(pieces, grades, slash).value,
                    RunCombine(values, 0, Text("", None), slash, w, at), w)
    decreases e, 0
  {
    assert Children(e)[0] == l && Children(e)[1] == r;
    if Grade(l, env, levels, w).Some? { ValueIsKnown(l, env, levels, run, w, at + [0]); }
    if Grade(r, env, levels, w).Some? { ValueIsKnown(r, env, levels, run, w, at + [1]); }
    CombineIsKnown([Value(l, env), Value(r, env)], [Grade(l, env, levels, w), Grade(r, env, levels, w)],
                   [Eval(l, run, w, at + [0]), Eval(r, run, w, at + [1])], slash, w, at);
  }

  lemma QuotientIsKnown(e: Expr, l: Expr, r: Expr, env: Env, levels: Levels, run: RunEnv, w: World, at: Position)
    requires e == Div(l, r) && Grade(e, env, levels, w).Some? && Value(e, env).Some?
    requires Knows(env, levels, run, w) && IsReal(w)
    ensures IsKnown(Value(e, env), Grade(e, env, levels, w).value, Eval(e, run, w, at), w)
    decreases e, 1
  {
    PairIsKnown(e, l, r, true, env, levels, run, w, at);
    var grades := [Grade(l, env, levels, w), Grade(r, env, levels, w)];
    var joined := CombinedLevel([Value(l, env), Value(r, env)], grades, true).value;
    var values := [Eval(l, run, w, at + [0]), Eval(r, run, w, at + [1])];
    CallKnown("Path", Value(e, env).value[0], joined, RunCombine(values, 0, Text("", None), true, w, at), w, at);
  }

  // ---------------------------------------------------------------- expressions the analysis follows

  /** No `open` anywhere in the expression. */
  predicate OpensNothing(e: Expr)
    decreases e
  {
    !e.Open? && !e.OpenKeyword? && forall i :: 0 <= i < |Children(e)| ==> OpensNothing(Children(e)[i])
  }

  /**
   * The expressions the analysis promises to follow: values it may know, known paths where files are opened, no `open`
   * with its path as a keyword that writes, and conditionals only where nothing is opened.
   */
  ghost predicate IsClean(e: Expr, env: Env, levels: Levels, w: World, norm: string -> string)
    decreases e, 1
  {
    if e.IfElse? then OpensNothing(e)
    else
      && AreClean(e, Children(e), env, levels, w, norm)
      && Grade(e, env, levels, w).Some? && OpensRight(e, env, levels, w, norm)
  }

  ghost predicate AreClean(of: Expr, es: seq<Expr>, env: Env, levels: Levels, w: World, norm: string -> string)
    requires forall i :: 0 <= i < |es| ==> es[i] < of
    decreases of, 0
  {
    forall i :: 0 <= i < |es| ==> IsClean(es[i], env, levels, w, norm)
  }

  ghost predicate OpensRight(e: Expr, env: Env, levels: Levels, w: World, norm: string -> string) {
    match e
    case Open(path, Some(mode)) =>
      && (Value(mode, env).Some? ==> Grade(mode, env, levels, w) == Some(Exact))
      && (OpensForWriting(Value(mode, env)) && Value(path, env).Some? ==>
            && Grade(path, env, levels, w).Some?
            && IsPathRight(Value(path, env).value, Grade(path, env, levels, w).value, w, norm))
    case OpenKeyword(_, mode) => mode.Str? && !OpensToWrite(mode.text)
    case _ => true
  }

  /** A known path is recorded for the file that is opened. */
  ghost predicate IsPathRight(path: seq<string>, g: Level, w: World, norm: string -> string) {
    |path| == 1 && !g.Object? && IsRecordedRight(path[0], w, norm) && (g.Exact? ==> IsSteady(path[0], w))
  }

  // ---------------------------------------------------------------- one expression's writes

  /** The files recorded as surely written: those the recorded paths name. */
  function Surely(written: seq<(string, bool)>, w: World): multiset<string> {
    if written == [] then multiset{}
    else
      var (path, surely) := written[|written| - 1];
      Surely(written[..|written| - 1], w) + if surely then multiset{w.file(path, START)} else multiset{}
  }

  predicate AllSure(written: seq<(string, bool)>) {
    forall i :: 0 <= i < |written| ==> written[i].1
  }

  lemma {:induction false} SurelyConcat(a: seq<(string, bool)>, b: seq<(string, bool)>, w: World)
    ensures Surely(a + b, w) == Surely(a, w) + Surely(b, w)
  {
    if b == [] {
      assert a + b == a;
    } else {
      assert (a + b)[..|a + b| - 1] == a + b[..|b| - 1];
      SurelyConcat(a, b[..|b| - 1], w);
    }
  }

  /**
   * The analysis of one thing against a run of it: unless untraceable, exactly the files written are recorded, all as
   * sure.
   */
  predicate Matches(found: Writes, run: multiset<string>, w: World, literal: bool) {
    !found.untraceable ==>
      && AllSure(found.written) && run <= Surely(found.written, w)
      && (literal ==> run == Surely(found.written, w))
  }

  lemma MatchesBoth(a: Writes, b: Writes, runA: multiset<string>, runB: multiset<string>, w: World, literal: bool)
    requires Matches(a, runA, w, literal) && Matches(b, runB, w, literal)
    ensures Matches(a.Then(b), runA + runB, w, literal)
  {
    SurelyConcat(a.written, b.written, w);
  }

  lemma MatchesNothing(w: World, literal: bool)
    ensures Matches(NOTHING, multiset{}, w, literal)
  {
  }

  /** A literal mode, and one that `open` takes. */
  predicate IsLiteralMode(e: Expr) { e.Open? && e.mode.Some? ==> e.mode.value.Str? && IsMode(e.mode.value.text) }

  predicate HasLiteralModes(e: Expr)
    decreases e
  {
    IsLiteralMode(e) && forall i :: 0 <= i < |Children(e)| ==> HasLiteralModes(Children(e)[i])
  }

  /** Names of files stay names of files: `posixpath.normpath` puts no NUL into a path. */
  ghost predicate KeepsPlain(norm: string -> string) {
    forall s :: IsPlain(s) ==> IsPlain(norm(s))
  }

  lemma OneRecorded(v: string, norm: string -> string)
    requires KeepsPlain(norm) && (IsMarked(v) || IsPlain(v))
    ensures RecordedEach([v], true, norm) == if IsMarked(v) then [] else [(norm(v), true)]
  {
    assert [v][1..] == [];
    assert Recorded(v, true, norm) + [] == Recorded(v, true, norm);
    if !IsMarked(v) && IsMarked(norm(v)) { MarkedIsNotPlain(norm(v)); }
  }

  lemma OneSure(path: string, w: World)
    ensures Surely([(path, true)], w) == multiset{w.file(path, START)} && AllSure([(path, true)])
  {
    assert [(path, true)][..0] == [];
  }

  lemma {:induction false} OccursIn(mode: string, c: char)
    ensures Occurrences(mode, c) > 0 <==> c in mode
  {
    if mode != "" {
      OccursIn(mode[1..], c);
      assert mode == [mode[0]] + mode[1..];
    }
  }

  /** Looking for one of four letters tells the modes that write from those that read, if the mode is one at all. */
  lemma ModesAgree(mode: string)
    ensures OpensToWrite(mode) ==> IsWriteMode(mode)
    ensures IsMode(mode) ==> (OpensToWrite(mode) <==> IsWriteMode(mode))
  {
    if IsMode(mode) {
      OccursIn(mode, 'r');
      OccursIn(mode, 'w');
      OccursIn(mode, 'a');
      OccursIn(mode, 'x');
      OccursIn(mode, '+');
      FourLetters(mode);
    }
  }

  lemma FourLetters(mode: string)
    ensures IsWriteMode(mode) <==> 'w' in mode || 'a' in mode || 'x' in mode || '+' in mode
  {
    assert "wax+"[0] == 'w' && "wax+"[1] == 'a' && "wax+"[2] == 'x' && "wax+"[3] == '+';
  }

  /** A known mode decides whether the file is written; one that names a temporary directory counts as writing. */
  lemma ModeDecides(mode: seq<string>, m: RunValue, w: World)
    requires IsKnown(Some(mode), Exact, m, w)
    ensures OpensToWrite(m.text) ==> OpensForWriting(Some(mode))
    ensures m.under.None? && IsMode(m.text) ==> (OpensToWrite(m.text) <==> OpensForWriting(Some(mode)))
  {
    if m.under.Some? {
      MarkerIsNotPlain();
      assert mode[0][7] == mode[0][..|TEMPORARY|][7] == 'a' == "wax+"[1];
      assert IsWriteMode(mode[0]);
    } else {
      ModesAgree(m.text);
      assert mode[0] == m.text;
    }
  }

  /** What is recorded for a right path is the file opened, unless that is temporary. */
  lemma PathRecorded(path: seq<string>, g: Level, p: RunValue, w: World, at: Position, norm: string -> string)
    requires IsKnown(Some(path), g, p, w) && IsPathRight(path, g, w, norm) && KeepsPlain(norm) && IsReal(w)
    ensures p.Text? && AllSure(RecordedEach(path, true, norm))
    ensures var file := w.file(p.text, at);
            Surely(RecordedEach(path, true, norm), w) == if w.isTemporary(file) then multiset{} else multiset{file}
  {
    var v := path[0];
    assert path == [v];
    FileOfKnown(v, g, p, w, at);
    if p.under.Some? { MarkedIsNotPlain(v); } else if IsMarked(v) { MarkedIsNotPlain(v); }
    OneRecorded(v, norm);
    if !IsMarked(v) { OneSure(norm(v), w); }
  }

  lemma FileOfKnown(v: string, g: Level, p: RunValue, w: World, at: Position)
    requires Names(v, g, p, w) && !g.Object? && (g.Exact? ==> IsSteady(v, w))
    ensures SameFile(p.text, at, Base(v, p.under, w), w)
  {
  }

  /** What opening `path` under `mode` adds, and what it writes when run. */
  lemma OpenMatches(
    mode: Values, path: Values, g: Level, m: RunValue, p: RunValue, w: World, at: Position, norm: string -> string,
    literal: bool)
    requires IsKnown(mode, Exact, m, w) && IsKnown(path, g, p, w) && KeepsPlain(norm) && IsReal(w)
    requires OpensForWriting(mode) && path.Some? ==> IsPathRight(path.value, g, w, norm)
    requires literal ==> mode.Some? && m.Text? && m.under.None? && IsMode(m.text)
    ensures Matches(OpenFound(mode, path, true, norm), WritesOfOpen(m, p, w, at), w, literal)
  {
    if mode.Some? { ModeDecides(mode.value, m, w); }
    if OpensForWriting(mode) && path.Some? { PathRecorded(path.value, g, p, w, at, norm); }
  }

  lemma NodeMatches(
    e: Expr, env: Env, levels: Levels, run: RunEnv, w: World, at: Position, norm: string -> string)
    requires IsClean(e, env, levels, w, norm) && !e.IfElse? && Knows(env, levels, run, w) && IsReal(w)
             && KeepsPlain(norm)
    ensures Matches(CallOf(e, env, true, norm), OwnWrites(e, run, w, at), w, IsLiteralMode(e))
  {
    match e
    case Open(path, Some(mode)) =>
      assert IsClean(Children(e)[0], env, levels, w, norm) && Children(e)[0] == path;
      assert Value(path, env).Some? ==> !path.IfElse?;
      OpenPartsKnown(path, mode, env, levels, run, w, at);
      OpenMatches(Value(mode, env), Value(path, env), PathLevel(path, env, levels, w), Eval(mode, run, w, at + [1]),
                  Eval(path, run, w, at + [0]), w, at, norm, mode.Str? && IsMode(mode.text));
    case OpenKeyword(path, mode) => MatchesNothing(w, IsLiteralMode(e));
    case _ => MatchesNothing(w, IsLiteralMode(e));
  }

  ghost function PathLevel(path: Expr, env: Env, levels: Levels, w: World): Level {
    var g := Grade(path, env, levels, w);
    if g.Some? then g.value else Exact
  }

  lemma OpenPartsKnown(
    path: Expr, mode: Expr, env: Env, levels: Levels, run: RunEnv, w: World, at: Position)
    requires Knows(env, levels, run, w) && IsReal(w)
    requires Value(mode, env).Some? ==> Grade(mode, env, levels, w) == Some(Exact)
    requires Value(path, env).Some? ==> Grade(path, env, levels, w).Some?
    ensures IsKnown(Value(mode, env), Exact, Eval(mode, run, w, at + [1]), w)
    ensures IsKnown(Value(path, env), PathLevel(path, env, levels, w), Eval(path, run, w, at + [0]), w)
  {
    if Value(mode, env).Some? { ValueIsKnown(mode, env, levels, run, w, at + [1]); }
    if Value(path, env).Some? { ValueIsKnown(path, env, levels, run, w, at + [0]); }
  }

  // ---------------------------------------------------------------- all nodes of an expression

  /** What the nodes of an expression add, taken in the order of the tree instead of the walk. */
  function TreeCalls(e: Expr, env: Env, norm: string -> string): Writes
    decreases e, 1
  {
    TreeCallsOfEach(e, Children(e), env, norm).Then(CallOf(e, env, true, norm))
  }

  function TreeCallsOfEach(of: Expr, es: seq<Expr>, env: Env, norm: string -> string): Writes
    requires forall i :: 0 <= i < |es| ==> es[i] < of
    decreases of, 0, |es|
  {
    if es == [] then NOTHING
    else TreeCallsOfEach(of, es[..|es| - 1], env, norm).Then(TreeCalls(es[|es| - 1], env, norm))
  }

  function TreeCallsOfAll(es: seq<Expr>, env: Env, norm: string -> string): Writes {
    if es == [] then NOTHING else TreeCallsOfAll(es[..|es| - 1], env, norm).Then(TreeCalls(es[|es| - 1], env, norm))
  }

  /** The same changes, whatever their order. */
  predicate SameCalls(a: Writes, b: Writes) {
    SameElements(a.written, b.written) && a.untraceable == b.untraceable
  }

  predicate SameElements(a: seq<(string, bool)>, b: seq<(string, bool)>) { multiset(a) == multiset(b) }

  lemma {:induction false} TreeCallsConcat(a: seq<Expr>, b: seq<Expr>, env: Env, norm: string -> string)
    ensures TreeCallsOfAll(a + b, env, norm) == TreeCallsOfAll(a, env, norm).Then(TreeCallsOfAll(b, env, norm))
    decreases |b|
  {
    if b == [] {
      assert a + b == a;
      ThenAssociates(TreeCallsOfAll(a, env, norm), NOTHING, NOTHING);
    } else {
      var init, last := b[..|b| - 1], b[|b| - 1];
      TreeCallsConcat(a, init, env, norm);
      assert (a + b)[..|a + b| - 1] == a + init;
      ThenAssociates(TreeCallsOfAll(a, env, norm), TreeCallsOfAll(init, env, norm), TreeCalls(last, env, norm));
    }
  }

  lemma {:induction false} SameTreeCalls(of: Expr, es: seq<Expr>, env: Env, norm: string -> string)
    requires forall i :: 0 <= i < |es| ==> es[i] < of
    ensures TreeCallsOfEach(of, es, env, norm) == TreeCallsOfAll(es, env, norm)
    decreases |es|
  {
    if es != [] { SameTreeCalls(of, es[..|es| - 1], env, norm); }
  }

  lemma CallsRegroup(own: Writes, walked: Writes, rest: Writes, below: Writes)
    requires SameCalls(walked, rest.Then(below))
    ensures SameCalls(own.Then(walked), below.Then(own).Then(rest))
  {
  }

  lemma OneTree(e: Expr, env: Env, norm: string -> string)
    ensures TreeCallsOfAll([e], env, norm)
         == TreeCallsOfAll(Children(e), env, norm).Then(CallOf(e, env, true, norm))
  {
    SameTreeCalls(e, Children(e), env, norm);
    assert [e][..0] == [];
    ThenAfterNothing(TreeCalls(e, env, norm));
  }

  lemma ThenAfterNothing(a: Writes)
    ensures NOTHING.Then(a) == a
  {
  }

  lemma SameAsWell(a: Writes, b: Writes, c: Writes)
    requires SameCalls(a, b) && SameCalls(c, b)
    ensures SameCalls(a, c)
  {
  }

  lemma FirstOfWalk(queue: seq<Expr>, env: Env, surely: bool, norm: string -> string)
    requires queue != []
    ensures CallsOf(Nodes(queue), env, surely, norm)
         == CallOf(queue[0], env, surely, norm).Then(CallsOf(Nodes(queue[1..] + Children(queue[0])), env, surely, norm))
  {
    QueueShrinks(queue);
    assert Nodes(queue)[1..] == Nodes(queue[1..] + Children(queue[0]));
  }

  /** The walk visits each node of the tree once. */
  lemma {:induction false} WalkVisitsTree(queue: seq<Expr>, env: Env, norm: string -> string)
    ensures SameCalls(CallsOf(Nodes(queue), env, true, norm), TreeCallsOfAll(queue, env, norm))
    decreases TotalSize(queue)
  {
    if queue != [] {
      QueueShrinks(queue);
      var rest, below := queue[1..], Children(queue[0]);
      WalkVisitsTree(rest + below, env, norm);
      TreeCallsConcat(rest, below, env, norm);
      var own, walked := CallOf(queue[0], env, true, norm), CallsOf(Nodes(rest + below), env, true, norm);
      CallsRegroup(own, walked, TreeCallsOfAll(rest, env, norm), TreeCallsOfAll(below, env, norm));
      OneTree(queue[0], env, norm);
      TreeCallsConcat([queue[0]], rest, env, norm);
      FirstOfWalk(queue, env, true, norm);
      SameAsWell(own.Then(walked), TreeCallsOfAll([queue[0]], env, norm).Then(TreeCallsOfAll(rest, env, norm)),
                 TreeCallsOfAll([queue[0]] + rest, env, norm));
      assert queue == [queue[0]] + rest;
    }
  }

  /** The files recorded do not depend on the order. */
  lemma {:induction false} SurelyOfPermuted(a: seq<(string, bool)>, b: seq<(string, bool)>, w: World)
    requires multiset(a) == multiset(b)
    ensures Surely(a, w) == Surely(b, w)
    decreases |a|
  {
    if a == [] {
      assert |multiset(b)| == |b|;
    } else {
      var init, last := a[..|a| - 1], a[|a| - 1];
      assert a == init + [last];
      assert last in multiset(b);
      var i :| 0 <= i < |b| && b[i] == last;
      assert b == b[..i] + [last] + b[i + 1..];
      MultisetWithout(init, last, []);
      MultisetWithout(b[..i], last, b[i + 1..]);
      assert init + [last] + [] == a && init + [] == init;
      OneLess(multiset(init), multiset(b[..i] + b[i + 1..]), last);
      SurelyOfPermuted(init, b[..i] + b[i + 1..], w);
      SurelyWithout(b[..i], last, b[i + 1..], w);
      SurelyConcat(init, [last], w);
    }
  }

  lemma OneLess(x: multiset<(string, bool)>, y: multiset<(string, bool)>, one: (string, bool))
    requires x + multiset{one} == y + multiset{one}
    ensures x == y
  {
    assert x == (x + multiset{one}) - multiset{one};
    assert y == (y + multiset{one}) - multiset{one};
  }

  lemma MultisetWithout(a: seq<(string, bool)>, one: (string, bool), b: seq<(string, bool)>)
    ensures multiset(a + [one] + b) == multiset(a + b) + multiset{one}
  {
  }

  lemma SurelyWithout(a: seq<(string, bool)>, one: (string, bool), b: seq<(string, bool)>, w: World)
    ensures Surely(a + [one] + b, w) == Surely(a + b, w) + Surely([one], w)
  {
    SurelyConcat(a + [one], b, w);
    SurelyConcat(a, [one], w);
    SurelyConcat(a, b, w);
  }

  lemma MatchesSame(a: Writes, b: Writes, run: multiset<string>, w: World, literal: bool)
    requires SameCalls(a, b) && Matches(b, run, w, literal)
    ensures Matches(a, run, w, literal)
  {
    if !a.untraceable {
      SurelyOfPermuted(a.written, b.written, w);
      forall i | 0 <= i < |a.written| ensures a.written[i].1 {
        assert a.written[i] in multiset(b.written);
      }
    }
  }

  /** Where nothing is opened nothing is found, in whatever order, and nothing is written. */
  lemma {:induction false} QuietWalk(queue: seq<Expr>, env: Env, surely: bool, norm: string -> string)
    requires forall i :: 0 <= i < |queue| ==> OpensNothing(queue[i])
    ensures CallsOf(Nodes(queue), env, surely, norm) == NOTHING
    decreases TotalSize(queue)
  {
    if queue != [] {
      QueueShrinks(queue);
      QuietWalk(queue[1..] + Children(queue[0]), env, surely, norm);
      FirstOfWalk(queue, env, surely, norm);
      ThenAfterNothing(NOTHING);
    }
  }

  lemma {:induction false} QuietTree(e: Expr, env: Env, norm: string -> string)
    requires OpensNothing(e)
    ensures TreeCalls(e, env, norm) == NOTHING
    decreases e, 1
  {
    QuietTrees(e, Children(e), env, norm);
    ThenAfterNothing(NOTHING);
  }

  lemma {:induction false} QuietTrees(of: Expr, es: seq<Expr>, env: Env, norm: string -> string)
    requires forall i :: 0 <= i < |es| ==> es[i] < of && OpensNothing(es[i])
    ensures TreeCallsOfEach(of, es, env, norm) == NOTHING
    decreases of, 0, |es|
  {
    if es != [] {
      QuietTrees(of, es[..|es| - 1], env, norm);
      QuietTree(es[|es| - 1], env, norm);
      ThenAfterNothing(NOTHING);
    }
  }

  lemma {:induction false} QuietRun(e: Expr, run: RunEnv, w: World, at: Position)
    requires OpensNothing(e)
    ensures RunWrites(e, run, w, at) == multiset{}
    decreases e, 1
  {
    if e.IfElse? {
      assert Children(e)[0] == e.test && Children(e)[1] == e.body && Children(e)[2] == e.orelse;
      QuietRun(e.test, run, w, at + [0]);
      QuietRun(e.body, run, w, at + [1]);
      QuietRun(e.orelse, run, w, at + [2]);
    } else {
      QuietRuns(e, Children(e), run, w, at);
    }
  }

  lemma {:induction false} QuietRuns(of: Expr, es: seq<Expr>, run: RunEnv, w: World, at: Position)
    requires forall i :: 0 <= i < |es| ==> es[i] < of && OpensNothing(es[i])
    ensures RunWritesOfEach(of, es, run, w, at) == multiset{}
    decreases of, 0, |es|
  {
    if es != [] {
      QuietRuns(of, es[..|es| - 1], run, w, at);
      QuietRun(es[|es| - 1], run, w, at + [|es| - 1]);
    }
  }

  lemma {:induction false} TreeMatches(
    e: Expr, env: Env, levels: Levels, run: RunEnv, w: World, at: Position, norm: string -> string, literal: bool)
    requires IsClean(e, env, levels, w, norm) && Knows(env, levels, run, w) && IsReal(w) && KeepsPlain(norm)
    requires literal ==> HasLiteralModes(e)
    ensures Matches(TreeCalls(e, env, norm), RunWrites(e, run, w, at), w, literal)
    decreases e, 1
  {
    if e.IfElse? {
      QuietTree(e, env, norm);
      QuietRun(e, run, w, at);
      MatchesNothing(w, literal);
    } else {
      TreeMatchesEach(e, Children(e), env, levels, run, w, at, norm, literal);
      NodeMatches(e, env, levels, run, w, at, norm);
      MatchesWeaker(CallOf(e, env, true, norm), OwnWrites(e, run, w, at), w, literal, IsLiteralMode(e));
      MatchesBoth(TreeCallsOfEach(e, Children(e), env, norm), CallOf(e, env, true, norm),
                  RunWritesOfEach(e, Children(e), run, w, at), OwnWrites(e, run, w, at), w, literal);
    }
  }

  lemma MatchesWeaker(found: Writes, run: multiset<string>, w: World, literal: bool, more: bool)
    requires Matches(found, run, w, more) && (literal ==> more)
    ensures Matches(found, run, w, literal)
  {
  }

  lemma {:induction false} TreeMatchesEach(
    of: Expr, es: seq<Expr>, env: Env, levels: Levels, run: RunEnv, w: World, at: Position, norm: string -> string,
    literal: bool)
    requires forall i :: 0 <= i < |es| ==>
               es[i] < of && IsClean(es[i], env, levels, w, norm) && (literal ==> HasLiteralModes(es[i]))
    requires Knows(env, levels, run, w) && IsReal(w) && KeepsPlain(norm)
    ensures Matches(TreeCallsOfEach(of, es, env, norm), RunWritesOfEach(of, es, run, w, at), w, literal)
    decreases of, 0, |es|
  {
    if es == [] {
      MatchesNothing(w, literal);
    } else {
      var n := |es| - 1;
      TreeMatchesEach(of, es[..n], env, levels, run, w, at, norm, literal);
      TreeMatches(es[n], env, levels, run, w, at + [n], norm, literal);
      MatchesBoth(TreeCallsOfEach(of, es[..n], env, norm), TreeCalls(es[n], env, norm),
                  RunWritesOfEach(of, es[..n], run, w, at), RunWrites(es[n], run, w, at + [n]), w, literal);
    }
  }

  lemma {:induction false} AllMatch(
    es: seq<Expr>, env: Env, levels: Levels, run: RunEnv, w: World, at: Position, norm: string -> string, literal: bool)
    requires forall i :: 0 <= i < |es| ==>
               IsClean(es[i], env, levels, w, norm) && (literal ==> HasLiteralModes(es[i]))
    requires Knows(env, levels, run, w) && IsReal(w) && KeepsPlain(norm)
    ensures Matches(TreeCallsOfAll(es, env, norm), DisplayWrites(es, run, w, at), w, literal)
    decreases |es|
  {
    if es == [] {
      MatchesNothing(w, literal);
    } else {
      var n := |es| - 1;
      AllMatch(es[..n], env, levels, run, w, at, norm, literal);
      TreeMatches(es[n], env, levels, run, w, at + [n], norm, literal);
      MatchesBoth(TreeCallsOfAll(es[..n], env, norm), TreeCalls(es[n], env, norm),
                  DisplayWrites(es[..n], run, w, at), RunWrites(es[n], run, w, at + [n]), w, literal);
    }
  }

  lemma CallsMatch(
    e: Expr, env: Env, levels: Levels, run: RunEnv, w: World, at: Position, norm: string -> string, literal: bool)
    requires IsClean(e, env, levels, w, norm) && Knows(env, levels, run, w) && IsReal(w) && KeepsPlain(norm)
    requires literal ==> HasLiteralModes(e)
    ensures Matches(Calls(e, env, true, norm), RunWrites(e, run, w, at), w, literal)
  {
    if e.IfElse? {
      QuietWalk([e], env, false, norm);
      QuietRun(e, run, w, at);
      MatchesNothing(w, literal);
    } else {
      TreeMatches(e, env, levels, run, w, at, norm, literal);
      WalkVisitsTree([e], env, norm);
      TreeOfOne(e, env, norm);
      MatchesSame(Calls(e, env, true, norm), TreeCalls(e, env, norm), RunWrites(e, run, w, at), w, literal);
    }
  }

  lemma TreeOfOne(e: Expr, env: Env, norm: string -> string)
    ensures TreeCallsOfAll([e], env, norm) == TreeCalls(e, env, norm)
  {
    assert [e][..0] == [];
    ThenAfterNothing(TreeCalls(e, env, norm));
  }

  lemma DisplayMatches(
    es: seq<Expr>, env: Env, levels: Levels, run: RunEnv, w: World, at: Position, norm: string -> string, literal: bool)
    requires forall i :: 0 <= i < |es| ==>
               IsClean(es[i], env, levels, w, norm) && (literal ==> HasLiteralModes(es[i]))
    requires Knows(env, levels, run, w) && IsReal(w) && KeepsPlain(norm)
    ensures Matches(CallsOfEach(es, env, true, norm), DisplayWrites(es, run, w, at), w, literal)
  {
    AllMatch(es, env, levels, run, w, at, norm, literal);
    WalkVisitsTree(es, env, norm);
    MatchesSame(CallsOfEach(es, env, true, norm), TreeCallsOfAll(es, env, norm), DisplayWrites(es, run, w, at), w,
                literal);
  }

  // ---------------------------------------------------------------- whole programs

  function BindLevels(targets: seq<string>, g: Level, levels: Levels): Levels {
    if targets == [] then levels else BindLevels(targets[1..], g, levels[targets[0] := g])
  }

  /** Entering a temporary directory gives its name. */
  function EnteredLevel(g: Level): Level {
    if g.Object? && g.kind.TemporaryDirectory? then Exact else g
  }

  function EnteredNames(context: Expr, variable: Option<string>, env: Env): Env {
    if variable.Some? then env[variable.value := Value(context, env)] else env
  }

  /** What the analysis knows of the names after a body. */
  function NamesAfter(body: seq<Stmt>, env: Env, norm: string -> string): Env { WalkBody(body, env, true, norm).0 }

  /** The names known in `after` are known alike in `env`. */
  predicate KnowsNoMore(after: Env, env: Env) {
    forall id :: id in after && after[id].Some? ==> id in env && env[id] == after[id]
  }

  predicate SameLevels(levels: Levels, levels': Levels, env: Env) {
    forall id :: id in env && env[id].Some? && id in levels ==> id in levels' && levels'[id] == levels[id]
  }

  /** A loop body the analysis does not repeat: it records nothing there. */
  predicate IsQuiet(item: string, loop: seq<Stmt>, env: Env, norm: string -> string) {
    WalkBody(loop, env[item := None], false, norm).1.written == []
  }

  /**
   * How well the names are known after a statement, or None when it is not one the analysis promises to follow: the
   * expressions must be clean; a loop over a display that is not unrolled must record nothing, and learn nothing of
   * names that it did not know before, nor forget anything if it runs at all.
   */
  ghost function Follow(s: Stmt, env: Env, levels: Levels, w: World, norm: string -> string): Option<Levels>
    decreases s, 0
  {
    match s
    case Do(e) => if IsClean(e, env, levels, w, norm) then Some(levels) else None
    case Assign(targets, e) =>
      if IsClean(e, env, levels, w, norm) && Grade(e, env, levels, w).Some?
      then Some(BindLevels(targets, Grade(e, env, levels, w).value, levels))
      else None
    case AugAssign(_, e) => if IsClean(e, env, levels, w, norm) then Some(levels) else None
    case With(context, variable, within) =>
      if !IsClean(context, env, levels, w, norm) || Grade(context, env, levels, w).None? then None
      else
        var entered := EnteredLevel(Grade(context, env, levels, w).value);
        FollowBody(within, EnteredNames(context, variable, env),
                   if variable.Some? then levels[variable.value := entered] else levels, w, norm)
    case For(item, elements, loop) =>
      if exists i :: 0 <= i < |elements| && !IsClean(elements[i], env, levels, w, norm) then None
      else
        var items := Items(elements, env);
        if IsFollowed(items) then
          if AreExact(elements, env, levels, w) then FollowItems(item, items.value, loop, env, levels, w, norm)
              else None
        else
          var bound := env[item := None];
          var after := FollowBody(loop, bound, levels, w, norm);
          var learnt := NamesAfter(loop, bound, norm);
          if IsQuiet(item, loop, env, norm)
             && (if elements == [] then KnowsNoMore(learnt, env)
                 else after.Some? && IsRepeatable(bound, learnt, levels, after.value))
          then Some(levels)
          else None
  }

  predicate IsRepeatable(bound: Env, after: Env, levels: Levels, levels': Levels) {
    KnowsNoMore(after, bound) && KnowsNoMore(bound, after) && SameLevels(levels', levels, after)
  }

  ghost predicate AreExact(elements: seq<Expr>, env: Env, levels: Levels, w: World) {
    forall i :: 0 <= i < |elements| ==> Grade(elements[i], env, levels, w) == Some(Exact)
  }

  ghost function FollowBody(body: seq<Stmt>, env: Env, levels: Levels, w: World, norm: string -> string): Option<Levels>
    decreases body, 0
  {
    if body == [] then Some(levels)
    else
      var next := Follow(body[0], env, levels, w, norm);
      if next.None? then None
      else FollowBody(body[1..], WalkStatement(body[0], env, true, norm).0, next.value, w, norm)
  }

  ghost function FollowItems(
    item: string, items: seq<string>, loop: seq<Stmt>, env: Env, levels: Levels, w: World,
    norm: string -> string): Option<Levels>
    decreases loop, 1, |items|
  {
    if items == [] then Some(levels)
    else
      var bound := env[item := Some([items[0]])];
      var next := FollowBody(loop, bound, levels[item := Exact], w, norm);
      if next.None? then None
      else FollowItems(item, items[1..], loop, NamesAfter(loop, bound, norm), next.value, w, norm)
  }

  /** Whether a statement surely runs changes neither what is known of the names nor how much is found. */
  predicate SameButSure(a: (Env, Writes), b: (Env, Writes)) {
    a.0 == b.0 && |a.1.written| == |b.1.written| && a.1.untraceable == b.1.untraceable
  }

  lemma {:induction false} SameRecorded(paths: seq<string>, surely: bool, surely': bool, norm: string -> string)
    ensures |RecordedEach(paths, surely, norm)| == |RecordedEach(paths, surely', norm)|
  {
    if paths != [] { SameRecorded(paths[1..], surely, surely', norm); }
  }

  lemma {:induction false} SameFound(nodes: seq<Expr>, env: Env, surely: bool, surely': bool, norm: string -> string)
    ensures SameButSure((env, CallsOf(nodes, env, surely, norm)), (env, CallsOf(nodes, env, surely', norm)))
  {
    if nodes != [] {
      SameFound(nodes[1..], env, surely, surely', norm);
      var e := nodes[0];
      if e.Open? && e.mode.Some? && Value(e.path, env).Some? {
        SameRecorded(Value(e.path, env).value, surely, surely', norm);
      }
    }
  }

  lemma {:induction false} SureOrNot(s: Stmt, env: Env, top: bool, top': bool, norm: string -> string)
    ensures SameButSure(WalkStatement(s, env, top, norm), WalkStatement(s, env, top', norm))
    decreases s, 0
  {
    match s
    case Do(e) => SameFound(Nodes([e]), env, top && !e.IfElse?, top' && !e.IfElse?, norm);
    case Assign(_, e) => SameFound(Nodes([e]), env, top && !e.IfElse?, top' && !e.IfElse?, norm);
    case AugAssign(_, e) => SameFound(Nodes([e]), env, top && !e.IfElse?, top' && !e.IfElse?, norm);
    case With(context, variable, within) =>
      SameFound(Nodes([context]), env, top && !context.IfElse?, top' && !context.IfElse?, norm);
      SureOrNotBody(within, EnteredNames(context, variable, env), top, top', norm);
    case For(item, elements, loop) =>
      SameFound(Nodes(elements), env, top, top', norm);
      var items := Items(elements, env);
      if IsFollowed(items) { SureOrNotItems(item, items.value, loop, env, top, top', norm); }
  }

  lemma {:induction false} SureOrNotBody(body: seq<Stmt>, env: Env, top: bool, top': bool, norm: string -> string)
    ensures SameButSure(WalkBody(body, env, top, norm), WalkBody(body, env, top', norm))
    decreases body, 0
  {
    if body != [] {
      SureOrNot(body[0], env, top, top', norm);
      SureOrNotBody(body[1..], WalkStatement(body[0], env, top, norm).0, top, top', norm);
    }
  }

  lemma {:induction false} SureOrNotItems(
    item: string, items: seq<string>, loop: seq<Stmt>, env: Env, top: bool, top': bool, norm: string -> string)
    ensures SameButSure(WalkItems(item, items, loop, env, top, norm), WalkItems(item, items, loop, env, top', norm))
    decreases loop, 1, |items|
  {
    if items != [] {
      var bound := env[item := Some([items[0]])];
      SureOrNotBody(loop, bound, top, top', norm);
      SureOrNotItems(item, items[1..], loop, WalkBody(loop, bound, top, norm).0, top, top', norm);
    }
  }

  predicate HasLiteralModesIn(s: Stmt)
    decreases s
  {
    match s
    case Do(e) => HasLiteralModes(e)
    case Assign(_, e) => HasLiteralModes(e)
    case AugAssign(_, e) => HasLiteralModes(e)
    case With(context, _, within) =>
      HasLiteralModes(context) && forall i :: 0 <= i < |within| ==> HasLiteralModesIn(within[i])
    case For(_, elements, loop) =>
      && (forall i :: 0 <= i < |elements| ==> HasLiteralModes(elements[i]))
      && forall i :: 0 <= i < |loop| ==> HasLiteralModesIn(loop[i])
  }

  predicate AllLiteral(body: seq<Stmt>) {
    forall i :: 0 <= i < |body| ==> HasLiteralModesIn(body[i])
  }

  lemma {:induction false} BindKnown(
    targets: seq<string>, v: Values, g: Level, r: RunValue, env: Env, levels: Levels, run: RunEnv, w: World)
    requires Knows(env, levels, run, w) && IsKnown(v, g, r, w)
    ensures Knows(BindAll(targets, v, env), BindLevels(targets, g, levels), RunBind(targets, r, run), w)
    decreases |targets|
  {
    if targets != [] {
      BindOne(targets[0], v, g, r, env, levels, run, w);
      BindKnown(targets[1..], v, g, r, env[targets[0] := v], levels[targets[0] := g], run[targets[0] := r], w);
    }
  }

  lemma BindOne(
    target: string, v: Values, g: Level, r: RunValue, env: Env, levels: Levels, run: RunEnv, w: World)
    requires Knows(env, levels, run, w) && IsKnown(v, g, r, w)
    ensures Knows(env[target := v], levels[target := g], run[target := r], w)
  {
    var env', levels', run' := env[target := v], levels[target := g], run[target := r];
    forall id | id in env' && env'[id].Some? ensures IsNameKnown(id, env'[id], levels', run', w) {
      if id != target { assert IsNameKnown(id, env[id], levels, run, w); }
    }
  }

  /** A name of which nothing is known may be anything. */
  lemma ForgetOne(target: string, r: RunValue, env: Env, levels: Levels, run: RunEnv, w: World)
    requires Knows(env, levels, run, w)
    ensures Knows(env[target := None], levels, run[target := r], w)
  {
    var env', run' := env[target := None], run[target := r];
    forall id | id in env' && env'[id].Some? ensures IsNameKnown(id, env'[id], levels, run', w) {
      assert IsNameKnown(id, env[id], levels, run, w);
    }
  }

  lemma KnowLess(after: Env, env: Env, levels': Levels, levels: Levels, run: RunEnv, w: World)
    requires Knows(env, levels', run, w) && KnowsNoMore(after, env) && SameLevels(levels', levels, env)
    ensures Knows(after, levels, run, w)
  {
    forall id | id in after && after[id].Some? ensures IsNameKnown(id, after[id], levels, run, w) {
      assert IsNameKnown(id, env[id], levels', run, w);
    }
  }

  lemma EnterKnown(
    context: Expr, variable: Option<string>, env: Env, levels: Levels, run: RunEnv, clock: nat, w: World)
    requires Knows(env, levels, run, w) && IsReal(w) && Grade(context, env, levels, w).Some?
    ensures var g := EnteredLevel(Grade(context, env, levels, w).value);
            Knows(EnteredNames(context, variable, env), if variable.Some? then levels[variable.value := g] else levels,
                  RunEntered(context, variable, run, clock, w), w)
  {
    var g, r := Grade(context, env, levels, w).value, Eval(context, run, w, [clock]);
    ValueIsKnown(context, env, levels, run, w, [clock]);
    if variable.Some? {
      EnteredKnown(Value(context, env), g, r, w);
      BindOne(variable.value, Value(context, env), EnteredLevel(g), Entered(r, w), env, levels, run, w);
    }
  }

  lemma EnteredKnown(v: Values, g: Level, r: RunValue, w: World)
    requires IsKnown(v, g, r, w)
    ensures IsKnown(v, EnteredLevel(g), Entered(r, w), w)
  {
    if v.Some? && r.Handle? { TempIsKnown(TemporaryName, w, r.made); }
  }

  /** The items of a followed display are its elements, each known. */
  lemma {:induction false} FlattenOfOnes(values: seq<Values>)
    requires forall i :: 0 <= i < |values| ==> values[i].Some? && |values[i].value| == 1
    ensures |Flatten(values)| == |values| && forall i :: 0 <= i < |values| ==> Flatten(values)[i] == values[i].value[0]
  {
    if values != [] { FlattenOfOnes(values[1..]); }
  }

  lemma ItemsAreKnown(elements: seq<Expr>, env: Env, levels: Levels, run: RunEnv, w: World, at: Position)
    requires AreExact(elements, env, levels, w)
    requires Knows(env, levels, run, w) && IsReal(w) && Items(elements, env).Some?
    ensures |Items(elements, env).value| == |elements|
    ensures forall i :: 0 <= i < |elements| ==>
              IsExact(Items(elements, env).value[i], EvalEach(elements, run, w, at)[i], w)
  {
    var values := ValueOfEach(elements, env);
    forall i | 0 <= i < |elements| ensures IsKnown(values[i], Exact, EvalEach(elements, run, w, at)[i], w) {
      ValueIsKnown(elements[i], env, levels, run, w, at + [i]);
    }
    FlattenOfOnes(values);
  }

  lemma {:induction false} StatementMatches(
    s: Stmt, env: Env, levels: Levels, run: RunEnv, clock: nat, w: World, norm: string -> string, literal: bool)
    requires Follow(s, env, levels, w, norm).Some? && Knows(env, levels, run, w) && IsReal(w) && KeepsPlain(norm)
    requires literal ==> HasLiteralModesIn(s)
    ensures Knows(WalkStatement(s, env, true, norm).0, Follow(s, env, levels, w, norm).value,
                  ExecStatement(s, run, clock, w).env, w)
    ensures Matches(WalkStatement(s, env, true, norm).1, ExecStatement(s, run, clock, w).writes, w, literal)
    decreases s, 0
  {
    match s
    case Do(e) => CallsMatch(e, env, levels, run, w, [clock], norm, literal);
    case Assign(targets, e) =>
      CallsMatch(e, env, levels, run, w, [clock], norm, literal);
      ValueIsKnown(e, env, levels, run, w, [clock]);
      BindKnown(targets, Value(e, env), Grade(e, env, levels, w).value, Eval(e, run, w, [clock]), env, levels, run, w);
    case AugAssign(target, e) =>
      CallsMatch(e, env, levels, run, w, [clock], norm, literal);
      ForgetOne(target, Text(w.unknown([clock]), None), env, levels, run, w);
    case With(context, variable, within) =>
      WithMatches(s, context, variable, within, env, levels, run, clock, w, norm, literal);
    case For(item, elements, loop) =>
      DisplayMatches(elements, env, levels, run, w, [clock], norm, literal);
      if IsFollowed(Items(elements, env)) {
        UnrolledMatches(s, item, elements, loop, env, levels, run, clock, w, norm, literal);
      } else {
        RepeatedMatches(s, item, elements, loop, env, levels, run, clock, w, norm, literal);
      }
  }

  lemma {:induction false} WithMatches(
    s: Stmt, context: Expr, variable: Option<string>, within: seq<Stmt>, env: Env, levels: Levels, run: RunEnv,
    clock: nat, w: World, norm: string -> string, literal: bool)
    requires s == With(context, variable, within)
    requires Follow(s, env, levels, w, norm).Some? && Knows(env, levels, run, w) && IsReal(w) && KeepsPlain(norm)
    requires literal ==> HasLiteralModesIn(s)
    ensures Knows(WalkStatement(s, env, true, norm).0, Follow(s, env, levels, w, norm).value,
                  ExecStatement(s, run, clock, w).env, w)
    ensures Matches(WalkStatement(s, env, true, norm).1, ExecStatement(s, run, clock, w).writes, w, literal)
    decreases within, 1
  {
    CallsMatch(context, env, levels, run, w, [clock], norm, literal);
    EnterKnown(context, variable, env, levels, run, clock, w);
    var bound, bound' := EnteredNames(context, variable, env), RunEntered(context, variable, run, clock, w);
    var g := EnteredLevel(Grade(context, env, levels, w).value);
    var levels' := if variable.Some? then levels[variable.value := g] else levels;
    BodyMatches(within, bound, levels', bound', clock + 1, w, norm, literal);
    MatchesBoth(Calls(context, env, true, norm), WalkBody(within, bound, true, norm).1,
                RunWrites(context, run, w, [clock]), ExecBody(within, bound', clock + 1, w).writes, w, literal);
  }

  lemma {:induction false} UnrolledMatches(
    s: Stmt, item: string, elements: seq<Expr>, loop: seq<Stmt>, env: Env, levels: Levels, run: RunEnv, clock: nat,
    w: World, norm: string -> string, literal: bool)
    requires s == For(item, elements, loop) && IsFollowed(Items(elements, env))
    requires Follow(s, env, levels, w, norm).Some? && Knows(env, levels, run, w) && IsReal(w) && KeepsPlain(norm)
    requires literal ==> HasLiteralModesIn(s)
    requires Matches(CallsOfEach(elements, env, true, norm), DisplayWrites(elements, run, w, [clock]), w, literal)
    ensures Knows(WalkStatement(s, env, true, norm).0, Follow(s, env, levels, w, norm).value,
                  ExecStatement(s, run, clock, w).env, w)
    ensures Matches(WalkStatement(s, env, true, norm).1, ExecStatement(s, run, clock, w).writes, w, literal)
    decreases loop, 2
  {
    ItemsAreKnown(elements, env, levels, run, w, [clock]);
    var items, values := Items(elements, env).value, EvalEach(elements, run, w, [clock]);
    LoopMatches(item, items, values, loop, env, levels, run, clock + 1, w, norm, literal);
    MatchesBoth(CallsOfEach(elements, env, true, norm), WalkItems(item, items, loop, env, true, norm).1,
                DisplayWrites(elements, run, w, [clock]), ExecItems(item, values, loop, run, clock + 1, w).writes, w,
                literal);
  }

  lemma {:induction false} RepeatedMatches(
    s: Stmt, item: string, elements: seq<Expr>, loop: seq<Stmt>, env: Env, levels: Levels, run: RunEnv, clock: nat,
    w: World, norm: string -> string, literal: bool)
    requires s == For(item, elements, loop) && !IsFollowed(Items(elements, env))
    requires Follow(s, env, levels, w, norm).Some? && Knows(env, levels, run, w) && IsReal(w) && KeepsPlain(norm)
    requires literal ==> HasLiteralModesIn(s)
    requires Matches(CallsOfEach(elements, env, true, norm), DisplayWrites(elements, run, w, [clock]), w, literal)
    ensures Knows(WalkStatement(s, env, true, norm).0, Follow(s, env, levels, w, norm).value,
                  ExecStatement(s, run, clock, w).env, w)
    ensures Matches(WalkStatement(s, env, true, norm).1, ExecStatement(s, run, clock, w).writes, w, literal)
    decreases loop, 2
  {
    var values := EvalEach(elements, run, w, [clock]);
    RepeatedWalk(item, elements, loop, env, levels, w, norm);
    NotUnrolled(item, elements, values, loop, env, levels, run, clock + 1, w, norm, literal);
    RunOfFor(item, elements, loop, run, clock, w);
    MatchesBoth(CallsOfEach(elements, env, true, norm), WalkBody(loop, env[item := None], false, norm).1,
                DisplayWrites(elements, run, w, [clock]), ExecItems(item, values, loop, run, clock + 1, w).writes, w,
                literal);
  }

  lemma RunOfFor(item: string, elements: seq<Expr>, loop: seq<Stmt>, run: RunEnv, clock: nat, w: World)
    ensures var t, values := ExecStatement(For(item, elements, loop), run, clock, w),
            EvalEach(elements, run, w, [clock]);
            var items := ExecItems(item, values, loop, run, clock + 1, w);
            t.env == items.env && t.writes == DisplayWrites(elements, run, w, [clock]) + items.writes
  {
  }

  lemma {:induction false} NotUnrolled(
    item: string, elements: seq<Expr>, values: seq<RunValue>, loop: seq<Stmt>, env: Env, levels: Levels, run: RunEnv,
    clock: nat, w: World, norm: string -> string, literal: bool)
    requires |values| == |elements| && Knows(env, levels, run, w) && IsReal(w) && KeepsPlain(norm)
    requires literal ==> AllLiteral(loop)
    requires IsRepeated(item, elements, loop, env, levels, w, norm)
    ensures var found := WalkBody(loop, env[item := None], false, norm);
            && Knows(found.0, levels, ExecItems(item, values, loop, run, clock, w).env, w)
            && Matches(found.1, ExecItems(item, values, loop, run, clock, w).writes, w, literal)
    decreases loop, 1, |values| + 1
  {
    var found := WalkBody(loop, env[item := None], false, norm);
    if elements == [] {
      SureOrNotBody(loop, env[item := None], false, true, norm);
      KnowLess(found.0, env, levels, levels, run, w);
      NothingFound(found.1, w, literal);
    } else {
      KnowLess(env[item := None], env, levels, levels, run, w);
      IterationsMatch(item, values, loop, env, levels, run, clock, w, norm, literal);
    }
  }

  /** What following a loop that is not unrolled asks for. */
  ghost predicate IsRepeated(
    item: string, elements: seq<Expr>, loop: seq<Stmt>, env: Env, levels: Levels, w: World, norm: string -> string)
  {
    var bound := env[item := None];
    && IsQuiet(item, loop, env, norm)
    && (elements == [] ==> KnowsNoMore(NamesAfter(loop, bound, norm), env))
    && (elements != [] ==>
          var after := FollowBody(loop, bound, levels, w, norm);
          after.Some? && IsRepeatable(bound, NamesAfter(loop, bound, norm), levels, after.value))
  }

  lemma RepeatedWalk(
    item: string, elements: seq<Expr>, loop: seq<Stmt>, env: Env, levels: Levels, w: World, norm: string -> string)
    requires !IsFollowed(Items(elements, env)) && Follow(For(item, elements, loop), env, levels, w, norm).Some?
    ensures var found := WalkBody(loop, env[item := None], false, norm);
            WalkStatement(For(item, elements, loop), env, true, norm)
            == (found.0, CallsOfEach(elements, env, true, norm).Then(found.1))
    ensures Follow(For(item, elements, loop), env, levels, w, norm) == Some(levels)
    ensures IsRepeated(item, elements, loop, env, levels, w, norm)
  {
  }

  lemma NothingFound(found: Writes, w: World, literal: bool)
    requires found.written == []
    ensures Matches(found, multiset{}, w, literal)
  {
  }

  /**
   * A body that is walked once and runs for every value: each time it writes nothing and knows the same of the names.
   */
  lemma {:induction false} IterationsMatch(
    item: string, values: seq<RunValue>, loop: seq<Stmt>, env: Env, levels: Levels, run: RunEnv, clock: nat, w: World,
    norm: string -> string, literal: bool)
    requires values != [] && Knows(env[item := None], levels, run, w) && IsReal(w) && KeepsPlain(norm)
    requires literal ==> AllLiteral(loop)
    requires var bound := env[item := None];
             var after := FollowBody(loop, bound, levels, w, norm);
             && IsQuiet(item, loop, env, norm) && after.Some?
             && IsRepeatable(bound, NamesAfter(loop, bound, norm), levels, after.value)
    ensures var found := WalkBody(loop, env[item := None], false, norm);
            && Knows(found.0, levels, ExecItems(item, values, loop, run, clock, w).env, w)
            && Matches(found.1, ExecItems(item, values, loop, run, clock, w).writes, w, literal)
    decreases loop, 1, |values|
  {
    var bound, found := env[item := None], WalkBody(loop, env[item := None], false, norm);
    var next := ExecBody(loop, run[item := values[0]], clock, w);
    OneIteration(item, values[0], loop, bound, levels, run, clock, w, norm, literal);
    if |values| == 1 {
      assert values[1..] == [];
    } else {
      IterationsMatch(item, values[1..], loop, env, levels, next.env, next.clock, w, norm, literal);
      NoMoreFound(found.1, next.writes, ExecItems(item, values[1..], loop, next.env, next.clock, w).writes, w, literal);
    }
  }

  lemma {:induction false} OneIteration(
    item: string, value: RunValue, loop: seq<Stmt>, bound: Env, levels: Levels, run: RunEnv, clock: nat, w: World,
    norm: string -> string, literal: bool)
    requires Knows(bound, levels, run, w) && IsReal(w) && KeepsPlain(norm) && item in bound && bound[item] == None
    requires literal ==> AllLiteral(loop)
    requires var after := FollowBody(loop, bound, levels, w, norm);
             && WalkBody(loop, bound, false, norm).1.written == [] && after.Some?
             && IsRepeatable(bound, NamesAfter(loop, bound, norm), levels, after.value)
    ensures var found, next := WalkBody(loop, bound, false, norm), ExecBody(loop, run[item := value], clock, w);
            && Knows(found.0, levels, next.env, w) && Knows(bound, levels, next.env, w)
            && Matches(found.1, next.writes, w, literal)
    decreases loop, 1, 0
  {
    ForgetOne(item, value, bound, levels, run, w);
    assert bound[item := None] == bound;
    BodyMatches(loop, bound, levels, run[item := value], clock, w, norm, literal);
    SureOrNotBody(loop, bound, false, true, norm);
    var found, next := WalkBody(loop, bound, true, norm), ExecBody(loop, run[item := value], clock, w);
    var levels' := FollowBody(loop, bound, levels, w, norm).value;
    KnowLess(found.0, found.0, levels', levels, next.env, w);
    KnowLess(bound, found.0, levels', levels, next.env, w);
  }

  lemma NoMoreFound(found: Writes, a: multiset<string>, b: multiset<string>, w: World, literal: bool)
    requires found.written == [] && Matches(found, a, w, literal) && Matches(found, b, w, literal)
    ensures Matches(found, a + b, w, literal)
  {
  }

  lemma {:induction false} BodyMatches(
    body: seq<Stmt>, env: Env, levels: Levels, run: RunEnv, clock: nat, w: World, norm: string -> string, literal: bool)
    requires FollowBody(body, env, levels, w, norm).Some? && Knows(env, levels, run, w) && IsReal(w) && KeepsPlain(norm)
    requires literal ==> AllLiteral(body)
    ensures Knows(WalkBody(body, env, true, norm).0, FollowBody(body, env, levels, w, norm).value,
                  ExecBody(body, run, clock, w).env, w)
    ensures Matches(WalkBody(body, env, true, norm).1, ExecBody(body, run, clock, w).writes, w, literal)
    decreases body, 0
  {
    if body == [] {
      MatchesNothing(w, literal);
    } else {
      var first, next := WalkStatement(body[0], env, true, norm), ExecStatement(body[0], run, clock, w);
      StatementMatches(body[0], env, levels, run, clock, w, norm, literal);
      BodyMatches(body[1..], first.0, Follow(body[0], env, levels, w, norm).value, next.env, next.clock, w, norm,
          literal);
      MatchesBoth(first.1, WalkBody(body[1..], first.0, true, norm).1,
                  next.writes, ExecBody(body[1..], next.env, next.clock, w).writes, w, literal);
    }
  }

  lemma {:induction false} LoopMatches(
    item: string, items: seq<string>, values: seq<RunValue>, loop: seq<Stmt>, env: Env, levels: Levels, run: RunEnv,
    clock: nat, w: World, norm: string -> string, literal: bool)
    requires |items| == |values| && forall i :: 0 <= i < |items| ==> IsExact(items[i], values[i], w)
    requires FollowItems(item, items, loop, env, levels, w, norm).Some? && Knows(env, levels, run, w) && IsReal(w)
    requires KeepsPlain(norm) && (literal ==> AllLiteral(loop))
    ensures Knows(WalkItems(item, items, loop, env, true, norm).0,
                  FollowItems(item, items, loop, env, levels, w, norm).value,
                  ExecItems(item, values, loop, run, clock, w).env, w)
    ensures Matches(WalkItems(item, items, loop, env, true, norm).1,
                    ExecItems(item, values, loop, run, clock, w).writes, w, literal)
    decreases loop, 1, |items|
  {
    if items == [] {
      MatchesNothing(w, literal);
    } else {
      var bound, bound' := env[item := Some([items[0]])], run[item := values[0]];
      var levels' := levels[item := Exact];
      BindOne(item, Some([items[0]]), Exact, values[0], env, levels, run, w);
      var first, next := WalkBody(loop, bound, true, norm), ExecBody(loop, bound', clock, w);
      BodyMatches(loop, bound, levels', bound', clock, w, norm, literal);
      LoopMatches(item, items[1..], values[1..], loop, first.0, FollowBody(loop, bound, levels', w, norm).value,
                  next.env, next.clock, w, norm, literal);
      MatchesBoth(first.1, WalkItems(item, items[1..], loop, first.0, true, norm).1,
                  next.writes, ExecItems(item, values[1..], loop, next.env, next.clock, w).writes, w, literal);
    }
  }

  /** `script_writes` of a module. */
  function ScriptWritesOf(program: seq<Stmt>, norm: string -> string): Writes {
    WalkBody(program, map[], true, norm).1
  }

  ghost predicate IsTame(program: seq<Stmt>, w: World, norm: string -> string) {
    FollowBody(program, map[], map[], w, norm).Some?
  }

  /**
   * Unless the analysis gives up, every file a program opens for writing outside its temporary directories, whatever
   * its other calls return, is recorded as surely written; and nothing else is recorded when all modes are literals.
   */
  lemma AnalysisIsSound(program: seq<Stmt>, run: RunEnv, w: World, norm: string -> string)
    requires IsTame(program, w, norm) && IsReal(w) && KeepsPlain(norm)
    ensures var found, writes := ScriptWritesOf(program, norm), ExecBody(program, run, 0, w).writes;
            !found.untraceable ==> AllSure(found.written) && writes <= Surely(found.written, w)
                                   && (AllLiteral(program) ==> writes == Surely(found.written, w))
  {
    BodyMatches(program, map[], map[], run, 0, w, norm, AllLiteral(program));
  }
}
