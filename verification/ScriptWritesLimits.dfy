/**
 * Where the promise of the script analysis ends: calls that return another path, `.name`, temporary paths that are
 * appended or left again, paths passed by keyword, loops it does not unroll, and conditionals in calls.
 */
module ScriptWritesLimits {
  import opened Results
  import opened ScriptWrites
  import opened ScriptRun
  import opened ScriptValues
  import opened ScriptWritesSound

  function AsIs(p: string): string { p }

  /** Whether what is found for a program is what it writes in one run, with paths taken as they are. */
  predicate IsRight(program: seq<Stmt>, w: World) {
    Matches(ScriptWritesOf(program, AsIs), ExecBody(program, map[], 0, w).writes, w, true)
  }

  function Opening(path: Expr): Expr { Open(path, Some(Str("w"))) }

  function Writing(path: Expr): Stmt { Do(Opening(path)) }

  // ---------------------------------------------------------------- programs of one statement

  lemma WritesUnderW()
    ensures IsWriteMode("w") && OpensToWrite("w")
  {
    assert "w"[1..] == "" && "w"[0] == 'w' == "wax+"[0];
    assert Occurrences("", 'w') == 0;
    assert Occurrences("w", 'w') == 1 && Occurrences("w", 'r') == 0 && Occurrences("w", 'a') == 0;
    assert Occurrences("w", 'x') == 0 && Occurrences("w", '+') == 0;
    assert Occurrences("w", 'b') == 0 && Occurrences("w", 't') == 0;
  }

  lemma OpenIsFound(mode: string, name: string, top: bool)
    requires IsWriteMode(mode)
    ensures OpenFound(Some([mode]), Some([name]), top, AsIs)
         == Writes(if IsMarked(name) then [] else [(name, top)], false)
  {
    assert [mode][0] == mode;
    assert [name][1..] == [];
    assert RecordedEach([name], top, AsIs) == Recorded(name, top, AsIs) + [];
  }

  lemma PartsOfOpening(path: Expr)
    requires OpensNothing(path)
    ensures var parts := Children(Opening(path));
            parts == [path, Str("w")] && forall i :: 0 <= i < |parts| ==> OpensNothing(parts[i])
  {
    assert Children(Str("w")) == [];
  }

  /** What opening a followed path for writing adds. */
  lemma FoundForOpen(path: Expr, env: Env, top: bool, name: string)
    requires Value(path, env) == Some([name]) && OpensNothing(path)
    ensures Calls(Opening(path), env, top, AsIs) == Writes(if IsMarked(name) then [] else [(name, top)], false)
  {
    var e := Opening(path);
    WritesUnderW();
    OpenIsFound("w", name, top);
    PartsOfOpening(path);
    QuietWalk([path, Str("w")], env, top, AsIs);
    FirstOfWalk([e], env, top, AsIs);
    assert [e][1..] + Children(e) == [path, Str("w")];
    ThenAssociates(CallOf(e, env, top, AsIs), NOTHING, NOTHING);
  }

  lemma RunOfOpen(path: Expr, env: RunEnv, w: World, at: Position)
    requires OpensNothing(path)
    ensures RunWrites(Opening(path), env, w, at)
            == Written(w.file(AsText(Eval(path, env, w, at + [0]), w, at).text, at), w)
  {
    WritesUnderW();
    PartsOfOpening(path);
    QuietRuns(Opening(path), Children(Opening(path)), env, w, at);
  }

  function Written(
    file: string, w: World): multiset<string> { if w.isTemporary(file) then multiset{} else multiset{file} }

  lemma FoundInOne(e: Expr)
    ensures ScriptWritesOf([Do(e)], AsIs) == Calls(e, map[], true, AsIs)
  {
    assert [Do(e)][1..] == [];
    assert WalkBody([Do(e)][1..], map[], true, AsIs) == (map[], NOTHING);
    assert WalkStatement(Do(e), map[], true, AsIs) == (map[], Calls(e, map[], true, AsIs));
    assert WalkBody([Do(e)], map[], true, AsIs) == (map[], Calls(e, map[], true, AsIs).Then(NOTHING));
    ThenAssociates(Calls(e, map[], true, AsIs), NOTHING, NOTHING);
  }

  lemma RunInOne(e: Expr, w: World)
    ensures ExecBody([Do(e)], map[], 0, w).writes == RunWrites(e, map[], w, [0])
  {
    assert [Do(e)][1..] == [];
    assert ExecBody([Do(e)][1..], map[], 1, w) == Trace(map[], multiset{}, 1);
  }

  /** The file that `open(path, "w")` opens as the only statement of a program. */
  function OpenedFile(path: Expr, w: World): string {
    w.file(AsText(Eval(path, map[], w, [0] + [0]), w, [0]).text, [0])
  }

  /**
   * A program that opens one followed path for writing is analysed right if and only if the file it opens is temporary,
   * for a path marked so, and otherwise is the file the recorded path names, and not temporary.
   */
  lemma OpenIsRightWhen(path: Expr, v: string, w: World)
    requires OpensNothing(path) && Value(path, map[]) == Some([v])
    ensures ScriptWritesOf([Writing(path)], AsIs) == Writes(if IsMarked(v) then [] else [(v, true)], false)
    ensures ExecBody([Writing(path)], map[], 0, w).writes == Written(OpenedFile(path, w), w)
    ensures IsRight([Writing(path)], w) <==>
              if IsMarked(v) then w.isTemporary(OpenedFile(path, w))
              else OpenedFile(path, w) == w.file(v, START) && !w.isTemporary(OpenedFile(path, w))
  {
    FoundForOpen(path, map[], true, v);
    FoundInOne(Opening(path));
    RunInOne(Opening(path), w);
    RunOfOpen(path, map[], w, [0]);
    OneSure(v, w);
    OneFile(OpenedFile(path, w), w.file(v, START));
  }

  lemma OneFile(a: string, b: string)
    ensures multiset{a} == multiset{b} <==> a == b
    ensures multiset{} != multiset{b} && multiset{a} != multiset{}
  {
    assert a in multiset{a} && b in multiset{b};
    assert multiset{a} == multiset{b} ==> a in multiset{b};
  }

  // ---------------------------------------------------------------- calls that return another path

  lemma TextOfCall(call: string, a: string, w: World, at: Position)
    ensures var e := Same(call, Str(a));
            Value(e, map[]) == Some([a]) && Eval(e, map[], w, at) == Text(w.call(call, a, at), None) && OpensNothing(e)
  {
    assert Children(Same(call, Str(a))) == [Str(a)] && Children(Str(a)) == [];
  }

  lemma TwoParts(l: Expr, r: Expr, w: World, at: Position)
    ensures ValueOfEach([l, r], map[]) == [Value(l, map[]), Value(r, map[])]
    ensures EvalEach([l, r], map[], w, at) == [Eval(l, map[], w, at + [0]), Eval(r, map[], w, at + [1])]
    ensures OpensNothing(l) && OpensNothing(r) ==> OpensNothing(Add(l, r)) && OpensNothing(Join([l, r]))
  {
    assert Children(Add(l, r)) == [l, r] && Children(Join([l, r])) == [l, r];
    var values, texts := ValueOfEach([l, r], map[]), EvalEach([l, r], map[], w, at);
    assert values[0] == Value([l, r][0], map[]) && values[1] == Value([l, r][1], map[]);
    assert texts[0] == Eval([l, r][0], map[], w, at + [0]) && texts[1] == Eval([l, r][1], map[], w, at + [1]);
  }

  lemma TextOfTemp(w: World, at: Position)
    ensures var e := Temp(TemporaryName);
            Value(e, map[]) == Some([TEMPORARY]) && Eval(e, map[], w, at) == Text(w.temp(at), Some(at))
                && OpensNothing(e)
  {
    assert Children(Temp(TemporaryName)) == [];
  }

  lemma TextOfLiteral(a: string, w: World, at: Position)
    ensures Value(Str(a), map[]) == Some([a]) && Eval(Str(a), map[], w, at) == Text(a, None) && OpensNothing(Str(a))
  {
    assert Children(Str(a)) == [];
  }

  /** `open(call(text), "w")` records `text`: right if and only if the call returns a path of the same file. */
  lemma CalledPathIsRightWhen(call: string, text: string, w: World)
    requires IsPlain(text)
    ensures var path, file := Same(call, Str(text)), w.file(w.call(call, text, [0, 0]), [0]);
            && ScriptWritesOf([Writing(path)], AsIs) == Writes([(text, true)], false)
            && ExecBody([Writing(path)], map[], 0, w).writes == Written(file, w)
            && (IsRight([Writing(path)], w) <==> file == w.file(text, START) && !w.isTemporary(file))
  {
    var path := Same(call, Str(text));
    assert [0] + [0] == [0, 0];
    TextOfCall(call, text, w, [0, 0]);
    if IsMarked(text) { MarkedIsNotPlain(text); }
    OpenIsRightWhen(path, text, w);
  }

  /** `open(os.path.expanduser("~/n"), "w")` writes to the home directory, and `~/n` of the checkout is recorded. */
  lemma HomeMisleads(w: World)
    requires w.file(w.call("os.path.expanduser", "~/n", [0, 0]), [0]) != w.file("~/n", START)
    ensures var program := [Writing(Same("os.path.expanduser", Str("~/n")))];
            ScriptWritesOf(program, AsIs) == Writes([("~/n", true)], false) && !IsRight(program, w)
  {
    assert IsPlain("~/n");
    CalledPathIsRightWhen("os.path.expanduser", "~/n", w);
  }

  lemma TwoValues(a: string, b: string, slash: bool)
    ensures Combine([Some([a]), Some([b])], slash) == Some([Glue(a, b, slash)])
  {
    var pieces: seq<Values> := [Some([a]), Some([b])];
    ProductOfOne("", [a], false);
    assert Glue("", a, false) == a;
    ProductOfOne(a, [b], slash);
    assert CombineFrom(pieces, 2, [Glue(a, b, slash)], slash) == Some([Glue(a, b, slash)]);
    assert CombineFrom(pieces, 1, [a], slash) == Some([Glue(a, b, slash)]);
  }

  lemma TwoTexts(a: RunValue, b: RunValue, slash: bool, w: World, at: Position)
    requires a.Text? && b.Text?
    ensures RunCombine([a, b], 0, Text("", None), slash, w, at) == RunGlue(Text(a.text, a.under), b, slash)
  {
    var first := RunGlue(Text("", None), a, false);
    assert first == a;
    assert RunCombine([a, b], 2, RunGlue(a, b, slash), slash, w, at) == RunGlue(a, b, slash);
    assert RunCombine([a, b], 1, a, slash, w, at) == RunGlue(a, b, slash);
  }

  /** `open(str(Path("out/")) + "x", "w")`: the path call drops the slash that the analysis keeps. */
  lemma AddedToCallIsRightWhen(call: string, a: string, b: string, w: World)
    requires IsPlain(a) && IsPlain(b)
    ensures var path, file := Add(Same(call, Str(a)), Str(b)), w.file(w.call(call, a, [0, 0, 0]) + b, [0]);
            && ScriptWritesOf([Writing(path)], AsIs) == Writes([(a + b, true)], false)
            && (IsRight([Writing(path)], w) <==> file == w.file(a + b, START) && !w.isTemporary(file))
  {
    var path := Add(Same(call, Str(a)), Str(b));
    assert [0] + [0] == [0, 0] && [0, 0] + [0] == [0, 0, 0];
    TextOfCall(call, a, w, [0, 0, 0]);
    TextOfLiteral(b, w, [0, 0] + [1]);
    TwoParts(Same(call, Str(a)), Str(b), w, [0, 0]);
    TwoValues(a, b, false);
    if IsMarked(a + b) { MarkedIsNotPlain(a + b); }
    TwoTexts(Text(w.call(call, a, [0, 0, 0]), None), Text(b, None), false, w, [0, 0]);
    OpenIsRightWhen(path, a + b, w);
  }

  lemma DroppedSlashMisleads(w: World)
    requires w.call("Path", "out/", [0, 0, 0]) == "out" && w.file("outx", [0]) != w.file("out/x", START)
    ensures var program := [Writing(Add(Same("Path", Str("out/")), Str("x")))];
            ScriptWritesOf(program, AsIs) == Writes([("out/x", true)], false) && !IsRight(program, w)
  {
    assert IsPlain("out/") && IsPlain("x") && "out/" + "x" == "out/x" && "out" + "x" == "outx";
    AddedToCallIsRightWhen("Path", "out/", "x", w);
  }

  /** `open(os.path.join(a, os.path.abspath(b)), "w")` writes `b`; `a/b` is recorded. */
  lemma JoinedAbsoluteIsRightWhen(a: string, b: string, w: World)
    requires IsPlain(a) && IsPlain(b) && a != "" && b != "" && b[0] != '/'
             && !IsRelative(w.call("os.path.abspath", b, [0, 0, 1]))
    ensures var path := Join([Str(a), Same("os.path.abspath", Str(b))]);
            var file := w.file(w.call("os.path.abspath", b, [0, 0, 1]), [0]);
            && ScriptWritesOf([Writing(path)], AsIs) == Writes([(PathJoin(a, b), true)], false)
            && (IsRight([Writing(path)], w) <==> file == w.file(PathJoin(a, b), START) && !w.isTemporary(file))
  {
    var l, r := Str(a), Same("os.path.abspath", Str(b));
    var path := Join([l, r]);
    assert [0] + [0] == [0, 0] && [0, 0] + [1] == [0, 0, 1];
    TextOfLiteral(a, w, [0, 0] + [0]);
    TextOfCall("os.path.abspath", b, w, [0, 0, 1]);
    TwoParts(l, r, w, [0, 0]);
    TwoValues(a, b, true);
    if IsMarked(PathJoin(a, b)) { MarkedIsNotPlain(PathJoin(a, b)); }
    TwoTexts(Text(a, None), Text(w.call("os.path.abspath", b, [0, 0, 1]), None), true, w, [0, 0]);
    OpenIsRightWhen(path, PathJoin(a, b), w);
  }

  // ---------------------------------------------------------------- temporary paths

  /** `open(Path(tempfile.mkdtemp()).name, "w")` writes the last component of the name, and nothing is recorded. */
  lemma NameOfPathIsRightWhen(w: World)
    ensures var path := NameOf(Same("Path", Temp(TemporaryName)));
            var file := w.file(PathName(w.call("Path", w.temp([0, 0, 0, 0]), [0, 0, 0])), [0]);
            && ScriptWritesOf([Writing(path)], AsIs) == NOTHING
            && ExecBody([Writing(path)], map[], 0, w).writes == Written(file, w)
            && (IsRight([Writing(path)], w) <==> w.isTemporary(file))
  {
    NameOfCallIsRightWhen("Path", w);
  }

  lemma NameOfCallIsRightWhen(call: string, w: World)
    ensures var path := NameOf(Same(call, Temp(TemporaryName)));
            var file := w.file(PathName(w.call(call, w.temp([0, 0, 0, 0]), [0, 0, 0])), [0]);
            && ScriptWritesOf([Writing(path)], AsIs) == NOTHING
            && ExecBody([Writing(path)], map[], 0, w).writes == Written(file, w)
            && (IsRight([Writing(path)], w) <==> w.isTemporary(file))
  {
    var path := NameOf(Same(call, Temp(TemporaryName)));
    assert [0] + [0] == [0, 0];
    TextOfName(call, w);
    TempMarked();
    OpenIsRightWhen(path, TEMPORARY, w);
  }

  lemma TextOfName(call: string, w: World)
    ensures var path, name := NameOf(Same(call, Temp(TemporaryName))), w.call(call, w.temp([0, 0, 0, 0]), [0, 0, 0]);
            && Value(path, map[]) == Some([TEMPORARY]) && OpensNothing(path)
            && Eval(path, map[], w, [0, 0]) == Text(PathName(name), None)
  {
    var temp := Temp(TemporaryName);
    var called := Same(call, temp);
    TextOfTemp(w, [0, 0, 0, 0]);
    assert Children(called) == [temp] && Children(NameOf(called)) == [called];
    assert [0, 0] + [0] == [0, 0, 0] && [0, 0, 0] + [0] == [0, 0, 0, 0];
    assert Eval(called, map[], w, [0, 0, 0])
        == Text(w.call(call, w.temp([0, 0, 0, 0]), [0, 0, 0]), Some([0, 0, 0, 0]));
  }

  lemma TempMarked()
    ensures IsMarked(TEMPORARY)
  {
    assert TEMPORARY[..|TEMPORARY|] == TEMPORARY;
  }

  /** `open(tempfile.mkdtemp() + more, "w")`: nothing is recorded, wherever that leads, as `/../x` does. */
  lemma BehindTemporaryIsRightWhen(more: string, w: World)
    ensures var path, file := Add(Temp(TemporaryName), Str(more)), w.file(w.temp([0, 0, 0]) + more, [0]);
            && ScriptWritesOf([Writing(path)], AsIs) == NOTHING
            && ExecBody([Writing(path)], map[], 0, w).writes == Written(file, w)
            && (IsRight([Writing(path)], w) <==> w.isTemporary(file))
  {
    var path := Add(Temp(TemporaryName), Str(more));
    assert [0] + [0] == [0, 0] && [0, 0] + [0] == [0, 0, 0];
    TextOfTemp(w, [0, 0, 0]);
    TextOfLiteral(more, w, [0, 0] + [1]);
    TwoParts(Temp(TemporaryName), Str(more), w, [0, 0]);
    TwoValues(TEMPORARY, more, false);
    assert (TEMPORARY + more)[..|TEMPORARY|] == TEMPORARY;
    TwoTexts(Text(w.temp([0, 0, 0]), Some([0, 0, 0])), Text(more, None), false, w, [0, 0]);
    OpenIsRightWhen(path, TEMPORARY + more, w);
  }

  /**
   * `open(os.path.join(a, tempfile.mkdtemp()), "w")` writes only under the temporary directory, which is absolute; but
   * the marker is not, so a file of the checkout is recorded as surely written.
   */
  lemma AppendedTemporaryMisleads(a: string, w: World)
    requires a != "" && IsPlain(a) && IsReal(w) && w.isTemporary(w.file(w.temp([0, 0, 1]), [0]))
    ensures var program := [Writing(Join([Str(a), Temp(TemporaryName)]))];
            && ScriptWritesOf(program, AsIs) == Writes([(PathJoin(a, TEMPORARY), true)], false)
            && ExecBody(program, map[], 0, w).writes == multiset{} && !IsRight(program, w)
  {
    var l, r := Str(a), Temp(TemporaryName);
    var path, v, d := Join([l, r]), PathJoin(a, TEMPORARY), w.temp([0, 0, 1]);
    assert [0] + [0] == [0, 0] && [0, 0] + [1] == [0, 0, 1];
    TextOfLiteral(a, w, [0, 0] + [0]);
    TextOfTemp(w, [0, 0, 1]);
    TwoParts(l, r, w, [0, 0]);
    TwoValues(a, TEMPORARY, true);
    assert v[0] == a[0] && a[0] in a;
    if IsMarked(v) { MarkedIsNotPlain(v); }
    assert IsDirectoryName(d);
    TwoTexts(Text(a, None), Text(d, Some([0, 0, 1])), true, w, [0, 0]);
    OpenIsRightWhen(path, v, w);
  }

  /** `open(file=a, mode="w")` is passed over. */
  lemma KeywordIsRightWhen(a: string, w: World)
    ensures var program := [Do(OpenKeyword(Str(a), Str("w")))];
            && ScriptWritesOf(program, AsIs) == NOTHING
            && (IsRight(program, w) <==> w.isTemporary(w.file(a, [0])))
  {
    var e := OpenKeyword(Str(a), Str("w"));
    FoundInOne(e);
    RunInOne(e, w);
    KeywordIsPassedOver(a);
    KeywordRuns(a, w);
    OneFile(w.file(a, [0]), "");
  }

  lemma KeywordParts(a: string)
    ensures var e := OpenKeyword(Str(a), Str("w"));
            Children(e) == [Str(a), Str("w")] && OpensNothing(Str(a)) && OpensNothing(Str("w"))
  {
    assert Children(Str(a)) == [] && Children(Str("w")) == [];
  }

  lemma KeywordIsPassedOver(a: string)
    ensures Calls(OpenKeyword(Str(a), Str("w")), map[], true, AsIs) == NOTHING
  {
    var e, parts := OpenKeyword(Str(a), Str("w")), [Str(a), Str("w")];
    KeywordParts(a);
    QuietWalk(parts, map[], true, AsIs);
    WalkOn(e, [], parts, map[]);
    assert [e] + [] == [e] && [] + parts == parts;
    ThenAfterNothing(NOTHING);
  }

  lemma KeywordRuns(a: string, w: World)
    ensures RunWrites(OpenKeyword(Str(a), Str("w")), map[], w, [0]) == Written(w.file(a, [0]), w)
  {
    var e := OpenKeyword(Str(a), Str("w"));
    KeywordParts(a);
    QuietRuns(e, Children(e), map[], w, [0]);
    WritesUnderW();
  }

  /** One node of the walk. */
  lemma WalkOn(e: Expr, rest: seq<Expr>, parts: seq<Expr>, env: Env)
    requires Children(e) == parts
    ensures CallsOf(Nodes([e] + rest), env, true, AsIs)
         == CallOf(e, env, true, AsIs).Then(CallsOf(Nodes(rest + parts), env, true, AsIs))
  {
    FirstOfWalk([e] + rest, env, true, AsIs);
    assert ([e] + rest)[1..] == rest;
  }

  // ---------------------------------------------------------------- loops

  function Display(elements: seq<string>): (d: seq<Expr>)
    ensures |d| == |elements| && forall i :: 0 <= i < |d| ==> d[i] == Str(elements[i])
  {
    seq(|elements|, i requires 0 <= i < |elements| => Str(elements[i]))
  }

  /** A loop in which the name `p` is rebound and a file written; after it the file `p` names is. */
  function LoopProgram(elements: seq<string>, p: string, a: string, b: string, c: string): seq<Stmt> {
    [Assign([p], Str(a)), For(p + "x", Display(elements), [Assign([p], Str(b)), Writing(Str(c))]), Writing(Name(p))]
  }

  /** The name of one file of the checkout, all along. */
  ghost predicate IsFile(name: string, w: World) {
    IsPlain(name) && !w.isTemporary(w.file(name, START)) && forall at :: SameFile(name, at, name, w)
  }

  lemma ItemsOfDisplay(elements: seq<string>, env: Env)
    ensures Items(Display(elements), env) == Some(elements)
  {
    var values := ValueOfEach(Display(elements), env);
    forall i | 0 <= i < |values| ensures values[i] == Some([elements[i]]) {
      assert values[i] == Value(Display(elements)[i], env);
    }
    FlattenOfOnes(values);
    assert Flatten(values) == elements;
  }

  lemma QuietDisplay(elements: seq<string>)
    ensures forall i :: 0 <= i < |Display(elements)| ==> OpensNothing(Display(elements)[i])
  {
    forall i | 0 <= i < |Display(elements)| ensures OpensNothing(Display(elements)[i]) {
      assert Children(Str(elements[i])) == [];
    }
  }

  lemma FoundInAssign(target: string, text: string, env: Env, top: bool)
    ensures WalkStatement(Assign([target], Str(text)), env, top, AsIs) == (env[target := Some([text])], NOTHING)
  {
    assert Children(Str(text)) == [];
    QuietWalk([Str(text)], env, top, AsIs);
    assert [target][1..] == [];
    assert BindAll([target], Some([text]), env) == env[target := Some([text])];
  }

  lemma FoundInWriting(path: Expr, env: Env, top: bool, name: string)
    requires Value(path, env) == Some([name]) && IsPlain(name) && OpensNothing(path)
    ensures WalkStatement(Writing(path), env, top, AsIs) == (env, Writes([(name, top)], false))
  {
    if IsMarked(name) { MarkedIsNotPlain(name); }
    FoundForOpen(path, env, top, name);
  }

  lemma FoundInTwo(s: Stmt, t: Stmt, env: Env, top: bool)
    ensures var (next, first) := WalkStatement(s, env, top, AsIs);
            var (after, second) := WalkStatement(t, next, top, AsIs);
            WalkBody([s, t], env, top, AsIs) == (after, first.Then(second))
  {
    var (next, first) := WalkStatement(s, env, top, AsIs);
    var (after, second) := WalkStatement(t, next, top, AsIs);
    assert [s, t][1..] == [t] && [t][1..] == [];
    ThenAssociates(second, NOTHING, NOTHING);
    assert WalkBody([t][1..], after, top, AsIs) == (after, NOTHING);
    assert WalkBody([t], next, top, AsIs) == (after, second);
  }

  lemma RunInTwo(s: Stmt, t: Stmt, env: RunEnv, clock: nat, w: World)
    ensures var first := ExecStatement(s, env, clock, w);
            var second := ExecStatement(t, first.env, first.clock, w);
            ExecBody([s, t], env, clock, w) == second.(writes := first.writes + second.writes)
  {
    assert [s, t][1..] == [t] && [t][1..] == [];
    var first := ExecStatement(s, env, clock, w);
    var second := ExecStatement(t, first.env, first.clock, w);
    assert ExecBody([t][1..], second.env, second.clock, w) == Trace(second.env, multiset{}, second.clock);
    assert ExecBody([t], first.env, first.clock, w) == second;
  }

  /** What the analysis finds in the program when it does not unroll the loop. */
  lemma FoundWithoutUnrolling(elements: seq<string>, p: string, a: string, b: string, c: string)
    requires IsPlain(b) && IsPlain(c) && !(1 <= |elements| <= MAX_VALUES)
    ensures ScriptWritesOf(LoopProgram(elements, p, a, b, c), AsIs) == Writes([(c, false), (b, true)], false)
  {
    var program := LoopProgram(elements, p, a, b, c);
    var env1: Env := map[p := Some([a])];
    FoundInAssign(p, a, map[], true);
    assert program == [program[0]] + program[1..] && program[1..] == [program[1], program[2]];
    var inLoop := env1[p + "x" := None];
    LoopFound(p, b, c, inLoop);
    QuietDisplay(elements);
    QuietWalk(Display(elements), env1, true, AsIs);
    ItemsOfDisplay(elements, env1);
    var after := inLoop[p := Some([b])];
    ThenAfterNothing(Writes([(c, false)], false));
    assert WalkStatement(program[1], env1, true, AsIs) == (after, Writes([(c, false)], false));
    assert Children(Name(p)) == [];
    FoundInWriting(Name(p), after, true, b);
    FoundInTwo(program[1], program[2], env1, true);
    ThenAfterNothing(Writes([(c, false), (b, true)], false));
  }

  lemma LoopFound(p: string, b: string, c: string, env: Env)
    requires IsPlain(c)
    ensures WalkBody([Assign([p], Str(b)), Writing(Str(c))], env, false, AsIs)
         == (env[p := Some([b])], Writes([(c, false)], false))
  {
    assert Children(Str(c)) == [];
    FoundInAssign(p, b, env, false);
    FoundInWriting(Str(c), env[p := Some([b])], false, c);
    FoundInTwo(Assign([p], Str(b)), Writing(Str(c)), env, false);
    ThenAfterNothing(Writes([(c, false)], false));
  }

  lemma RunOfWriting(path: Expr, env: RunEnv, clock: nat, w: World, name: string)
    requires OpensNothing(path) && Eval(path, env, w, [clock] + [0]) == Text(name, None) && IsFile(name, w)
    ensures ExecStatement(Writing(path), env, clock, w) == Trace(env, multiset{w.file(name, START)}, clock + 1)
  {
    assert SameFile(name, [clock], name, w);
    RunOfOpen(path, env, w, [clock]);
  }

  lemma RunOfAssign(target: string, text: string, env: RunEnv, clock: nat, w: World)
    ensures ExecStatement(Assign([target], Str(text)), env, clock, w)
         == Trace(env[target := Text(text, None)], multiset{}, clock + 1)
  {
    assert Children(Str(text)) == [];
    QuietRun(Str(text), env, w, [clock]);
    assert [target][1..] == [];
    assert RunBind([target], Text(text, None), env) == env[target := Text(text, None)];
  }

  lemma {:induction false} RunOfDisplay(elements: seq<string>, env: RunEnv, w: World, at: Position)
    ensures DisplayWrites(Display(elements), env, w, at) == multiset{}
    decreases |elements|
  {
    if elements != [] {
      var n := |elements| - 1;
      RunOfDisplay(elements[..n], env, w, at);
      assert Display(elements)[..n] == Display(elements[..n]);
      assert Children(Str(elements[n])) == [];
      QuietRun(Str(elements[n]), env, w, at + [n]);
    }
  }

  lemma RunOfLoop(items: seq<RunValue>, p: string, b: string, c: string, env: RunEnv, clock: nat, w: World)
    requires items != [] && IsFile(c, w)
    ensures w.file(c, START) in ExecItems(p + "x", items, [Assign([p], Str(b)), Writing(Str(c))], env, clock, w).writes
  {
    var inLoop := env[p + "x" := items[0]];
    RunOfAssign(p, b, inLoop, clock, w);
    assert Children(Str(c)) == [];
    RunOfWriting(Str(c), inLoop[p := Text(b, None)], clock + 1, w, c);
    RunInTwo(Assign([p], Str(b)), Writing(Str(c)), inLoop, clock, w);
  }

  /** The file written besides `b`: `a` when the loop does not run, `c` when it does. */
  lemma AlsoWritten(elements: seq<string>, p: string, a: string, b: string, c: string, w: World)
    requires IsFile(a, w) && IsFile(c, w)
    ensures w.file(if elements == [] then a else c, START)
            in ExecBody(LoopProgram(elements, p, a, b, c), map[], 0, w).writes
  {
    var program, env := LoopProgram(elements, p, a, b, c), map[p := Text(a, None)];
    RunOfProgram(elements, p, a, b, c, w);
    RunOfDisplay(elements, env, w, [1]);
    if elements == [] {
      assert Children(Name(p)) == [];
      RunOfWriting(Name(p), env, 2, w, a);
    } else {
      RunOfLoop(EvalEach(Display(elements), env, w, [1]), p, b, c, env, 2, w);
    }
  }

  lemma RunOfProgram(elements: seq<string>, p: string, a: string, b: string, c: string, w: World)
    ensures var program, env := LoopProgram(elements, p, a, b, c), map[p := Text(a, None)];
            var loop := ExecStatement(program[1], env, 1, w);
            ExecBody(program, map[], 0, w).writes
            == loop.writes + ExecStatement(program[2], loop.env, loop.clock, w).writes
  {
    var program, env := LoopProgram(elements, p, a, b, c), map[p := Text(a, None)];
    RunOfAssign(p, a, map[], 0, w);
    assert program[1..] == [program[1], program[2]];
    RunInTwo(program[1], program[2], env, 1, w);
  }

  lemma OnlySure(b: string, c: string, w: World)
    ensures Surely([(c, false), (b, true)], w) == multiset{w.file(b, START)}
  {
    assert [(c, false), (b, true)][..1] == [(c, false)] && [(c, false)][..0] == [];
    assert Surely([(c, false)], w) == multiset{};
  }

  // ---------------------------------------------------------------- the loop program when it is unrolled

  lemma FileIsRight(name: string, w: World)
    requires IsFile(name, w)
    ensures IsPathRight([name], Exact, w, AsIs)
  {
    if IsMarked(name) { MarkedIsNotPlain(name); }
    forall under, at | IsTagged(name, under) ensures SameFile(Base(name, under, w), at, Base(name, under, w), w) {
      assert SameFile(name, at, name, w);
    }
  }

  lemma CleanLeaf(e: Expr, env: Env, levels: Levels, w: World)
    requires Children(e) == [] && (e.Str? || e.Name?) && Grade(e, env, levels, w).Some?
    ensures IsClean(e, env, levels, w, AsIs) && HasLiteralModes(e) && OpensNothing(e)
  {
  }

  lemma CleanWriting(path: Expr, env: Env, levels: Levels, w: World, name: string)
    requires path.Str? || path.Name?
    requires Value(path, env) == Some([name]) && Grade(path, env, levels, w) == Some(Exact) && IsFile(name, w)
    ensures Follow(Writing(path), env, levels, w, AsIs) == Some(levels) && HasLiteralModesIn(Writing(path))
  {
    var e := Opening(path);
    assert Children(e) == [path, Str("w")] && IsPlain("w");
    FileIsRight(name, w);
    CleanLeaf(path, env, levels, w);
    CleanLeaf(Str("w"), env, levels, w);
    assert AreClean(e, [path, Str("w")], env, levels, w, AsIs);
  }

  lemma CleanAssign(p: string, text: string, env: Env, levels: Levels, w: World)
    requires IsPlain(text)
    ensures Follow(Assign([p], Str(text)), env, levels, w, AsIs) == Some(levels[p := Exact])
    ensures HasLiteralModesIn(Assign([p], Str(text)))
  {
    CleanLeaf(Str(text), env, levels, w);
    assert [p][1..] == [];
    assert BindLevels([p], Exact, levels) == levels[p := Exact];
  }

  lemma FollowTwo(s: Stmt, t: Stmt, env: Env, levels: Levels, levels': Levels, w: World)
    requires Follow(s, env, levels, w, AsIs) == Some(levels')
    ensures FollowBody([s, t], env, levels, w, AsIs)
         == Follow(t, WalkStatement(s, env, true, AsIs).0, levels', w, AsIs)
  {
    var env' := WalkStatement(s, env, true, AsIs).0;
    assert [s, t][1..] == [t] && [t][1..] == [];
    var last := Follow(t, env', levels', w, AsIs);
    if last.Some? {
      assert FollowBody([t][1..], WalkStatement(t, env', true, AsIs).0, last.value, w, AsIs) == last;
    }
    assert FollowBody([t], env', levels', w, AsIs) == last;
  }

  lemma FollowLoopBody(p: string, b: string, c: string, env: Env, levels: Levels, w: World)
    requires IsPlain(b) && IsFile(c, w)
    ensures FollowBody([Assign([p], Str(b)), Writing(Str(c))], env, levels, w, AsIs) == Some(levels[p := Exact])
    ensures var after := NamesAfter([Assign([p], Str(b)), Writing(Str(c))], env, AsIs);
            p in after && after[p] == Some([b])
  {
    CleanAssign(p, b, env, levels, w);
    FoundInAssign(p, b, env, true);
    CleanWriting(Str(c), env[p := Some([b])], levels[p := Exact], w, c);
    FollowTwo(Assign([p], Str(b)), Writing(Str(c)), env, levels, levels[p := Exact], w);
    FoundInTwo(Assign([p], Str(b)), Writing(Str(c)), env, true);
  }

  lemma {:induction false} FollowLoop(
    items: seq<string>, p: string, b: string, c: string, env: Env, levels: Levels, w: World)
    requires IsPlain(b) && IsFile(c, w) && items != []
    ensures var loop := [Assign([p], Str(b)), Writing(Str(c))];
            var after := FollowItems(p + "x", items, loop, env, levels, w, AsIs);
            var names := WalkItems(p + "x", items, loop, env, true, AsIs).0;
            after.Some? && p in after.value && after.value[p] == Exact && p in names && names[p] == Some([b])
    decreases |items|
  {
    var loop, bound := [Assign([p], Str(b)), Writing(Str(c))], env[p + "x" := Some([items[0]])];
    var levels' := levels[p + "x" := Exact];
    FollowLoopBody(p, b, c, bound, levels', w);
    if |items| > 1 {
      FollowLoop(items[1..], p, b, c, NamesAfter(loop, bound, AsIs), levels'[p := Exact], w);
    } else {
      assert items[1..] == [];
    }
  }

  lemma TameProgram(elements: seq<string>, p: string, a: string, b: string, c: string, w: World)
    requires IsFile(a, w) && IsFile(b, w) && IsFile(c, w) && 1 <= |elements| <= MAX_VALUES
    requires forall i :: 0 <= i < |elements| ==> IsPlain(elements[i])
    ensures IsTame(LoopProgram(elements, p, a, b, c), w, AsIs) && AllLiteral(LoopProgram(elements, p, a, b, c))
  {
    var program := LoopProgram(elements, p, a, b, c);
    var env: Env, levels: Levels := map[p := Some([a])], map[p := Exact];
    CleanAssign(p, a, map[], map[], w);
    FoundInAssign(p, a, map[], true);
    FollowFor(elements, p, b, c, env, levels, w);
    var after := Follow(program[1], env, levels, w, AsIs).value;
    FollowTwo(program[1], program[2], env, levels, after, w);
    CleanWriting(Name(p), WalkStatement(program[1], env, true, AsIs).0, after, w, b);
    assert program[1..] == [program[1], program[2]];
  }

  lemma DisplayIsClean(elements: seq<string>, env: Env, levels: Levels, w: World)
    requires forall i :: 0 <= i < |elements| ==> IsPlain(elements[i])
    ensures forall i :: 0 <= i < |elements| ==>
              IsClean(Display(elements)[i], env, levels, w, AsIs) && HasLiteralModes(Display(elements)[i])
    ensures AreExact(Display(elements), env, levels, w)
  {
    forall i | 0 <= i < |elements|
      ensures IsClean(Display(elements)[i], env, levels, w, AsIs) && HasLiteralModes(Display(elements)[i])
      ensures Grade(Display(elements)[i], env, levels, w) == Some(Exact)
    {
      CleanLeaf(Str(elements[i]), env, levels, w);
    }
  }

  lemma FollowFor(elements: seq<string>, p: string, b: string, c: string, env: Env, levels: Levels, w: World)
    requires IsFile(b, w) && IsFile(c, w) && 1 <= |elements| <= MAX_VALUES
    requires forall i :: 0 <= i < |elements| ==> IsPlain(elements[i])
    ensures var s := For(p + "x", Display(elements), [Assign([p], Str(b)), Writing(Str(c))]);
            var after, names := Follow(s, env, levels, w, AsIs), WalkStatement(s, env, true, AsIs).0;
            && after.Some? && p in after.value && after.value[p] == Exact && p in names && names[p] == Some([b])
            && HasLiteralModesIn(s)
  {
    ItemsOfDisplay(elements, env);
    DisplayIsClean(elements, env, levels, w);
    FollowLoop(elements, p, b, c, env, levels, w);
    CleanAssign(p, b, env, levels, w);
    CleanWriting(Str(c), env, levels, w, c);
  }

  /** The loop program is analysed right exactly when the analysis unrolls its loop: for one to 32 items. */
  lemma LoopsMustBeUnrolled(elements: seq<string>, p: string, a: string, b: string, c: string, w: World)
    requires IsReal(w) && IsFile(a, w) && IsFile(b, w) && IsFile(c, w)
    requires w.file(b, START) != w.file(a, START) && w.file(b, START) != w.file(c, START)
    requires forall i :: 0 <= i < |elements| ==> IsPlain(elements[i])
    ensures IsRight(LoopProgram(elements, p, a, b, c), w) <==> 1 <= |elements| <= 32
  {
    if 1 <= |elements| <= 32 {
      TameProgram(elements, p, a, b, c, w);
      AnalysisIsSound(LoopProgram(elements, p, a, b, c), map[], w, AsIs);
    } else {
      FoundWithoutUnrolling(elements, p, a, b, c);
      AlsoWritten(elements, p, a, b, c, w);
      OnlySure(b, c, w);
    }
  }

  // ---------------------------------------------------------------- a conditional inside a call

  /** `f(open(a, "w") if t else open(b, "w"))`. */
  function Conditional(a: string, b: string): Expr { IfElse(Cwd, Opening(Str(a)), Opening(Str(b))) }

  lemma CallOfOpen(a: string)
    requires IsPlain(a)
    ensures CallOf(Opening(Str(a)), map[], true, AsIs) == Writes([(a, true)], false)
  {
    WritesUnderW();
    OpenIsFound("w", a, true);
    if IsMarked(a) { MarkedIsNotPlain(a); }
  }

  lemma PartsOfConditional(a: string, b: string)
    ensures Children(Conditional(a, b)) == [Cwd, Opening(Str(a)), Opening(Str(b))] && Children(Cwd) == []
    ensures Children(Opening(Str(a))) == [Str(a), Str("w")]
    ensures OpensNothing(Str(a)) && OpensNothing(Str("w")) && OpensNothing(Cwd)
  {
    assert Children(Str(a)) == [] && Children(Str("w")) == [];
  }

  lemma FoundForTwo(a: string, b: string)
    requires IsPlain(a) && IsPlain(b)
    ensures CallsOf(Nodes([Opening(Str(a)), Opening(Str(b))]), map[], true, AsIs)
            == Writes([(a, true), (b, true)], false)
  {
    PartsOfConditional(a, b);
    PartsOfConditional(b, a);
    CallOfOpen(a);
    CallOfOpen(b);
    QuietWalk([Str(a), Str("w")] + [Str(b), Str("w")], map[], true, AsIs);
    WalkTwo(Opening(Str(a)), Opening(Str(b)), [Str(a), Str("w")], [Str(b), Str("w")], Writes([(a, true)], false),
            Writes([(b, true)], false));
    assert [(a, true)] + [(b, true)] == [(a, true), (b, true)];
  }

  lemma WalkTwo(x: Expr, y: Expr, parts: seq<Expr>, more: seq<Expr>, inX: Writes, inY: Writes)
    requires Children(x) == parts && Children(y) == more && CallsOf(Nodes(parts + more), map[], true, AsIs) == NOTHING
    requires CallOf(x, map[], true, AsIs) == inX && CallOf(y, map[], true, AsIs) == inY
    ensures CallsOf(Nodes([x, y]), map[], true, AsIs) == inX.Then(inY)
  {
    assert [x, y] == [x] + [y];
    WalkOn(x, [y], parts, map[]);
    WalkOn(y, parts, more, map[]);
    ThenAssociates(inY, NOTHING, NOTHING);
  }

  lemma FoundInConditional(a: string, b: string)
    requires IsPlain(a) && IsPlain(b)
    ensures Calls(Other([Conditional(a, b)]), map[], true, AsIs) == Writes([(a, true), (b, true)], false)
  {
    var opens := [Opening(Str(a)), Opening(Str(b))];
    PartsOfConditional(a, b);
    FoundForTwo(a, b);
    assert Children(Conditional(a, b)) == [Cwd] + opens;
    FoundBelow(Conditional(a, b), opens, [Cwd] + opens, Writes([(a, true), (b, true)], false));
    assert Children(Other([Conditional(a, b)])) == [Conditional(a, b)];
    WalkPastOnly(Other([Conditional(a, b)]), [Conditional(a, b)], Writes([(a, true), (b, true)], false));
  }

  lemma FoundBelow(e: Expr, opens: seq<Expr>, parts: seq<Expr>, found: Writes)
    requires Children(e) == parts == [Cwd] + opens && !e.Open? && CallsOf(Nodes(opens), map[], true, AsIs) == found
    ensures CallsOf(Nodes([e]), map[], true, AsIs) == found
  {
    assert opens + [] == opens;
    WalkPast(Cwd, opens, [], opens, found);
    WalkPastOnly(e, parts, found);
  }

  lemma WalkPastOnly(e: Expr, parts: seq<Expr>, found: Writes)
    requires Children(e) == parts && !e.Open? && CallsOf(Nodes(parts), map[], true, AsIs) == found
    ensures CallsOf(Nodes([e]), map[], true, AsIs) == found
  {
    assert [e] + [] == [e] && [] + parts == parts;
    WalkPast(e, [], parts, parts, found);
  }

  /** A node that is no `open` adds nothing. */
  lemma WalkPast(e: Expr, rest: seq<Expr>, parts: seq<Expr>, next: seq<Expr>, found: Writes)
    requires Children(e) == parts && !e.Open? && next == rest + parts
             && CallsOf(Nodes(next), map[], true, AsIs) == found
    ensures CallsOf(Nodes([e] + rest), map[], true, AsIs) == found
  {
    WalkOn(e, rest, parts, map[]);
    ThenAfterNothing(found);
  }

  lemma RunOfConditional(a: string, b: string, w: World)
    requires IsFile(a, w) && IsFile(b, w)
    ensures RunWrites(Other([Conditional(a, b)]), map[], w, [0])
         == multiset{w.file(if w.branch([0, 0]) then a else b, START)}
  {
    assert [0] + [0] == [0, 0];
    RunOfBranches(a, b, w, [0, 0]);
    RunOfWrapped(Conditional(a, b), w);
  }

  lemma RunOfWrapped(part: Expr, w: World)
    ensures RunWrites(Other([part]), map[], w, [0]) == RunWrites(part, map[], w, [0] + [0])
  {
    var e := Other([part]);
    assert Children(e) == [part] && [part][..0] == [];
    assert RunWritesOfEach(e, [part][..0], map[], w, [0]) == multiset{};
  }

  lemma RunOfBranches(a: string, b: string, w: World, at: Position)
    requires IsFile(a, w) && IsFile(b, w)
    ensures RunWrites(Conditional(a, b), map[], w, at) == multiset{w.file(if w.branch(at) then a else b, START)}
  {
    PartsOfConditional(a, b);
    PartsOfConditional(b, a);
    QuietRun(Cwd, map[], w, at + [0]);
    RunOfOpen(Str(a), map[], w, at + [1]);
    RunOfOpen(Str(b), map[], w, at + [2]);
    assert SameFile(a, at + [1], a, w) && SameFile(b, at + [2], b, w);
  }

  /**
   * Only a conditional that is the whole expression is taken for a branch: inside a call both its files count as surely
   * written.
   */
  lemma NestedConditionalMisleads(a: string, b: string, w: World)
    requires IsFile(a, w) && IsFile(b, w)
    ensures var program := [Do(Other([Conditional(a, b)]))];
            && ScriptWritesOf(program, AsIs) == Writes([(a, true), (b, true)], false)
            && ExecBody(program, map[], 0, w).writes == multiset{w.file(if w.branch([0, 0]) then a else b, START)}
            && !IsRight(program, w)
  {
    var e := Other([Conditional(a, b)]);
    FoundInConditional(a, b);
    FoundInOne(e);
    RunInOne(e, w);
    RunOfConditional(a, b, w);
    assert Surely([(a, true), (b, true)], w) == multiset{w.file(a, START), w.file(b, START)} by {
      OneSure(a, w);
      assert [(a, true), (b, true)][..1] == [(a, true)];
    }
    NotBoth(w.file(a, START), w.file(b, START), w.file(if w.branch([0, 0]) then a else b, START));
  }

  lemma NotBoth(a: string, b: string, c: string)
    ensures multiset{c} != multiset{a, b}
  {
    assert |multiset{c}| == 1 && |multiset{a, b}| == 2;
  }
}
