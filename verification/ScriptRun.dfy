/**
 * What a Python program really writes when it runs. Whatever the program cannot be read for is a function of the run:
 * other calls, the branch of a conditional, what `expanduser` or `Path` makes of a text, which file a text names.
 */
module ScriptRun {
  import opened Results
  import opened ScriptWrites

  /** Where in a run something is evaluated. */
  type Position = seq<nat>

  /** Before the program starts. */
  const START: Position := []

  /**
   * A text, with the call that made the temporary directory it starts with, if any; or what such a call returned when
   * that is no text.
   */
  datatype RunValue = Text(text: string, under: Option<Position>) | Handle(kind: Temporary, made: Position)

  type RunEnv = map<string, RunValue>

  /**
   * `call` is what a call named so makes of a text, `file` the file a text names at a moment, and `isTemporary` says of
   * a file whether it lies in a temporary directory of the program.
   */
  datatype World = World(
    unknown: Position -> string,
    branch: Position -> bool,
    temp: Position -> string,
    cwd: Position -> string,
    call: (string, string, Position) -> string,
    file: (string, Position) -> string,
    isTemporary: string -> bool)

  /** Temporary directories have absolute names, and what is below one is temporary. */
  ghost predicate IsReal(w: World) {
    && (forall at :: IsDirectoryName(w.temp(at)))
    && (forall at, more :: IsBelow(more) ==> w.isTemporary(w.file(w.temp(at) + more, START)))
  }

  predicate IsDirectoryName(s: string) { s != "" && s[0] == '/' && s[|s| - 1] != '/' && IsPlain(s) }

  predicate IsPlain(s: string) { '\0' !in s }

  /** What may follow a directory's name to name something in it: a slash, and no `..` anywhere. */
  predicate IsBelow(more: string) {
    more == "" || (more[0] == '/' && forall i :: 0 <= i < |more| ==> !IsUp(more, i))
  }

  predicate IsUp(s: string, i: nat)
    requires i < |s|
  {
    i + 2 < |s| && s[i..i + 3] == "/.." && (i + 3 == |s| || s[i + 3] == '/')
  }

  // ---------------------------------------------------------------- expressions

  /** What an object is as a text: a handle is no name of anything. */
  function AsText(r: RunValue, w: World, at: Position): (t: RunValue)
    ensures t.Text?
  {
    if r.Text? then r else Text(w.unknown(at), None)
  }

  function RunGlue(a: RunValue, b: RunValue, slash: bool): (r: RunValue)
    requires a.Text? && b.Text?
    ensures r.Text?
  {
    if slash && b.text != "" && b.text[0] == '/' then b
    else Text(Glue(a.text, b.text, slash), if a.text == "" then b.under else a.under)
  }

  function RunCombine(
    values: seq<RunValue>, position: nat, out: RunValue, slash: bool, w: World, at: Position): (r: RunValue)
    requires position <= |values| && out.Text?
    ensures r.Text?
    decreases |values| - position
  {
    if position == |values| then out
    else
      var next := RunGlue(out, AsText(values[position], w, at + [position]), slash && position > 0);
      RunCombine(values, position + 1, next, slash, w, at)
  }

  /** A path call on a value; of a handle it makes a text that names no temporary file. */
  function Called(call: string, r: RunValue, w: World, at: Position): (t: RunValue)
    ensures t.Text?
  {
    if r.Text? then Text(w.call(call, r.text, at), r.under) else Text(w.unknown(at), None)
  }

  /** `PurePath.name`: the last component of a path; the current directory has none. */
  function PathName(path: string): string { if path == "." then "" else LastComponent(path) }

  function LastComponent(path: string): string {
    if path == "" then ""
    else if path[|path| - 1] == '/' then LastComponent(path[..|path| - 1])
    else AfterSlash(path)
  }

  function AfterSlash(path: string): string {
    if path == "" || path[|path| - 1] == '/' then "" else AfterSlash(path[..|path| - 1]) + [path[|path| - 1]]
  }

  predicate HasName(kind: Temporary) { kind.TemporaryDirectory? || kind.NamedTemporaryFile? }

  /** `.name` of a temporary file or directory is its whole path; of a path it is the last component. */
  function NameOfValue(r: RunValue, w: World, at: Position): (t: RunValue)
    ensures t.Text?
  {
    if r.Text? then Text(PathName(r.text), None)
    else if HasName(r.kind) then Text(w.temp(r.made), Some(r.made))
    else Text(w.unknown(at), None)
  }

  /** What a `with` binds: entering a temporary directory gives its name. */
  function Entered(r: RunValue, w: World): RunValue {
    if r.Handle? && r.kind.TemporaryDirectory? then Text(w.temp(r.made), Some(r.made)) else r
  }

  function Eval(e: Expr, env: RunEnv, w: World, at: Position): RunValue {
    match e
    case Str(text) => Text(text, None)
    case Name(id) => if id in env then env[id] else Text(w.unknown(at), None)
    case FString(parts) => RunCombine(EvalEach(parts, env, w, at), 0, Text("", None), false, w, at)
    case Add(l, r) =>
      RunCombine([Eval(l, env, w, at + [0]), Eval(r, env, w, at + [1])], 0, Text("", None), false, w, at)
    case Div(l, r) =>
      Called("Path",
             RunCombine([Eval(l, env, w, at + [0]), Eval(r, env, w, at + [1])], 0, Text("", None), true, w, at), w, at)
    case Temp(kind) => if kind.TemporaryName? then Text(w.temp(at), Some(at)) else Handle(kind, at)
    case Cwd => Text(w.cwd(at), None)
    case Same(call, a) => Called(call, Eval(a, env, w, at + [0]), w, at)
    case Join(args) =>
      if args == [] then Text(w.unknown(at), None)
      else RunCombine(EvalEach(args, env, w, at), 0, Text("", None), true, w, at)
    case NameOf(f) => NameOfValue(Eval(f, env, w, at + [0]), w, at)
    case IfElse(_, a, b) => if w.branch(at) then Eval(a, env, w, at + [1]) else Eval(b, env, w, at + [2])
    case _ => Text(w.unknown(at), None)
  }

  function EvalEach(es: seq<Expr>, env: RunEnv, w: World, at: Position): (r: seq<RunValue>)
    ensures |r| == |es|
    ensures forall i :: 0 <= i < |es| ==> r[i] == Eval(es[i], env, w, at + [i])
  {
    if es == [] then []
    else EvalEach(es[..|es| - 1], env, w, at) + [Eval(es[|es| - 1], env, w, at + [|es| - 1])]
  }

  // ---------------------------------------------------------------- modes

  function Occurrences(mode: string, c: char): nat {
    if mode == "" then 0 else Occurrences(mode[1..], c) + if mode[0] == c then 1 else 0
  }

  /** The modes Python's `open` takes: one of reading, writing, appending and creating, binary or text, and updating. */
  predicate IsMode(mode: string) {
    && (forall i :: 0 <= i < |mode| ==> mode[i] in ['r', 'w', 'a', 'x', '+', 'b', 't'])
    && Occurrences(mode, 'r') + Occurrences(mode, 'w') + Occurrences(mode, 'a') + Occurrences(mode, 'x') == 1
    && Occurrences(mode, 'b') + Occurrences(mode, 't') <= 1
    && Occurrences(mode, '+') <= 1
  }

  /** A file is opened for writing unless it is only read; any other mode is an error, and nothing is opened. */
  predicate OpensToWrite(mode: string) {
    IsMode(mode) && (Occurrences(mode, 'r') == 0 || Occurrences(mode, '+') == 1)
  }

  /** The files outside the temporary directories that evaluating one node opens for writing. */
  function OwnWrites(e: Expr, env: RunEnv, w: World, at: Position): multiset<string> {
    match e
    case Open(path, Some(mode)) => WritesOfOpen(Eval(mode, env, w, at + [1]), Eval(path, env, w, at + [0]), w, at)
    case OpenKeyword(path, mode) => WritesOfOpen(Eval(mode, env, w, at + [1]), Eval(path, env, w, at + [0]), w, at)
    case _ => multiset{}
  }

  function WritesOfOpen(mode: RunValue, path: RunValue, w: World, at: Position): multiset<string> {
    var file := w.file(AsText(path, w, at).text, at);
    if OpensToWrite(AsText(mode, w, at).text) && !w.isTemporary(file) then multiset{file} else multiset{}
  }

  /** ... and that evaluating an expression does: a conditional evaluates its test and one branch. */
  function RunWrites(e: Expr, env: RunEnv, w: World, at: Position): multiset<string>
    decreases e, 1
  {
    if e.IfElse? then
      RunWrites(e.test, env, w, at + [0])
      + if w.branch(at) then RunWrites(e.body, env, w, at + [1]) else RunWrites(e.orelse, env, w, at + [2])
    else RunWritesOfEach(e, Children(e), env, w, at) + OwnWrites(e, env, w, at)
  }

  function RunWritesOfEach(of: Expr, es: seq<Expr>, env: RunEnv, w: World, at: Position): multiset<string>
    requires forall i :: 0 <= i < |es| ==> es[i] < of
    decreases of, 0, |es|
  {
    if es == [] then multiset{}
    else RunWritesOfEach(of, es[..|es| - 1], env, w, at) + RunWrites(es[|es| - 1], env, w, at + [|es| - 1])
  }

  // ---------------------------------------------------------------- statements

  function RunBind(targets: seq<string>, value: RunValue, env: RunEnv): RunEnv {
    if targets == [] then env else RunBind(targets[1..], value, env[targets[0] := value])
  }

  function DisplayWrites(es: seq<Expr>, env: RunEnv, w: World, at: Position): multiset<string> {
    if es == [] then multiset{}
    else DisplayWrites(es[..|es| - 1], env, w, at) + RunWrites(es[|es| - 1], env, w, at + [|es| - 1])
  }

  /** The names after a statement, what it writes, and the number of expressions evaluated so far. */
  datatype Trace = Trace(env: RunEnv, writes: multiset<string>, clock: nat)

  function ExecStatement(s: Stmt, env: RunEnv, clock: nat, w: World): Trace
    decreases s, 0
  {
    match s
    case Do(e) => Trace(env, RunWrites(e, env, w, [clock]), clock + 1)
    case Assign(targets, e) =>
      Trace(RunBind(targets, Eval(e, env, w, [clock]), env), RunWrites(e, env, w, [clock]), clock + 1)
    case AugAssign(target, e) =>
      Trace(env[target := Text(w.unknown([clock]), None)], RunWrites(e, env, w, [clock]), clock + 1)
    case With(context, variable, within) =>
      var t := ExecBody(within, RunEntered(context, variable, env, clock, w), clock + 1, w);
      t.(writes := RunWrites(context, env, w, [clock]) + t.writes)
    case For(item, elements, loop) =>
      var t := ExecItems(item, EvalEach(elements, env, w, [clock]), loop, env, clock + 1, w);
      t.(writes := DisplayWrites(elements, env, w, [clock]) + t.writes)
  }

  function RunEntered(context: Expr, variable: Option<string>, env: RunEnv, clock: nat, w: World): RunEnv {
    if variable.Some? then env[variable.value := Entered(Eval(context, env, w, [clock]), w)] else env
  }

  function ExecBody(body: seq<Stmt>, env: RunEnv, clock: nat, w: World): Trace
    decreases body, 0
  {
    if body == [] then Trace(env, multiset{}, clock)
    else
      var first := ExecStatement(body[0], env, clock, w);
      var rest := ExecBody(body[1..], first.env, first.clock, w);
      rest.(writes := first.writes + rest.writes)
  }

  function ExecItems(
    item: string, items: seq<RunValue>, loop: seq<Stmt>, env: RunEnv, clock: nat, w: World): Trace
    decreases loop, 1, |items|
  {
    if items == [] then Trace(env, multiset{}, clock)
    else
      var first := ExecBody(loop, env[item := items[0]], clock, w);
      var rest := ExecItems(item, items[1..], loop, first.env, first.clock, w);
      rest.(writes := first.writes + rest.writes)
  }
}
