/**
 * Which files a Python program writes, read from its source: `_Walker` of `src/repo_context_service/script_writes.py`.
 */
module ScriptWrites {
  import opened Results
  import opened Texts

  /** Stands for a temporary directory the program makes; no real path starts with it. */
  const TEMPORARY := "\0temporary"
  const MAX_VALUES := 32

  // ---------------------------------------------------------------- programs

  /** What a call of `tempfile` returns: a name, an object with a `name`, or a descriptor and a name. */
  datatype Temporary = TemporaryName | TemporaryDirectory | NamedTemporaryFile | TemporaryPair

  /**
   * An expression: those the analysis follows, `open`, a conditional, and any other over its parts. `Same` is a call
   * the analysis takes to return the path it is given, by its name: `Path`, `str`, `os.path.abspath`, `resolve`, ...
   * and the conversions of f-strings, such as `!r`. `OpenKeyword` is `open(file=..., mode=...)`.
   */
  datatype Expr =
    | Str(text: string)
    | Name(id: string)
    | FString(parts: seq<Expr>)
    | Add(left: Expr, right: Expr)
    | Div(left: Expr, right: Expr)
    | Temp(kind: Temporary)
    | Cwd
    | Same(call: string, arg: Expr)
    | Join(args: seq<Expr>)
    | NameOf(file: Expr)
    | Open(path: Expr, mode: Option<Expr>)
    | OpenKeyword(keywordPath: Expr, keywordMode: Expr)
    | IfElse(test: Expr, body: Expr, orelse: Expr)
    | Other(operands: seq<Expr>)

  /** A module-level statement; `For` loops over a list display. */
  datatype Stmt =
    | Do(expr: Expr)
    | Assign(targets: seq<string>, value: Expr)
    | AugAssign(target: string, operand: Expr)
    | With(context: Expr, variable: Option<string>, within: seq<Stmt>)
    | For(item: string, elements: seq<Expr>, loop: seq<Stmt>)

  function Children(e: Expr): (c: seq<Expr>)
    ensures forall i :: 0 <= i < |c| ==> c[i] < e
  {
    match e
    case FString(parts) => parts
    case Add(l, r) => [l, r]
    case Div(l, r) => [l, r]
    case Same(_, a) => [a]
    case Join(args) => args
    case NameOf(f) => [f]
    case Open(p, m) => [p] + if m.Some? then [m.value] else []
    case OpenKeyword(p, m) => [p, m]
    case IfElse(t, a, b) => [t, a, b]
    case Other(operands) => operands
    case _ => []
  }

  // ---------------------------------------------------------------- what the analysis knows of a value

  /** Every text a value can stand for, or None when it is not followed. */
  type Values = Option<seq<string>>
  type Env = map<string, Values>

  /** `posixpath.join(a, b)`. */
  function PathJoin(a: string, b: string): string {
    if b != "" && b[0] == '/' then b else if a == "" || a[|a| - 1] == '/' then a + b else a + "/" + b
  }

  function Glue(a: string, b: string, slash: bool): string { if slash then PathJoin(a, b) else a + b }

  function GlueEach(a: string, piece: seq<string>, slash: bool): seq<string> {
    seq(|piece|, i requires 0 <= i < |piece| => Glue(a, piece[i], slash))
  }

  function Product(out: seq<string>, piece: seq<string>, slash: bool): seq<string> {
    if out == [] then [] else GlueEach(out[0], piece, slash) + Product(out[1..], piece, slash)
  }

  /** The loop of `_combine` from `position` on. */
  function CombineFrom(pieces: seq<Values>, position: nat, out: seq<string>, slash: bool): Values
    requires position <= |pieces| && forall i :: 0 <= i < |pieces| ==> pieces[i].Some?
    decreases |pieces| - position
  {
    if position == |pieces| then Some(out)
    else
      var next := Product(out, pieces[position].value, slash && position > 0);
      if |next| > MAX_VALUES then None else CombineFrom(pieces, position + 1, next, slash)
  }

  function Combine(pieces: seq<Values>, slash: bool): Values {
    if exists i :: 0 <= i < |pieces| && pieces[i].None? then None else CombineFrom(pieces, 0, [""], slash)
  }

  function Value(e: Expr, env: Env): Values {
    match e
    case Str(text) => Some([text])
    case Name(id) => if id in env then env[id] else None
    case FString(parts) => Combine(ValueOfEach(parts, env), false)
    case Add(l, r) => Combine([Value(l, env), Value(r, env)], false)
    case Div(l, r) => Combine([Value(l, env), Value(r, env)], true)
    case Temp(_) => Some([TEMPORARY])
    case Cwd => Some(["."])
    case Same(_, a) => Value(a, env)
    case Join(args) => if args == [] then None else Combine(ValueOfEach(args, env), true)
    case NameOf(f) => var inner := Value(f, env); if inner == Some([TEMPORARY]) then inner else None
    case _ => None
  }

  function ValueOfEach(es: seq<Expr>, env: Env): (r: seq<Values>)
    ensures |r| == |es|
    ensures forall i :: 0 <= i < |es| ==> r[i] == Value(es[i], env)
  {
    if es == [] then [] else [Value(es[0], env)] + ValueOfEach(es[1..], env)
  }

  // ---------------------------------------------------------------- the walk

  datatype Writes = Writes(written: seq<(string, bool)>, untraceable: bool) {
    function Then(more: Writes): Writes { Writes(written + more.written, untraceable || more.untraceable) }
  }

  const NOTHING := Writes([], false)

  predicate IsWriteMode(mode: string) {
    exists i :: 0 <= i < |mode| && mode[i] in "wax+"
  }

  predicate OpensForWriting(mode: Values) {
    mode.None? || exists i :: 0 <= i < |mode.value| && IsWriteMode(mode.value[i])
  }

  /** What recording one path adds. */
  function Recorded(path: string, surely: bool, norm: string -> string): seq<(string, bool)> {
    var normal := if StartsWith(path, TEMPORARY) then path else norm(path);
    if StartsWith(normal, TEMPORARY) then [] else [(normal, surely)]
  }

  function RecordedEach(paths: seq<string>, surely: bool, norm: string -> string): seq<(string, bool)> {
    if paths == [] then [] else Recorded(paths[0], surely, norm) + RecordedEach(paths[1..], surely, norm)
  }

  /** What opening a path adds. */
  function OpenFound(mode: Values, path: Values, surely: bool, norm: string -> string): Writes {
    if !OpensForWriting(mode) then NOTHING
    else if path.None? then Writes([], true)
    else Writes(RecordedEach(path.value, surely, norm), false)
  }

  /** What one node adds: only `open` for writing changes files here, and one whose path is a keyword is passed over. */
  function CallOf(e: Expr, env: Env, surely: bool, norm: string -> string): Writes {
    if e.Open? && e.mode.Some? then OpenFound(Value(e.mode.value, env), Value(e.path, env), surely, norm) else NOTHING
  }

  function Size(e: Expr): nat
    decreases e, 1
  {
    1 + SizeOfEach(e, Children(e))
  }

  /** The nodes of `es`, which are parts of `of`. */
  function SizeOfEach(of: Expr, es: seq<Expr>): nat
    requires forall i :: 0 <= i < |es| ==> es[i] < of
    decreases of, 0, |es|
  {
    if es == [] then 0 else SizeOfEach(of, es[..|es| - 1]) + Size(es[|es| - 1])
  }

  function TotalSize(es: seq<Expr>): nat {
    if es == [] then 0 else TotalSize(es[..|es| - 1]) + Size(es[|es| - 1])
  }

  lemma {:induction false} TotalSizeConcat(a: seq<Expr>, b: seq<Expr>)
    ensures TotalSize(a + b) == TotalSize(a) + TotalSize(b)
    decreases |b|
  {
    if b == [] {
      assert a + b == a;
    } else {
      TotalSizeConcat(a, b[..|b| - 1]);
      assert (a + b)[..|a + b| - 1] == a + b[..|b| - 1];
    }
  }

  lemma {:induction false} SameSize(of: Expr, es: seq<Expr>)
    requires forall i :: 0 <= i < |es| ==> es[i] < of
    ensures SizeOfEach(of, es) == TotalSize(es)
    decreases |es|
  {
    if es != [] { SameSize(of, es[..|es| - 1]); }
  }

  lemma QueueShrinks(queue: seq<Expr>)
    requires queue != []
    ensures TotalSize(queue[1..] + Children(queue[0])) < TotalSize(queue)
  {
    TotalSizeConcat(queue[1..], Children(queue[0]));
    SameSize(queue[0], Children(queue[0]));
    TotalSizeConcat([queue[0]], queue[1..]);
    assert queue == [queue[0]] + queue[1..] && [queue[0]][..0] == [];
  }

  /** `ast.walk`: every node, those nearest to the root first. */
  function Nodes(queue: seq<Expr>): seq<Expr>
    decreases TotalSize(queue)
  {
    if queue == [] then []
    else
      QueueShrinks(queue);
      [queue[0]] + Nodes(queue[1..] + Children(queue[0]))
  }

  function CallsOf(nodes: seq<Expr>, env: Env, surely: bool, norm: string -> string): Writes {
    if nodes == [] then NOTHING else CallOf(nodes[0], env, surely, norm).Then(CallsOf(nodes[1..], env, surely, norm))
  }

  /** What the calls of an expression add. */
  function Calls(e: Expr, env: Env, top: bool, norm: string -> string): Writes {
    CallsOf(Nodes([e]), env, top && !e.IfElse?, norm)
  }

  function CallsOfEach(es: seq<Expr>, env: Env, top: bool, norm: string -> string): Writes {
    CallsOf(Nodes(es), env, top, norm)
  }

  function BindAll(targets: seq<string>, value: Values, env: Env): Env {
    if targets == [] then env else BindAll(targets[1..], value, env[targets[0] := value])
  }

  function Flatten(values: seq<Values>): (r: seq<string>)
    requires forall i :: 0 <= i < |values| ==> values[i].Some?
  {
    if values == [] then [] else values[0].value + Flatten(values[1..])
  }

  /** The values a list display is looped over, when each is followed. */
  function Items(elements: seq<Expr>, env: Env): Option<seq<string>> {
    var values := ValueOfEach(elements, env);
    if exists i :: 0 <= i < |values| && values[i].None? then None else Some(Flatten(values))
  }

  predicate IsFollowed(items: Option<seq<string>>) {
    items.Some? && 1 <= |items.value| <= MAX_VALUES
  }

  function WalkStatement(s: Stmt, env: Env, top: bool, norm: string -> string): (Env, Writes)
    decreases s, 0
  {
    match s
    case Do(e) => (env, Calls(e, env, top, norm))
    case Assign(targets, e) => (BindAll(targets, Value(e, env), env), Calls(e, env, top, norm))
    case AugAssign(target, e) => (env[target := None], Calls(e, env, top, norm))
    case With(context, variable, within) =>
      var bound := if variable.Some? then env[variable.value := Value(context, env)] else env;
      var (after, writes) := WalkBody(within, bound, top, norm);
      (after, Calls(context, env, top, norm).Then(writes))
    case For(item, elements, loop) =>
      var items := Items(elements, env);
      var (after, writes) :=
        if IsFollowed(items) then WalkItems(item, items.value, loop, env, top, norm)
        else WalkBody(loop, env[item := None], false, norm);
      (after, CallsOfEach(elements, env, top, norm).Then(writes))
  }

  function WalkBody(body: seq<Stmt>, env: Env, top: bool, norm: string -> string): (Env, Writes)
    decreases body, 0
  {
    if body == [] then (env, NOTHING)
    else
      var (next, first) := WalkStatement(body[0], env, top, norm);
      var (after, rest) := WalkBody(body[1..], next, top, norm);
      (after, first.Then(rest))
  }

  function WalkItems(
    item: string, items: seq<string>, loop: seq<Stmt>, env: Env, top: bool, norm: string -> string): (Env, Writes)
    decreases loop, 1, |items|
  {
    if items == [] then (env, NOTHING)
    else
      var (next, first) := WalkBody(loop, env[item := Some([items[0]])], top, norm);
      var (after, rest) := WalkItems(item, items[1..], loop, next, top, norm);
      (after, first.Then(rest))
  }

  // ---------------------------------------------------------------- the walker itself

  class Walker {
    var written: seq<(string, bool)>
    var untraceable: bool
    var env: Env
    const norm: string -> string

    constructor (norm: string -> string)
      ensures this.norm == norm && written == [] && !untraceable && env == map[]
    {
      this.norm, written, untraceable, env := norm, [], false, map[];
    }

    function Result(): Writes
      reads this
    {
      Writes(written, untraceable)
    }

    method Record(paths: Values, surely: bool)
      modifies this`written, this`untraceable
      ensures Result() == old(Result()).Then(
                if paths.None? then Writes([], true) else Writes(RecordedEach(paths.value, surely, norm), false))
    {
      if paths.None? {
        untraceable := true;
        return;
      }
      var all := paths.value;
      for i := 0 to |all|
        invariant untraceable == old(untraceable)
        invariant written + RecordedEach(all[i..], surely, norm) == old(written) + RecordedEach(all, surely, norm)
      {
        assert all[i..][1..] == all[i + 1..];
        ghost var rest := RecordedEach(all[i + 1..], surely, norm);
        assert RecordedEach(all[i..], surely, norm) == Recorded(all[i], surely, norm) + rest;
        assert written + (Recorded(all[i], surely, norm) + rest) == written + Recorded(all[i], surely, norm) + rest;
        written := written + Recorded(all[i], surely, norm);
      }
    }

    method Call(e: Expr, surely: bool)
      modifies this`written, this`untraceable
      ensures Result() == old(Result()).Then(CallOf(e, env, surely, norm))
    {
      if e.Open? && e.mode.Some? && OpensForWriting(Value(e.mode.value, env)) {
        Record(Value(e.path, env), surely);
      }
    }

    method AllCalls(queue: seq<Expr>, surely: bool)
      modifies this`written, this`untraceable
      ensures Result() == old(Result()).Then(CallsOf(Nodes(queue), env, surely, norm))
    {
      var left := queue;
      while left != []
        invariant Result().Then(CallsOf(Nodes(left), env, surely, norm))
                  == old(Result()).Then(CallsOf(Nodes(queue), env, surely, norm))
        decreases TotalSize(left)
      {
        QueueShrinks(left);
        ghost var before := Result();
        ghost var rest := left[1..] + Children(left[0]);
        assert Nodes(left)[1..] == Nodes(rest);
        Call(left[0], surely);
        ThenAssociates(before, CallOf(left[0], env, surely, norm), CallsOf(Nodes(rest), env, surely, norm));
        left := left[1..] + Children(left[0]);
      }
    }

    method Bind(targets: seq<string>, value: Values)
      modifies this`env
      ensures env == BindAll(targets, value, old(env))
    {
      for i := 0 to |targets|
        invariant BindAll(targets[i..], value, env) == BindAll(targets, value, old(env))
      {
        assert targets[i..][1..] == targets[i + 1..];
        env := env[targets[i] := value];
      }
    }

    /** One statement: its effect on the names and on the record is that of `WalkStatement`. */
    method Statement(s: Stmt, top: bool)
      modifies this
      ensures (env, Result()) == (WalkStatement(s, old(env), top, norm).0,
              old(Result()).Then(WalkStatement(s, old(env), top, norm).1))
      decreases s, 0
    {
      ghost var start := Result();
      match s
      case Do(e) => AllCalls([e], top && !e.IfElse?);
      case Assign(targets, e) =>
        AllCalls([e], top && !e.IfElse?);
        Bind(targets, Value(e, env));
      case AugAssign(target, e) =>
        AllCalls([e], top && !e.IfElse?);
        env := env[target := None];
      case With(context, variable, within) =>
        AllCalls([context], top && !context.IfElse?);
        ghost var calls := Calls(context, env, top, norm);
        if variable.Some? { env := env[variable.value := Value(context, env)]; }
        ghost var writes := WalkBody(within, env, top, norm).1;
        Body(within, top);
        ThenAssociates(start, calls, writes);
      case For(item, elements, loop) =>
        AllCalls(elements, top);
        ghost var calls := CallsOfEach(elements, env, top, norm);
        var items := Items(elements, env);
        if IsFollowed(items) {
          ghost var writes := WalkItems(item, items.value, loop, env, top, norm).1;
          EachItem(item, items.value, loop, top);
          ThenAssociates(start, calls, writes);
        } else {
          env := env[item := None];
          ghost var writes := WalkBody(loop, env, false, norm).1;
          Body(loop, false);
          ThenAssociates(start, calls, writes);
        }
    }

    method Body(body: seq<Stmt>, top: bool)
      modifies this
      ensures (env, Result()) == (WalkBody(body, old(env), top, norm).0,
              old(Result()).Then(WalkBody(body, old(env), top, norm).1))
      decreases body, 0
    {
      if body != [] {
        ghost var (next, first) := WalkStatement(body[0], env, top, norm);
        ghost var start := Result();
        Statement(body[0], top);
        ThenAssociates(start, first, WalkBody(body[1..], next, top, norm).1);
        Body(body[1..], top);
      } else {
        ThenAssociates(Result(), NOTHING, NOTHING);
      }
    }

    method EachItem(item: string, items: seq<string>, loop: seq<Stmt>, top: bool)
      modifies this
      ensures (env, Result()) == (WalkItems(item, items, loop, old(env), top, norm).0,
                                  old(Result()).Then(WalkItems(item, items, loop, old(env), top, norm).1))
      decreases loop, 1, |items|
    {
      if items != [] {
        ghost var (next, first) := WalkBody(loop, env[item := Some([items[0]])], top, norm);
        ghost var start := Result();
        env := env[item := Some([items[0]])];
        Body(loop, top);
        ThenAssociates(start, first, WalkItems(item, items[1..], loop, next, top, norm).1);
        EachItem(item, items[1..], loop, top);
      } else {
        ThenAssociates(Result(), NOTHING, NOTHING);
      }
    }
  }

  lemma ThenAssociates(a: Writes, b: Writes, c: Writes)
    ensures a.Then(b.Then(c)) == a.Then(b).Then(c)
    ensures a.Then(NOTHING) == a
  {
  }
}
