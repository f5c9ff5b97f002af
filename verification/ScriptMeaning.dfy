/** Paths by their components, and when the analysis of an expression gives up. */
module ScriptMeaning {
  import opened Results
  import opened ScriptWrites
  import opened ScriptRun

  // ---------------------------------------------------------------- paths

  /** The components of a text: what stands between its slashes. */
  predicate AreComponents(parts: seq<string>, text: string) {
    parts != [] && Slashed(parts) == text && forall i :: 0 <= i < |parts| ==> '/' !in parts[i]
  }

  function Slashed(parts: seq<string>): string
    requires parts != []
  {
    if |parts| == 1 then parts[0] else parts[0] + "/" + Slashed(parts[1..])
  }

  /** A text stays below a directory if it starts behind it with a slash, and no component is `..`. */
  lemma {:induction false} BelowIs(more: string, parts: seq<string>)
    requires AreComponents(parts, more)
    ensures IsBelow(more) <==> parts[0] == "" && !HasUpPart(parts)
  {
    FirstComponent(parts);
    if |parts| > 1 {
      var rest := Slashed(parts[1..]);
      if parts[0] == "" {
        assert more == "/" + rest;
        UpIs(rest, parts[1..]);
        OneOfParts(parts);
        assert IsBelow(more) <==> !HasUp(more);
      }
    } else if more != "" {
      assert more[0] in more;
    }
  }

  lemma FirstComponent(parts: seq<string>)
    requires parts != [] && forall i :: 0 <= i < |parts| ==> '/' !in parts[i]
    ensures Slashed(parts) != "" && Slashed(parts)[0] == '/' <==> parts[0] == "" && |parts| > 1
  {
    if parts[0] != "" {
      assert Slashed(parts)[0] == parts[0][0] && parts[0][0] in parts[0];
    }
  }

  predicate HasUp(s: string) { exists i :: 0 <= i < |s| && IsUp(s, i) }

  predicate HasUpPart(parts: seq<string>) { exists k :: 0 <= k < |parts| && parts[k] == ".." }

  /** Somewhere behind a slash stands `..`, up to the next slash or the end. */
  lemma {:induction false} UpIs(text: string, parts: seq<string>)
    requires AreComponents(parts, text)
    ensures HasUp("/" + text) <==> HasUpPart(parts)
    decreases |parts|
  {
    var s, first := "/" + text, parts[0];
    FirstIsUp(text, parts);
    forall i: nat | 0 < i < |first| + 1 && i < |s| ensures !IsUp(s, i) { NotInside(s, first, i); }
    if |parts| > 1 {
      var rest := Slashed(parts[1..]);
      assert text == first + "/" + rest;
      UpIs(rest, parts[1..]);
      assert s[|first| + 1..] == "/" + rest;
      Shifted(s, "/" + rest, |first| + 1);
      OneOfParts(parts);
    }
  }

  lemma OneOfParts(parts: seq<string>)
    requires |parts| > 1
    ensures HasUpPart(parts) <==> parts[0] == ".." || HasUpPart(parts[1..])
  {
    if k :| 0 <= k < |parts| && parts[k] == ".." { if k > 0 { assert parts[1..][k - 1] == ".."; } }
    if k :| 0 <= k < |parts| - 1 && parts[1..][k] == ".." { assert parts[k + 1] == ".."; }
  }

  lemma Shifted(s: string, t: string, n: nat)
    requires 0 < n < |s| && s[n..] == t && forall i: nat :: 0 < i < n ==> !IsUp(s, i)
    ensures HasUp(s) <==> IsUp(s, 0) || HasUp(t)
  {
    if i :| 0 <= i < |s| && IsUp(s, i) {
      if i >= n { UpShifts(s, t, n, i - n); }
    }
    if i :| 0 <= i < |t| && IsUp(t, i) { UpShifts(s, t, n, i); }
  }

  lemma UpShifts(s: string, t: string, n: nat, i: nat)
    requires n <= |s| && s[n..] == t
    ensures i < |t| && IsUp(t, i) <==> n + i < |s| && IsUp(s, n + i)
  {
    if i + 2 < |t| {
      assert s[n + i..n + i + 3] == t[i..i + 3];
      assert i + 3 < |t| ==> t[i + 3] == s[n + i + 3];
    }
  }

  lemma NotInside(s: string, first: string, i: nat)
    requires 0 < i < |first| + 1 && |first| < |s| && s[1..|first| + 1] == first && '/' !in first
    ensures !IsUp(s, i)
  {
    assert s[i] == first[i - 1];
    if i + 2 < |s| { assert s[i..i + 3][0] == s[i]; }
  }

  lemma FirstIsUp(text: string, parts: seq<string>)
    requires AreComponents(parts, text)
    ensures IsUp("/" + text, 0) <==> parts[0] == ".."
  {
    var s, first := "/" + text, parts[0];
    assert |parts| > 1 ==> text == first + ("/" + Slashed(parts[1..]));
    assert text[..|first|] == first;
    if |s| > 2 { assert s[0..3] == ['/', s[1], s[2]]; }
    if |first| > 0 { assert first[0] in first && first[0] == s[1]; }
    if |first| > 1 { assert first[1] in first && first[1] == s[2]; }
    if |first| > 2 { assert first[2] in first && first[2] == s[3]; }
    if |parts| > 1 { assert s[|first| + 1] == '/'; }
  }

  /** The last component is what stands between the last slash that something follows and the slashes at the end. */
  lemma {:induction false} LastComponentIs(path: string) returns (head: string, slashes: string)
    ensures path == head + LastComponent(path) + slashes && '/' !in LastComponent(path)
    ensures (head == "" || head[|head| - 1] == '/') && (forall k :: 0 <= k < |slashes| ==> slashes[k] == '/')
    ensures LastComponent(path) == "" ==> head == ""
  {
    if path == "" {
      head, slashes := "", "";
    } else if path[|path| - 1] == '/' {
      head, slashes := LastComponentIs(path[..|path| - 1]);
      slashes := slashes + "/";
    } else {
      head := AfterSlashIs(path);
      slashes := "";
    }
  }

  lemma {:induction false} AfterSlashIs(path: string) returns (head: string)
    ensures path == head + AfterSlash(path) && '/' !in AfterSlash(path) && (head == "" || head[|head| - 1] == '/')
  {
    if path == "" || path[|path| - 1] == '/' { head := path; }
    else { head := AfterSlashIs(path[..|path| - 1]); }
  }

  // ---------------------------------------------------------------- giving up

  /** `x` is `e` or some part of it. */
  predicate IsPart(x: Expr, e: Expr)
    decreases e
  {
    x == e || exists i :: 0 <= i < |Children(e)| && IsPart(x, Children(e)[i])
  }

  predicate IsPartOfSome(x: Expr, es: seq<Expr>) { exists i :: 0 <= i < |es| && IsPart(x, es[i]) }

  /** The walk visits each part of each expression, and nothing else. */
  lemma {:induction false} NodesAre(queue: seq<Expr>, x: Expr)
    ensures x in Nodes(queue) <==> IsPartOfSome(x, queue)
    decreases TotalSize(queue)
  {
    if queue != [] {
      QueueShrinks(queue);
      var rest := queue[1..] + Children(queue[0]);
      NodesAre(rest, x);
      assert Nodes(queue) == [queue[0]] + Nodes(rest);
      PartsOfQueue(queue, x);
    }
  }

  lemma PartsOfQueue(queue: seq<Expr>, x: Expr)
    requires queue != []
    ensures IsPartOfSome(x, queue) <==> x == queue[0] || IsPartOfSome(x, queue[1..] + Children(queue[0]))
  {
    var more := Children(queue[0]);
    var rest := queue[1..] + more;
    if i :| 0 <= i < |queue| && IsPart(x, queue[i]) {
      if i > 0 { assert rest[i - 1] == queue[i]; }
      else if x != queue[0] {
        var k :| 0 <= k < |more| && IsPart(x, more[k]);
        assert rest[|queue| - 1 + k] == more[k];
      }
    }
    if i :| 0 <= i < |rest| && IsPart(x, rest[i]) {
      if i < |queue| - 1 { assert rest[i] == queue[i + 1]; } else { assert rest[i] == more[i - (|queue| - 1)]; }
    }
  }

  /** A text with one of the letters a file is written with, or a mode the analysis cannot tell. */
  ghost predicate MayWrite(mode: Values) {
    mode.None? || exists i :: 0 <= i < |mode.value| && HasWriteLetter(mode.value[i])
  }

  predicate HasWriteLetter(mode: string) {
    exists k :: 0 <= k < |mode| && (mode[k] == 'w' || mode[k] == 'a' || mode[k] == 'x' || mode[k] == '+')
  }

  /** An `open` that may write a file the analysis cannot name. */
  ghost predicate IsUnnamed(e: Expr, env: Env) {
    e.Open? && e.mode.Some? && MayWrite(Value(e.mode.value, env)) && Value(e.path, env) == None
  }

  lemma WritesAre(mode: Values)
    ensures OpensForWriting(mode) <==> MayWrite(mode)
  {
    if mode.Some? {
      forall i | 0 <= i < |mode.value| ensures IsWriteMode(mode.value[i]) <==> HasWriteLetter(mode.value[i]) {
        LettersAre(mode.value[i]);
      }
    }
  }

  lemma LettersAre(mode: string)
    ensures IsWriteMode(mode) <==> HasWriteLetter(mode)
  {
    var letters := "wax+";
    forall c: char ensures c in letters <==> c == 'w' || c == 'a' || c == 'x' || c == '+' {
      assert letters[0] == 'w' && letters[1] == 'a' && letters[2] == 'x' && letters[3] == '+';
    }
  }

  lemma {:induction false} OneUnnamed(nodes: seq<Expr>, env: Env, surely: bool, norm: string -> string)
    ensures CallsOf(nodes, env, surely, norm).untraceable <==> exists e :: e in nodes && IsUnnamed(e, env)
  {
    if nodes != [] {
      OneUnnamed(nodes[1..], env, surely, norm);
      if nodes[0].Open? && nodes[0].mode.Some? { WritesAre(Value(nodes[0].mode.value, env)); }
      assert CallOf(nodes[0], env, surely, norm).untraceable <==> IsUnnamed(nodes[0], env);
    }
  }

  /** The analysis of an expression gives up exactly if some part of it may write a file that it cannot name. */
  lemma GivesUpWhen(e: Expr, env: Env, top: bool, norm: string -> string)
    ensures Calls(e, env, top, norm).untraceable <==> exists x :: IsPart(x, e) && IsUnnamed(x, env)
  {
    OneUnnamed(Nodes([e]), env, top && !e.IfElse?, norm);
    forall x ensures x in Nodes([e]) <==> IsPart(x, e) {
      NodesAre([e], x);
      assert IsPartOfSome(x, [e]) <==> IsPart(x, [e][0]);
    }
  }

  // ---------------------------------------------------------------- the texts that are followed

  /** Every name that is followed stands for one text, as in every walk. */
  predicate IsSingle(env: Env) { forall id :: id in env && env[id].Some? ==> |env[id].value| == 1 }

  /** `posixpath.join`: an absolute part drops what is before it. */
  function JoinTwo(a: string, b: string): string {
    if b != "" && b[0] == '/' then b else if a != "" && a[|a| - 1] != '/' then a + "/" + b else a + b
  }

  /** Texts one behind the other, or joined as paths. */
  function AllOf(texts: seq<string>, joined: bool): string {
    if texts == [] then ""
    else
      var before, last := AllOf(texts[..|texts| - 1], joined), texts[|texts| - 1];
      if joined && |texts| > 1 then JoinTwo(before, last) else before + last
  }

  /**
   * What the analysis takes an expression for, if it follows it: literals, names, glued and joined texts, and what is
   * given to calls that it takes to return just that.
   */
  ghost predicate StandsFor(e: Expr, env: Env, v: string)
    decreases e, 1
  {
    match e
    case Str(text) => v == text
    case Name(id) => id in env && env[id] == Some([v])
    case FString(_) => IsEach(e, Children(e), env, false, v)
    case Add(_, _) => IsEach(e, Children(e), env, false, v)
    case Div(_, _) => IsEach(e, Children(e), env, true, v)
    case Temp(_) => v == "\0temporary"
    case Cwd => v == "."
    case Same(_, a) => StandsFor(a, env, v)
    case Join(args) => args != [] && IsEach(e, Children(e), env, true, v)
    case NameOf(f) => v == "\0temporary" && StandsFor(f, env, v)
    case _ => false
  }

  /** Each of these parts stands for a text, and `v` is all of them. */
  ghost predicate IsEach(of: Expr, es: seq<Expr>, env: Env, slash: bool, v: string)
    requires forall i :: 0 <= i < |es| ==> es[i] < of
    decreases of, 0, 1
  {
    exists texts :: StandForEach(of, es, env, texts) && v == AllOf(texts, slash)
  }

  ghost predicate StandForEach(of: Expr, es: seq<Expr>, env: Env, texts: seq<string>)
    requires forall i :: 0 <= i < |es| ==> es[i] < of
    decreases of, 0, 0
  {
    |texts| == |es| && forall i :: 0 <= i < |es| ==> StandsFor(es[i], env, texts[i])
  }

  /** Single texts glued: the list the analysis keeps has one text. */
  function Singles(texts: seq<string>): (pieces: seq<Values>)
    ensures |pieces| == |texts| && forall i :: 0 <= i < |texts| ==> pieces[i] == Some([texts[i]])
  {
    seq(|texts|, i requires 0 <= i < |texts| => Some([texts[i]]))
  }

  lemma {:induction false} CombineOne(pieces: seq<Values>, texts: seq<string>, n: nat, out: string, slash: bool)
    requires n <= |pieces| == |texts| && pieces == Singles(texts) && out == AllOf(texts[..n], slash)
    ensures CombineFrom(pieces, n, [out], slash) == Some([AllOf(texts, slash)])
    decreases |pieces| - n
  {
    if n < |pieces| {
      var next := Glue(out, texts[n], slash && n > 0);
      ProductOfOnes(out, texts[n], slash && n > 0);
      assert texts[..n + 1][..n] == texts[..n];
      CombineOne(pieces, texts, n + 1, next, slash);
    } else {
      assert texts[..n] == texts;
    }
  }

  lemma ProductOfOnes(a: string, b: string, slash: bool)
    ensures Product([a], [b], slash) == [Glue(a, b, slash)]
  {
    assert [a][1..] == [];
  }

  /** The value of glued parts, when each part is one text. */
  lemma CombinedIs(pieces: seq<Values>, texts: seq<string>, slash: bool)
    requires pieces == Singles(texts)
    ensures Combine(pieces, slash) == Some([AllOf(texts, slash)])
  {
    assert texts[..0] == [];
    CombineOne(pieces, texts, 0, "", slash);
  }

  /** A value is one text or none. */
  predicate IsOneOrNone(v: Values) { v.Some? ==> |v.value| == 1 }

  /** Exactly when the analysis follows an expression, and to which text. */
  lemma {:induction false} ValueIs(e: Expr, env: Env, v: string)
    requires IsSingle(env)
    ensures IsOneOrNone(Value(e, env))
    ensures Value(e, env) == Some([v]) <==> StandsFor(e, env, v)
    decreases e, 1
  {
    match e
    case Name(id) =>
    case FString(parts) => EachIs(e, parts, env, false, v);
    case Add(l, r) =>
      EachIs(e, [l, r], env, false, v);
      ValuesOfTwo(l, r, env);
    case Div(l, r) =>
      EachIs(e, [l, r], env, true, v);
      ValuesOfTwo(l, r, env);
    case Same(_, a) => ValueIs(a, env, v);
    case Join(args) => if args != [] { EachIs(e, args, env, true, v); }
    case NameOf(f) => ValueIs(f, env, v);
    case _ =>
  }

  lemma {:induction false} EachIs(of: Expr, es: seq<Expr>, env: Env, slash: bool, v: string)
    requires IsSingle(env) && forall i :: 0 <= i < |es| ==> es[i] < of
    ensures IsOneOrNone(Combine(ValueOfEach(es, env), slash))
    ensures Combine(ValueOfEach(es, env), slash) == Some([v]) <==> IsEach(of, es, env, slash, v)
    decreases of, 0, 1
  {
    forall i | 0 <= i < |es| ensures IsOneOrNone(Value(es[i], env)) { ValueIs(es[i], env, ""); }
    if forall i :: 0 <= i < |es| ==> Value(es[i], env).Some? {
      var texts := seq(|es|, i requires 0 <= i < |es| => Value(es[i], env).value[0]);
      forall i | 0 <= i < |es| ensures Value(es[i], env) == Some([texts[i]]) && StandsFor(es[i], env, texts[i]) {
        assert Value(es[i], env).value == [texts[i]];
        ValueIs(es[i], env, texts[i]);
      }
      assert ValueOfEach(es, env) == Singles(texts);
      CombinedIs(ValueOfEach(es, env), texts, slash);
      assert StandForEach(of, es, env, texts);
    }
    if IsEach(of, es, env, slash, v) { EachStands(of, es, env, slash, v); }
  }

  lemma {:induction false} EachStands(of: Expr, es: seq<Expr>, env: Env, slash: bool, v: string)
    requires IsSingle(env) && (forall i :: 0 <= i < |es| ==> es[i] < of) && IsEach(of, es, env, slash, v)
    ensures Combine(ValueOfEach(es, env), slash) == Some([v])
    decreases of, 0, 0
  {
    var texts :| StandForEach(of, es, env, texts) && v == AllOf(texts, slash);
    forall i | 0 <= i < |es| ensures Value(es[i], env) == Some([texts[i]]) { ValueIs(es[i], env, texts[i]); }
    assert ValueOfEach(es, env) == Singles(texts);
    CombinedIs(ValueOfEach(es, env), texts, slash);
  }

  lemma ValuesOfTwo(l: Expr, r: Expr, env: Env)
    ensures ValueOfEach([l, r], env) == [Value(l, env), Value(r, env)]
  {
    assert [l, r][1..] == [r] && [r][1..] == [];
  }

  // ---------------------------------------------------------------- names and certainty

  /** What a statement that is no block does to the names. */
  lemma NamesAre(s: Stmt, env: Env, top: bool, norm: string -> string, id: string)
    requires s.Do? || s.Assign? || s.AugAssign?
    ensures var after := WalkStatement(s, env, top, norm).0;
            match s
            case Assign(targets, e) =>
              if id in targets then id in after && after[id] == Value(e, env) else IsUnchanged(id, env, after)
            case AugAssign(target, _) =>
              if id == target then id in after && after[id] == None else IsUnchanged(id, env, after)
            case _ => after == env
  {
    if s.Assign? { BoundIs(s.targets, Value(s.value, env), env, id); }
  }

  predicate IsUnchanged(id: string, env: Env, after: Env) {
    (id in after <==> id in env) && (id in env ==> after[id] == env[id])
  }

  lemma {:induction false} BoundIs(targets: seq<string>, value: Values, env: Env, id: string)
    ensures var after := BindAll(targets, value, env);
            if id in targets then id in after && after[id] == value else IsUnchanged(id, env, after)
  {
    if targets != [] { BoundIs(targets[1..], value, env[targets[0] := value], id); }
  }

  /** A `with` binds its name for its body and after it. */
  lemma WithIs(context: Expr, variable: Option<string>, within: seq<Stmt>, env: Env, top: bool, norm: string -> string)
    returns (bound: Env)
    ensures WalkStatement(With(context, variable, within), env, top, norm).0 == WalkBody(within, bound, top, norm).0
    ensures forall id :: if variable == Some(id) then id in bound && bound[id] == Value(context, env)
                         else IsUnchanged(id, env, bound)
  {
    bound := if variable.Some? then env[variable.value := Value(context, env)] else env;
  }

  /** All that is found is marked like this. */
  predicate AreMarked(found: Writes, surely: bool) {
    forall i :: 0 <= i < |found.written| ==> found.written[i].1 == surely
  }

  /** The calls of an expression surely happen when its statement does, unless it is a conditional. */
  lemma CallsAreMarked(e: Expr, env: Env, top: bool, norm: string -> string)
    ensures AreMarked(Calls(e, env, top, norm), top && !e.IfElse?)
  {
    NodesAreMarked(Nodes([e]), env, top && !e.IfElse?, norm);
  }

  lemma {:induction false} NodesAreMarked(nodes: seq<Expr>, env: Env, surely: bool, norm: string -> string)
    ensures AreMarked(CallsOf(nodes, env, surely, norm), surely)
  {
    if nodes != [] {
      NodesAreMarked(nodes[1..], env, surely, norm);
      var e := nodes[0];
      if e.Open? && e.mode.Some? && Value(e.path, env).Some? { PathsAreMarked(Value(e.path, env).value, surely, norm); }
    }
  }

  lemma {:induction false} PathsAreMarked(paths: seq<string>, surely: bool, norm: string -> string)
    ensures AreMarked(Writes(RecordedEach(paths, surely, norm), false), surely)
  {
    if paths != [] { PathsAreMarked(paths[1..], surely, norm); }
  }
}
