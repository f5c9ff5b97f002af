/**
 * Translated expressions keep their meaning: Python reads the translation token by token as POSIX reads the pattern,
 * exactly when nothing in it is misread.
 */
module TranslationMeaning {
  import opened Results
  import opened RegexTokens
  import opened BreTranslate
  import opened BracketMeaning

  // ---------------------------------------------------------------- the patterns the translation is for

  /** Escapes outside the promise: buffer anchors, a reference to group 0, and basic braces that are no interval. */
  predicate IsExcluded(c: char, basic: bool) {
    c == '`' || c == '\'' || c == '0' || (basic && (c == '{' || c == '}'))
  }

  /**
   * Nothing at `i` that POSIX or GNU leave undefined: a bracket without an end, a repetition of nothing or of another.
   */
  predicate IsPlainHere(p: string, i: nat, prev: Option<Token>, d: Dialect)
    requires i < |p|
  {
    && (p[i] == '[' ==> IsBracket(p, i, d))
    && (p[i] == '\\' ==> i + 1 < |p| && (IsInterval(p, i, d.basic) || !IsExcluded(p[i + 1], d.basic)))
    && (p[i] == '{' && !d.basic ==> IsInterval(p, i, false))
    && (IsRepeat(PosixToken(p, i, prev, d)[0]) ==> !IsLeading(prev) && !IsRepeat(prev.value))
  }

  predicate IsPlain(p: string, i: nat, prev: Option<Token>, d: Dialect)
    requires i <= |p|
    decreases |p| - i
  {
    i == |p| || (IsPlainHere(p, i, prev, d) && IsPlain(p, Next(p, i, d), Last(PosixToken(p, i, prev, d)), d))
  }

  // ---------------------------------------------------------------- what is misread

  /** A back-reference with a digit right behind it, which Python takes for part of its number. */
  predicate IsLongReference(p: string, i: nat) {
    i + 2 < |p| && p[i] == '\\' && IsDigit(p[i + 1]) && IsDigit(p[i + 2])
  }

  /** A `^` after a literal `(` or `|` that follows an escaped backslash: what looks like the start of a group. */
  predicate IsFalseStart(p: string, i: nat, prev: Option<Token>) {
    i < |p| && p[i] == '^' && !Starts(prev) && (IsEscape(p, i - 2, '(') || IsEscape(p, i - 2, '|'))
  }

  /** A `*` that has nothing to repeat, which is a literal in a basic expression. */
  predicate IsLeadingStar(p: string, i: nat, prev: Option<Token>) { i < |p| && p[i] == '*' && IsLeading(prev) }

  /** The character means the same in a basic and in an extended expression. */
  predicate IsSameChar(p: string, i: nat, prev: Option<Token>)
    requires i < |p|
  {
    PosixChar(p, i, prev, true) == PosixChar(p, i, prev, false) && !IsInterval(p, i, false)
  }

  /**
   * Behind a bracket expression the translator has not seen the end of, what is left as it is reads right unless it has
   * another meaning in basic expressions.
   */
  predicate IsRawRight(p: string, i: nat, prev: Option<Token>, d: Dialect)
    requires i < |p|
  {
    && p[i] != '\\' && !IsClassOpen(p, i)
    && (d.basic && p[i] != '[' ==> IsSameChar(p, i, prev))
  }

  /** The token at `i` is read right; `within` says that the translator takes it for a part of a bracket expression. */
  predicate IsReadHere(p: string, i: nat, prev: Option<Token>, d: Dialect, within: bool)
    requires i < |p|
  {
    if within then IsRawRight(p, i, prev, d)
    else !IsLongReference(p, i) && (d.basic ==> !IsFalseStart(p, i, prev) && !IsLeadingStar(p, i, prev))
  }

  /** What the translator takes the text after the token at `i` for. */
  predicate StaysWithin(p: string, i: nat, d: Dialect, within: bool)
    requires i < |p|
  {
    if IsBracket(p, i, d) then IsLate(p, Members(p, i, d).value.1) else within && p[i] != ']'
  }

  predicate IsReadRight(p: string, i: nat, prev: Option<Token>, d: Dialect, within: bool)
    requires i <= |p|
    decreases |p| - i
  {
    i == |p| ||
    (IsReadHere(p, i, prev, d, within)
     && IsReadRight(p, Next(p, i, d), Last(PosixToken(p, i, prev, d)), d, StaysWithin(p, i, d, within)))
  }

  // ---------------------------------------------------------------- reading a piece and what follows

  /** What follows a piece, as far as it matters to reading the piece. */
  predicate IsApart(t: Token, rest: string) {
    && (t.Group? ==> rest == "" || rest[0] != '?')
    && (IsRepeat(t) ==> rest == "" || (rest[0] != '?' && rest[0] != '+'))
    && (t.Backref? ==> rest == "" || !IsDigit(rest[0]))
  }

  predicate ReadsAs(text: string, t: seq<Token>, rest: string) { PyTokens(text + rest) == t + PyTokens(rest) }

  lemma PyStep(s: string, t: Token, n: nat)
    requires s != "" && PyToken(s) == (t, n)
    ensures PyTokens(s) == [t] + PyTokens(s[n..])
  {
  }

  lemma PyOne(piece: string, rest: string, t: Token)
    requires piece != "" && PyToken(piece + rest) == (t, |piece|)
    ensures ReadsAs(piece, [t], rest)
  {
    PyStep(piece + rest, t, |piece|);
    assert (piece + rest)[|piece|..] == rest;
  }

  lemma PyMany(a: string, t: Token, b: string, u: seq<Token>, rest: string)
    requires a != "" && PyToken(a + (b + rest)) == (t, |a|) && ReadsAs(b, u, rest)
    ensures ReadsAs(a + b, [t] + u, rest)
  {
    PyOne(a, b + rest, t);
    Chained(PyTokens, a, [t], b, u, rest);
  }

  lemma Chained(
    read: string -> seq<Token>, a: string, t: seq<Token>, b: string, u: seq<Token>, rest: string)
    requires read(a + (b + rest)) == t + read(b + rest) && read(b + rest) == u + read(rest)
    ensures read(a + b + rest) == t + u + read(rest)
  {
    assert a + (b + rest) == a + b + rest;
    assert t + (u + read(rest)) == t + u + read(rest);
  }

  /** A word edge: four tokens. */
  lemma ReadEdge(behind: bool, rest: string)
    ensures ReadsAs(if behind then "\\b(?<=\\w)" else "\\b(?=\\w)",
                    [Class('b'), if behind then LookBehind else LookAhead, Class('w'), Close], rest)
  {
    var look, t := if behind then "(?<=" else "(?=", if behind then LookBehind else LookAhead;
    ReadWord(rest);
    LookToken(behind, "\\w)" + rest);
    PyMany(look, t, "\\w)", [Class('w'), Close], rest);
    assert [t] + [Class('w'), Close] == [t, Class('w'), Close];
    EdgeToken(look + "\\w)" + rest);
    PyMany("\\b", Class('b'), look + "\\w)", [t, Class('w'), Close], rest);
    SpellEdge(behind);
  }

  lemma ReadWord(rest: string)
    ensures ReadsAs("\\w)", [Class('w'), Close], rest)
  {
    PyOne(")", rest, Close);
    PyMany("\\w", Class('w'), ")", [Close], rest);
    assert "\\w" + ")" == "\\w)" && [Class('w')] + [Close] == [Class('w'), Close];
  }

  lemma LookToken(behind: bool, rest: string)
    ensures PyToken((if behind then "(?<=" else "(?=") + rest)
         == if behind then (LookBehind, 4) else (LookAhead, 3)
  {
  }

  lemma EdgeToken(rest: string)
    ensures PyToken("\\b" + rest) == (Class('b'), 2)
  {
  }

  lemma SpellEdge(behind: bool)
    ensures "\\b" + ((if behind then "(?<=" else "(?=") + "\\w)") == if behind then "\\b(?<=\\w)" else "\\b(?=\\w)"
    ensures [Class('b')] + [if behind then LookBehind else LookAhead, Class('w'), Close]
         == [Class('b'), if behind then LookBehind else LookAhead, Class('w'), Close]
  {
  }

  lemma ReadEscape(f: char, d: Dialect, rest: string)
    requires !IsExcluded(f, d.basic) && IsApart(PosixEscape(f, d)[|PosixEscape(f, d)| - 1], rest)
    ensures ReadsAs(EscapeOut(f, d.basic, d.sed), PosixEscape(f, d), rest)
  {
    var out, t := EscapeOut(f, d.basic, d.sed), PosixEscape(f, d);
    if f == '<' || f == '>' {
      EdgeOut(f, d);
      ReadEdge(f == '>', rest);
    } else {
      EscapeToken(f, d, rest);
      PyOne(out, rest, t[0]);
      assert [t[0]] == t;
    }
  }

  lemma EdgeOut(f: char, d: Dialect)
    requires f == '<' || f == '>'
    ensures EscapeOut(f, d.basic, d.sed) == if f == '>' then "\\b(?<=\\w)" else "\\b(?=\\w)"
    ensures PosixEscape(f, d) == [Class('b'), if f == '>' then LookBehind else LookAhead, Class('w'), Close]
  {
  }

  lemma EscapeToken(f: char, d: Dialect, rest: string)
    requires f != '<' && f != '>' && !IsExcluded(f, d.basic) && IsApart(PosixEscape(f, d)[0], rest)
    ensures var out := EscapeOut(f, d.basic, d.sed);
            out != "" && PyToken(out + rest) == (PosixEscape(f, d)[0], |out|) && |PosixEscape(f, d)| == 1
  {
    var out := EscapeOut(f, d.basic, d.sed);
    var s := out + rest;
    assert s[0] == out[0] && (|out| > 1 ==> s[1] == out[1]) && (rest != "" ==> s[|out|] == rest[0]);
  }

  lemma {:induction false} RunEndIs(s: string, i: nat, e: nat)
    requires i <= e <= |s| && (forall k :: i <= k < e ==> IsDigit(s[k]) || s[k] == ',')
    requires e == |s| || !(IsDigit(s[e]) || s[e] == ',')
    ensures RunEnd(s, i) == e
    decreases e - i
  {
    if i < e { RunEndIs(s, i + 1, e); }
  }

  lemma ReadInterval(bounds: string, rest: string)
    requires IsBounds(bounds) && (forall k :: 0 <= k < |bounds| ==> IsDigit(bounds[k]) || bounds[k] == ',')
    requires IsApart(Interval(bounds), rest)
    ensures ReadsAs("{" + bounds + "}", [Interval(bounds)], rest)
  {
    var text := "{" + bounds + "}";
    var s, e := text + rest, |bounds| + 1;
    assert forall k :: 1 <= k < e ==> s[k] == bounds[k - 1];
    assert s[e] == '}' && s[1..e] == bounds && (rest != "" ==> s[e + 1] == rest[0]);
    RunEndIs(s, 1, e);
    PyOne(text, rest, Interval(bounds));
  }

  /** A character that is left as it is. */
  lemma ReadRaw(p: string, i: nat, prev: Option<Token>, rest: string)
    requires i < |p| && p[i] != '[' && p[i] != '\\' && IsApart(PosixChar(p, i, prev, false), rest)
    requires p[i] == '{' ==> !PyToken("{" + rest).0.Interval? && !PyToken("{" + rest).0.NotModelled?
    ensures ReadsAs([p[i]], [PosixChar(p, i, prev, false)], rest)
  {
    var s := [p[i]] + rest;
    assert s[0] == p[i] && (rest != "" ==> s[1] == rest[0]);
    if p[i] == '{' { assert s == "{" + rest; }
    PyOne([p[i]], rest, PosixChar(p, i, prev, false));
  }

  // ---------------------------------------------------------------- intervals, translated

  /** Digits and commas pass through as they are. */
  lemma {:induction false} BoundsPass(
    out: Output, p: string, i: nat, e: nat, within: bool, d: Dialect, members: string -> Option<string>)
    requires 1 <= i <= e <= |p| && (forall k :: i <= k < e ==> IsDigit(p[k]) || p[k] == ',')
    requires IsTranslator(out, p, d, members)
    ensures out(i, within) == Prepend(p[i..e], out(e, within))
    decreases e - i
  {
    if i == e {
      assert p[i..e] == "";
      PrependNothing(out(e, within));
    } else {
      assert DoesMember(out, p, i) && DoesChar(out, p, i, d);
      BoundsPass(out, p, i + 1, e, within, d, members);
      assert [p[i]] + p[i + 1..e] == p[i..e];
      PrependBoth([p[i]], p[i + 1..e], out(i, within), out(i + 1, within), out(e, within));
    }
  }

  /** The braces of an interval, of a basic one with their backslashes. */
  lemma FromBraces(
    out: Output, p: string, i: nat, within: bool, d: Dialect, members: string -> Option<string>)
    requires IsInterval(p, i, d.basic) && IsTranslator(out, p, d, members) && (within ==> !d.basic && i >= 1)
    ensures var start := BoundsStart(i, d.basic); var e := RunEnd(p, start);
            && start <= e < Next(p, i, d) && out(i, within) == Prepend("{", out(start, within))
            && out(e, within) == Prepend("}", out(Next(p, i, d), within))
  {
    var e := RunEnd(p, BoundsStart(i, d.basic));
    if d.basic { assert DoesEscape(out, p, i, d) && DoesEscape(out, p, e, d); }
    else if within { assert DoesMember(out, p, i) && DoesMember(out, p, e); }
    else { assert DoesChar(out, p, i, d) && DoesChar(out, p, e, d); }
  }

  lemma OneInterval(
    out: Output, p: string, i: nat, within: bool, d: Dialect, members: string -> Option<string>, rest: string)
    returns (text: string)
    requires IsInterval(p, i, d.basic) && IsTranslator(out, p, d, members) && (within ==> !d.basic && i >= 1)
    ensures out(i, within) == Prepend(text, out(Next(p, i, d), within))
    ensures text != "" && text[0] == '{'
    ensures IsApart(Interval(""), rest) ==> ReadsAs(text, [Interval(Bounds(p, i, d.basic))], rest)
  {
    var start, bounds := BoundsStart(i, d.basic), Bounds(p, i, d.basic);
    var e := RunEnd(p, start);
    FromBraces(out, p, i, within, d, members);
    BoundsPass(out, p, start, e, within, d, members);
    PrependBoth(bounds, "}", out(start, within), out(e, within), out(Next(p, i, d), within));
    PrependBoth("{", bounds + "}", out(i, within), out(start, within), out(Next(p, i, d), within));
    text := "{" + bounds + "}";
    assert "{" + (bounds + "}") == text;
    assert forall k :: 0 <= k < |bounds| ==> bounds[k] == p[start + k];
    if IsApart(Interval(""), rest) { ReadInterval(bounds, rest); }
  }

  // ---------------------------------------------------------------- characters, translated

  /** How the token before `i` shows in the two characters before `i`. */
  predicate Fits(p: string, i: nat, prev: Option<Token>, d: Dialect) {
    && i <= |p| && (i == 0 <==> prev.None?)
    && (d.basic && prev == Some(Group) ==> IsEscape(p, i - 2, '('))
    && (d.basic && prev == Some(Alt) ==> IsEscape(p, i - 2, '|'))
  }

  lemma StillFits(p: string, i: nat, prev: Option<Token>, d: Dialect)
    requires i < |p| && IsPlainHere(p, i, prev, d)
    ensures Fits(p, Next(p, i, d), Last(PosixToken(p, i, prev, d)), d)
  {
  }

  /** What becomes of a character that is no part of a bracket expression, an interval or an escape. */
  lemma OneChar(
    out: Output, p: string, i: nat, prev: Option<Token>, d: Dialect, members: string -> Option<string>, rest: string)
    returns (text: string)
    requires i < |p| && p[i] != '[' && p[i] != '\\' && !IsInterval(p, i, d.basic) && IsPlainHere(p, i, prev, d)
    requires Fits(p, i, prev, d) && IsTranslator(out, p, d, members) && IsReadHere(p, i, prev, d, false)
    ensures out(i, false) == Prepend(text, out(i + 1, false)) && text != "" && (p[i] == '*' ==> text == "*")
    ensures IsApart(PosixChar(p, i, prev, d.basic), rest) ==> ReadsAs(text, [PosixChar(p, i, prev, d.basic)], rest)
  {
    text := CharOut(p, i, d.basic);
    assert DoesChar(out, p, i, d);
    if IsApart(PosixChar(p, i, prev, d.basic), rest) { ReadChar(p, i, prev, d, rest); }
  }

  lemma ReadChar(p: string, i: nat, prev: Option<Token>, d: Dialect, rest: string)
    requires i < |p| && p[i] != '[' && p[i] != '\\' && IsApart(PosixChar(p, i, prev, d.basic), rest)
    requires Fits(p, i, prev, d) && IsReadHere(p, i, prev, d, false) && (p[i] == '{' ==> d.basic)
    ensures ReadsAs(CharOut(p, i, d.basic), [PosixChar(p, i, prev, d.basic)], rest)
  {
    AnchorsShow(p, i, prev, d);
    if CharOut(p, i, d.basic) == [p[i]] { ReadRaw(p, i, prev, rest); } else { ReadEscaped(p[i], rest); }
  }

  lemma ReadEscaped(c: char, rest: string)
    requires PyEscape(c) == Lit(c) && !IsDigit(c)
    ensures ReadsAs(['\\', c], [Lit(c)], rest)
  {
    var s := ['\\', c] + rest;
    assert s[0] == '\\' && s[1] == c;
    PyOne(['\\', c], rest, Lit(c));
  }

  /** The anchors of basic expressions are those that stay as they are. */
  lemma AnchorsShow(p: string, i: nat, prev: Option<Token>, d: Dialect)
    requires i < |p| && Fits(p, i, prev, d) && IsReadHere(p, i, prev, d, false) && p[i] != '[' && p[i] != '\\'
    ensures d.basic && CharOut(p, i, d.basic) == [p[i]] ==> PosixChar(p, i, prev, true) == PosixChar(p, i, prev, false)
    ensures d.basic && CharOut(p, i, d.basic) != [p[i]] ==>
              && CharOut(p, i, d.basic) == ['\\', p[i]] && PosixChar(p, i, prev, true) == Lit(p[i])
              && PyEscape(p[i]) == Lit(p[i]) && !IsDigit(p[i])
  {
    AheadTwo(p, i - 2, "\\(");
    AheadTwo(p, i - 2, "\\|");
    AheadTwo(p, i + 1, "\\)");
    AheadTwo(p, i + 1, "\\|");
  }

  // ---------------------------------------------------------------- what is left as it is

  /** A brace that is left as it is opens an interval for Python exactly when it would in an extended expression. */
  lemma RawBrace(out: Output, p: string, i: nat, d: Dialect, members: string -> Option<string>, rest: string)
    requires 1 <= i < |p| && p[i] == '{' && out(i + 1, true) == Some(rest)
    requires IsTranslator(out, p, d, members) && SpellsClasses(members, d.classes)
    ensures var t := PyToken("{" + rest).0;
            if IsInterval(p, i, false) then t.Interval? || t.NotModelled? else t == Lit('{')
  {
    var e := RunEnd(p, i + 1);
    BoundsPass(out, p, i + 1, e, true, d, members);
    var more := out(e, true).value;
    assert rest == p[i + 1..e] + more;
    FirstRaw(out, p, e, d, members, more);
    BraceAndBounds(p[i + 1..e], more);
  }

  /** Digits and commas behind a brace make an interval if they are bounds and a brace follows. */
  lemma BraceAndBounds(bounds: string, more: string)
    requires forall k :: 0 <= k < |bounds| ==> IsDigit(bounds[k]) || bounds[k] == ','
    requires more != "" ==> more[0] != ',' && (IsDigit(more[0]) ==> |more| > 1 && more[1] == '-')
    ensures var t := PyToken("{" + (bounds + more)).0;
            if IsBounds(bounds) && more != "" && more[0] == '}' then t.Interval? || t.NotModelled? else t == Lit('{')
  {
    var s, n := "{" + (bounds + more), |bounds| + 1;
    Placed(bounds, more);
    if more != "" && IsDigit(more[0]) { RunEndIs(s, 1, n + 1); } else { RunEndIs(s, 1, n); }
    BraceToken(s);
  }

  lemma Placed(bounds: string, more: string)
    ensures var s, n := "{" + (bounds + more), |bounds| + 1;
            && s[n..] == more && s[1..n] == bounds && (forall k :: 1 <= k < n ==> s[k] == bounds[k - 1])
            && (more != "" ==> s[n] == more[0]) && (|more| > 1 ==> s[n + 1] == more[1])
  {
  }

  lemma BraceToken(s: string)
    requires s != "" && s[0] == '{'
    ensures var e, t := RunEnd(s, 1), PyToken(s).0;
            if IsBounds(s[1..e]) && e < |s| && s[e] == '}' then t.Interval? || t.NotModelled? else t == Lit('{')
  {
  }

  /** What the translation starts with where the translator takes the pattern for a part of a bracket expression. */
  lemma FirstRaw(out: Output, p: string, i: nat, d: Dialect, members: string -> Option<string>, o: string)
    requires 1 <= i <= |p| && out(i, true) == Some(o)
    requires IsTranslator(out, p, d, members) && SpellsClasses(members, d.classes)
    ensures i == |p| ==> o == ""
    ensures i < |p| ==> o != "" && (if IsClassOpen(p, i) then StartsQuietly(o) else o[0] == p[i])
  {
    if i == |p| { assert DoesEnd(out, p, true); }
    else if IsClassOpen(p, i) { FirstOfClass(out, p, i, d, members, o); }
    else if p[i] == ']' { assert DoesClose(out, p, i); }
    else { assert DoesMember(out, p, i); }
  }

  lemma FirstOfClass(out: Output, p: string, i: nat, d: Dialect, members: string -> Option<string>, o: string)
    requires 1 <= i && IsClassOpen(p, i) && out(i, true) == Some(o)
    requires IsTranslator(out, p, d, members) && SpellsClasses(members, d.classes)
    ensures StartsQuietly(o)
  {
    var n, name := NameAt(out, p, i, members);
    ClassIsQuiet(name, d, members);
    assert DoesNamed(out, p, i, n, members);
    NamedOut(out, p, i, n, members);
    StillQuiet(members(name).value, out(i + n + 4, true), o);
  }

  lemma NamedOut(out: Output, p: string, i: nat, n: nat, members: string -> Option<string>)
    requires 1 <= i && IsClassOpen(p, i) && NameLength(p, i + 2) == Some(n) && n > 0 && p[i + 2] != ']'
    requires DoesNamed(out, p, i, n, members) && members(p[i + 2..i + 2 + n]).Some?
    ensures out(i, true) == Prepend(members(p[i + 2..i + 2 + n]).value, out(i + n + 4, true))
  {
  }

  lemma NameAt(out: Output, p: string, i: nat, members: string -> Option<string>) returns (n: nat, name: string)
    requires 1 <= i && IsClassOpen(p, i) && out(i, true).Some? && DoesUnnamed(out, p, i, members)
    ensures NameLength(p, i + 2) == Some(n) && name == p[i + 2..i + 2 + n] && members(name).Some? && p[i + 2] != ']'
  {
    n := NameLength(p, i + 2).value;
    name := p[i + 2..i + 2 + n];
  }

  lemma ClassIsQuiet(name: string, d: Dialect, members: string -> Option<string>)
    requires SpellsClasses(members, d.classes) && members(name).Some?
    ensures StartsQuietly(members(name).value) && name != ""
  {
    assert SpellsClass(members(name), d.classes(name), name);
  }

  lemma StillQuiet(text: string, rest: Option<string>, o: string)
    requires StartsQuietly(text) && Prepend(text, rest) == Some(o)
    ensures StartsQuietly(o)
  {
    assert forall k :: 0 <= k < |text| ==> o[k] == text[k];
  }

  // ---------------------------------------------------------------- one token that is read right

  /** The token at `i` is translated to a text that Python reads as that token, whatever follows apart from it. */
  predicate IsTokenOut(
    out: Output, p: string, i: nat, prev: Option<Token>, d: Dialect, within: bool, text: string, rest: string)
    requires i < |p|
  {
    var t, after := PosixToken(p, i, prev, d), out(Next(p, i, d), StaysWithin(p, i, d, within));
    && out(i, within) == Prepend(text, after) && text != "" && (t[0].Star? ==> text == "*")
    && (after == Some(rest) && IsApart(t[|t| - 1], rest) ==> ReadsAs(text, t, rest))
  }

  lemma OneToken(
    out: Output, p: string, i: nat, prev: Option<Token>, d: Dialect, members: string -> Option<string>, within: bool,
    rest: string) returns (text: string)
    requires i < |p| && IsPlainHere(p, i, prev, d) && Fits(p, i, prev, d) && IsReadHere(p, i, prev, d, within)
    requires IsTranslator(out, p, d, members) && SpellsClasses(members, d.classes)
    requires within ==> i >= 1 && !IsFirst(p, i)
    ensures IsTokenOut(out, p, i, prev, d, within, text, rest)
  {
    if p[i] == '[' {
      text := OneBracket(out, p, i, within, d, members, rest);
      BracketCase(out, p, i, prev, d, within, text, rest);
    } else if IsInterval(p, i, d.basic) {
      text := OneInterval(out, p, i, within, d, members, rest);
      IntervalCase(out, p, i, prev, d, within, text, rest);
    } else if p[i] == '\\' {
      text := EscapeOut(p[i + 1], d.basic, d.sed);
      EscapeShape(p[i + 1], d);
      EscapeMoves(out, p, i, d);
      MayReadEscape(p[i + 1], d, PosixEscape(p[i + 1], d), text, rest);
      EscapeCase(out, p, i, prev, d, text, PosixEscape(p[i + 1], d), rest);
    } else if within {
      text := OneRaw(out, p, i, prev, d, members, rest);
      CharCase(out, p, i, prev, d, within, text, rest);
    } else {
      text := OneChar(out, p, i, prev, d, members, rest);
      CharCase(out, p, i, prev, d, within, text, rest);
    }
  }

  lemma BracketCase(
    out: Output, p: string, i: nat, prev: Option<Token>, d: Dialect, within: bool, text: string, rest: string)
    requires IsBracket(p, i, d)
    requires var (items, end) := Members(p, i, d).value;
             && out(i, within) == Prepend(text, out(end, IsLate(p, end))) && text != ""
             && ReadsAs(text, [OneOf(IsNegated(p, i), items)], rest)
    ensures IsTokenOut(out, p, i, prev, d, within, text, rest)
  {
  }

  lemma IntervalCase(
    out: Output, p: string, i: nat, prev: Option<Token>, d: Dialect, within: bool, text: string, rest: string)
    requires IsInterval(p, i, d.basic) && (within ==> !d.basic) && text != ""
    requires out(i, within) == Prepend(text, out(Next(p, i, d), within))
    requires IsApart(Interval(""), rest) ==> ReadsAs(text, [Interval(Bounds(p, i, d.basic))], rest)
    ensures IsTokenOut(out, p, i, prev, d, within, text, rest)
  {
  }

  lemma EscapeCase(
    out: Output, p: string, i: nat, prev: Option<Token>, d: Dialect, text: string, t: seq<Token>, rest: string)
    requires i + 1 < |p| && p[i] == '\\' && !IsInterval(p, i, d.basic) && text != ""
    requires t != [] && PosixToken(p, i, prev, d) == t
    requires && out(i, false) == Prepend(text, out(i + 2, false)) && !t[0].Star?
             && (IsApart(t[|t| - 1], rest) ==> ReadsAs(text, t, rest))
    ensures IsTokenOut(out, p, i, prev, d, false, text, rest)
  {
  }

  lemma CharCase(
    out: Output, p: string, i: nat, prev: Option<Token>, d: Dialect, within: bool, text: string, rest: string)
    requires i < |p| && p[i] != '[' && p[i] != '\\' && !IsInterval(p, i, d.basic) && text != ""
    requires var t, after := PosixChar(p, i, prev, d.basic), out(i + 1, within && p[i] != ']');
             && out(i, within) == Prepend(text, after) && (p[i] == '*' ==> text == "*")
             && (after == Some(rest) && IsApart(t, rest) ==> ReadsAs(text, [t], rest))
    ensures IsTokenOut(out, p, i, prev, d, within, text, rest)
  {
  }

  lemma OneBracket(
    out: Output, p: string, i: nat, within: bool, d: Dialect, members: string -> Option<string>, rest: string)
    returns (text: string)
    requires IsBracket(p, i, d) && SpellsClasses(members, d.classes) && IsTranslator(out, p, d, members)
    requires within ==> i >= 1 && !IsClassOpen(p, i)
    ensures var (items, end) := Members(p, i, d).value;
            && out(i, within) == Prepend(text, out(end, IsLate(p, end))) && text != ""
            && ReadsAs(text, [OneOf(IsNegated(p, i), items)], rest)
  {
    text := BracketKeepsMeaning(out, p, i, within, d, members);
    PyOne(text, rest, OneOf(IsNegated(p, i), Members(p, i, d).value.0));
  }

  lemma MayReadEscape(f: char, d: Dialect, t: seq<Token>, text: string, rest: string)
    requires !IsExcluded(f, d.basic) && t == PosixEscape(f, d) && text == EscapeOut(f, d.basic, d.sed)
    ensures t != [] && (IsApart(t[|t| - 1], rest) ==> ReadsAs(text, t, rest))
  {
    EscapeShape(f, d);
    if IsApart(t[|t| - 1], rest) { ReadEscape(f, d, rest); }
  }

  lemma EscapeShape(f: char, d: Dialect)
    ensures EscapeOut(f, d.basic, d.sed) != "" && PosixEscape(f, d) != [] && !PosixEscape(f, d)[0].Star?
  {
  }

  lemma EscapeMoves(out: Output, p: string, i: nat, d: Dialect)
    requires i + 1 < |p| && p[i] == '\\' && forall k: nat :: DoesEscape(out, p, k, d)
    ensures out(i, false) == Prepend(EscapeOut(p[i + 1], d.basic, d.sed), out(i + 2, false))
  {
    assert DoesEscape(out, p, i, d);
  }

  lemma OneRaw(
    out: Output, p: string, i: nat, prev: Option<Token>, d: Dialect, members: string -> Option<string>, rest: string)
    returns (text: string)
    requires 1 <= i < |p| && p[i] != '[' && p[i] != '\\' && !IsInterval(p, i, d.basic) && IsPlainHere(p, i, prev, d)
    requires IsReadHere(p, i, prev, d, true) && !IsFirst(p, i)
    requires IsTranslator(out, p, d, members) && SpellsClasses(members, d.classes)
    ensures var t, after := PosixChar(p, i, prev, d.basic), out(i + 1, p[i] != ']');
            && text == [p[i]] && out(i, true) == Prepend(text, after)
            && (after == Some(rest) && IsApart(t, rest) ==> ReadsAs(text, [t], rest))
  {
    text := [p[i]];
    assert DoesMember(out, p, i) && DoesClose(out, p, i);
    if out(i + 1, p[i] != ']') == Some(rest) && IsApart(PosixChar(p, i, prev, d.basic), rest) {
      if p[i] == '{' { RawBrace(out, p, i, d, members, rest); }
      ReadRaw(p, i, prev, rest);
    }
  }

  // ---------------------------------------------------------------- what stands behind a token

  /** What the translation of the token at `i` starts with. */
  lemma FirstOut(
    out: Output, p: string, i: nat, prev: Option<Token>, d: Dialect, members: string -> Option<string>, within: bool,
    o: string)
    requires i < |p| && IsPlainHere(p, i, prev, d) && (within ==> i >= 1) && out(i, within) == Some(o)
    requires IsTranslator(out, p, d, members) && SpellsClasses(members, d.classes)
    ensures o != ""
    ensures !within ==> (IsDigit(o[0]) <==> IsDigit(p[i]))
    ensures (!within || !d.basic) && (o[0] == '?' || o[0] == '+') ==> IsRepeat(PosixToken(p, i, prev, d)[0])
    ensures within && (o[0] == '?' || o[0] == '+') ==> p[i] == o[0]
  {
    if within { FirstRaw(out, p, i, d, members, o); }
    else if p[i] == '[' { assert DoesOpen(out, p, i); }
    else if p[i] == '\\' {
      assert DoesEscape(out, p, i, d);
      assert o[0] == EscapeOut(p[i + 1], d.basic, d.sed)[0];
    } else {
      assert DoesChar(out, p, i, d);
      assert o[0] == CharOut(p, i, d.basic)[0];
    }
  }

  /** A token stands apart from what follows, but a `*` from a `?` or `+` that is left as it is. */
  lemma BehindToken(
    out: Output, p: string, i: nat, prev: Option<Token>, d: Dialect, members: string -> Option<string>, within: bool,
    rest: string)
    requires i < |p| && IsPlain(p, i, prev, d) && IsReadHere(p, i, prev, d, within) && (within ==> i >= 1)
    requires out(Next(p, i, d), StaysWithin(p, i, d, within)) == Some(rest)
    requires IsTranslator(out, p, d, members) && SpellsClasses(members, d.classes)
    ensures var t, next := PosixToken(p, i, prev, d), Next(p, i, d);
            || IsApart(t[|t| - 1], rest)
            || (d.basic && StaysWithin(p, i, d, within) && t == [Star] && next < |p|
               && (p[next] == '?' || p[next] == '+')
                && rest != "" && rest[0] == p[next])
  {
    var t, next, stays := PosixToken(p, i, prev, d), Next(p, i, d), StaysWithin(p, i, d, within);
    if next == |p| {
      assert DoesEnd(out, p, stays);
    } else {
      FirstOut(out, p, next, Last(t), d, members, stays, rest);
    }
  }

  // ---------------------------------------------------------------- what is misread is read as something else

  lemma FirstDiffers(s: string, p: string, i: nat, prev: Option<Token>, d: Dialect)
    requires s != "" && i < |p| && PyToken(s).0 != PosixToken(p, i, prev, d)[0]
    ensures PyTokens(s) != PosixTokens(p, i, prev, d)
  {
    PyStep(s, PyToken(s).0, PyToken(s).1);
    FirstToken(p, i, prev, d);
  }

  lemma MisreadOutside(
    out: Output, p: string, i: nat, prev: Option<Token>, d: Dialect, members: string -> Option<string>, o: string)
    requires i < |p| && IsPlain(p, i, prev, d) && Fits(p, i, prev, d) && !IsReadHere(p, i, prev, d, false)
    requires out(i, false) == Some(o) && IsTranslator(out, p, d, members)
    ensures PyTokens(o) != PosixTokens(p, i, prev, d)
  {
    if p[i] == '\\' {
      assert DoesEscape(out, p, i, d);
      assert PosixToken(p, i, prev, d) == [Backref(DigitValue(p[i + 1]))];
      assert IsPlainHere(p, i + 2, Some(Backref(DigitValue(p[i + 1]))), d);
      assert DoesChar(out, p, i + 2, d);
      assert o[0] == '\\' && o[1] == p[i + 1] && o[2] == p[i + 2];
      LongToken(o);
    } else {
      AheadTwo(p, i - 2, "\\(");
      AheadTwo(p, i - 2, "\\|");
      assert DoesChar(out, p, i, d);
      assert o[0] == p[i];
    }
    FirstDiffers(o, p, i, prev, d);
  }

  lemma LongToken(s: string)
    requires |s| > 2 && s[0] == '\\' && IsDigit(s[1]) && s[1] != '0' && IsDigit(s[2])
    ensures PyToken(s).0 != Backref(DigitValue(s[1]))
  {
  }

  lemma MisreadWithin(
    out: Output, p: string, i: nat, prev: Option<Token>, d: Dialect, members: string -> Option<string>, o: string)
    requires 1 <= i < |p| && IsPlain(p, i, prev, d) && !IsReadHere(p, i, prev, d, true)
    requires out(i, true) == Some(o) && IsTranslator(out, p, d, members) && SpellsClasses(members, d.classes)
    ensures PyTokens(o) != PosixTokens(p, i, prev, d)
  {
    FirstRaw(out, p, i, d, members, o);
    if p[i] == '\\' {
      forall rest ensures ReadsSlash(PyTokens, rest) { ReadSlash(rest); }
      Slashes(out, PyTokens, p, i, prev, d, members, o);
    } else {
      if !IsClassOpen(p, i) {
        assert DoesMember(out, p, i);
        var rest := out(i + 1, true).value;
        assert o == [p[i]] + rest;
        if p[i] == '{' {
          RawBrace(out, p, i, d, members, rest);
          assert o == "{" + rest;
        }
      }
      FirstDiffers(o, p, i, prev, d);
    }
  }

  /** Backslashes that Python has read and POSIX has not. */
  function Pending(n: nat): seq<Token> { seq(n, k => Lit('\\')) }

  predicate ReadsSlash(read: string -> seq<Token>, rest: string) { read("\\\\" + rest) == [Lit('\\')] + read(rest) }

  /** A backslash that is taken for a member is read as one, and the next tokens never make up for it. */
  lemma Slashes(
    out: Output, read: string -> seq<Token>, p: string, i: nat, prev: Option<Token>, d: Dialect,
    members: string -> Option<string>, o: string)
    requires 1 <= i < |p| && IsPlain(p, i, prev, d) && p[i] == '\\' && out(i, true) == Some(o)
    requires IsTranslator(out, p, d, members) && forall rest :: ReadsSlash(read, rest)
    ensures read(o) != PosixTokens(p, i, prev, d)
  {
    assert DoesMember(out, p, i);
    var rest := out(i + 1, true).value;
    assert ReadsSlash(read, rest);
    if p[i + 1] == '\\' {
      assert DoesMember(out, p, i + 1);
      var more := out(i + 2, true).value;
      assert ReadsSlash(read, more);
      var tail := SlashFirst(p, i, prev, d);
      NeverCaughtUp(out, read, p, i + 2, Some(Lit('\\')), d, members, 1, more);
      OneMore(1, read(more), tail);
    } else {
      NoSlash(p, i, prev, d);
      FirstToken(p, i, prev, d);
    }
  }

  lemma SlashFirst(p: string, i: nat, prev: Option<Token>, d: Dialect) returns (tail: seq<Token>)
    requires IsEscape(p, i, '\\')
    ensures PosixToken(p, i, prev, d) == [Lit('\\')] && Next(p, i, d) == i + 2
    ensures tail == PosixTokens(p, i + 2, Some(Lit('\\')), d) && PosixTokens(p, i, prev, d) == [Lit('\\')] + tail
  {
    tail := PosixTokens(p, i + 2, Some(Lit('\\')), d);
  }

  lemma OneMore(n: nat, read: seq<Token>, tail: seq<Token>)
    requires n > 0 && Pending(n) + read != tail
    ensures [Lit('\\')] + (Pending(n) + read) != [Lit('\\')] + tail
    ensures n == 1 ==> [Lit('\\')] + ([Lit('\\')] + read) == [Lit('\\')] + (Pending(n) + read)
    ensures Pending(n - 1) + ([Lit('\\')] + ([Lit('\\')] + read)) == [Lit('\\')] + (Pending(n) + read)
  {
    assert ([Lit('\\')] + tail)[1..] == tail && ([Lit('\\')] + (Pending(n) + read))[1..] == Pending(n) + read;
  }

  lemma ReadSlash(rest: string)
    ensures PyTokens("\\\\" + rest) == [Lit('\\')] + PyTokens(rest)
    ensures PyToken("\\\\" + rest).0 == Lit('\\')
  {
    assert ("\\\\" + rest)[0] == '\\' && ("\\\\" + rest)[1] == '\\';
    PyOne("\\\\", rest, Lit('\\'));
  }

  lemma {:induction false} NeverCaughtUp(
    out: Output, read: string -> seq<Token>, p: string, i: nat, prev: Option<Token>, d: Dialect,
    members: string -> Option<string>, n: nat, o: string)
    requires 1 <= i <= |p| && IsPlain(p, i, prev, d) && out(i, true) == Some(o) && n > 0
    requires IsTranslator(out, p, d, members) && forall rest :: ReadsSlash(read, rest)
    ensures Pending(n) + read(o) != PosixTokens(p, i, prev, d)
    decreases |p| - i
  {
    assert (Pending(n) + read(o))[0] == Lit('\\');
    if IsEscape(p, i, '\\') {
      assert DoesMember(out, p, i) && DoesMember(out, p, i + 1);
      var rest, more := out(i + 1, true).value, out(i + 2, true).value;
      assert ReadsSlash(read, rest) && ReadsSlash(read, more);
      var tail := SlashFirst(p, i, prev, d);
      NeverCaughtUp(out, read, p, i + 2, Some(Lit('\\')), d, members, n + 1, more);
      OneMore(n + 1, read(more), tail);
    } else if i < |p| {
      NoSlash(p, i, prev, d);
      FirstToken(p, i, prev, d);
    }
  }

  lemma FirstToken(p: string, i: nat, prev: Option<Token>, d: Dialect)
    requires i < |p|
    ensures var all := PosixTokens(p, i, prev, d); all != [] && all[0] == PosixToken(p, i, prev, d)[0]
  {
    var t := PosixToken(p, i, prev, d);
    assert (t + PosixTokens(p, Next(p, i, d), Last(t), d))[0] == t[0];
  }

  lemma NoSlash(p: string, i: nat, prev: Option<Token>, d: Dialect)
    requires i < |p| && IsPlainHere(p, i, prev, d) && !IsEscape(p, i, '\\')
    ensures PosixToken(p, i, prev, d)[0] != Lit('\\')
  {
  }

  // ---------------------------------------------------------------- the theorem

  /** The translation from `i` on is read as the expression is. */
  predicate IsReadAlike(out: Output, p: string, i: nat, prev: Option<Token>, d: Dialect, within: bool)
    requires i <= |p|
  {
    out(i, within).Some? && PyTokens(out(i, within).value) == PosixTokens(p, i, prev, d)
  }

  lemma Misread(
    out: Output, p: string, i: nat, prev: Option<Token>, d: Dialect, members: string -> Option<string>, within: bool)
    requires i < |p| && IsPlain(p, i, prev, d) && Fits(p, i, prev, d) && (within ==> i >= 1)
    requires IsTranslator(out, p, d, members) && SpellsClasses(members, d.classes)
    ensures !IsReadHere(p, i, prev, d, within) ==> !IsReadAlike(out, p, i, prev, d, within)
  {
    if !IsReadHere(p, i, prev, d, within) && out(i, within).Some? {
      if within { MisreadWithin(out, p, i, prev, d, members, out(i, within).value); }
      else { MisreadOutside(out, p, i, prev, d, members, out(i, within).value); }
    }
  }

  /** Behind a token that is read right the rest must be read alike, and that is enough if nothing in it is misread. */
  lemma ReadOn(
    out: Output, p: string, i: nat, prev: Option<Token>, d: Dialect, members: string -> Option<string>, within: bool)
    requires i < |p| && IsPlain(p, i, prev, d) && Fits(p, i, prev, d) && (within ==> i >= 1 && !IsFirst(p, i))
    requires IsTranslator(out, p, d, members) && SpellsClasses(members, d.classes)
    requires IsReadHere(p, i, prev, d, within)
    ensures var t, next, stays := PosixToken(p, i, prev, d), Next(p, i, d), StaysWithin(p, i, d, within);
            && (IsReadAlike(out, p, i, prev, d, within) ==> IsReadAlike(out, p, next, Last(t), d, stays))
            && (IsReadAlike(out, p, next, Last(t), d, stays) && IsReadRight(p, next, Last(t), d, stays) ==>
                  IsReadAlike(out, p, i, prev, d, within))
  {
    var t, next, stays := PosixToken(p, i, prev, d), Next(p, i, d), StaysWithin(p, i, d, within);
    var after := out(next, stays);
    var rest := if after.Some? then after.value else "";
    var text := OneToken(out, p, i, prev, d, members, within, rest);
    if after.Some? {
      BehindToken(out, p, i, prev, d, members, within, rest);
      TokenThenRest(text, t, rest, p, i, prev, d);
      if !IsApart(t[|t| - 1], rest) { NotRead(p, i, prev, d, stays); }
    }
  }

  /** A `?` or `+` that is left as it is is misread. */
  lemma NotRead(p: string, i: nat, prev: Option<Token>, d: Dialect, stays: bool)
    requires i < |p| && PosixToken(p, i, prev, d) == [Star] && d.basic && stays
    requires Next(p, i, d) < |p| && (p[Next(p, i, d)] == '?' || p[Next(p, i, d)] == '+')
    ensures !IsReadRight(p, Next(p, i, d), Last([Star]), d, stays)
  {
  }

  lemma TokenThenRest(text: string, t: seq<Token>, rest: string, p: string, i: nat, prev: Option<Token>, d: Dialect)
    requires i < |p| && t == PosixToken(p, i, prev, d)
    requires IsApart(t[|t| - 1], rest) ==> ReadsAs(text, t, rest)
    requires !IsApart(t[|t| - 1], rest) ==> t == [Star] && text == "*"
    ensures var tail := PosixTokens(p, Next(p, i, d), Last(t), d);
            if IsApart(t[|t| - 1], rest)
            then PyTokens(text + rest) == PosixTokens(p, i, prev, d) <==> PyTokens(rest) == tail
            else PyTokens(text + rest) != PosixTokens(p, i, prev, d)
  {
    if IsApart(t[|t| - 1], rest) { SameRest(text, t, rest, PosixTokens(p, Next(p, i, d), Last(t), d)); }
    else { LazyStar(rest, p, i, prev, d); }
  }

  /**
   * A well-formed expression is translated, and Python reads the translation as POSIX reads the expression, exactly
   * when nothing in it is misread.
   */
  lemma {:induction false} ReadsAlikeFrom(
    out: Output, p: string, i: nat, prev: Option<Token>, d: Dialect, members: string -> Option<string>, within: bool)
    requires Fits(p, i, prev, d) && IsPlain(p, i, prev, d) && (within ==> i >= 1 && !IsFirst(p, i))
    requires IsTranslator(out, p, d, members) && SpellsClasses(members, d.classes)
    ensures IsReadAlike(out, p, i, prev, d, within) <==> IsReadRight(p, i, prev, d, within)
    decreases |p| - i
  {
    if i == |p| {
      assert DoesEnd(out, p, within);
    } else {
      Misread(out, p, i, prev, d, members, within);
      if IsReadHere(p, i, prev, d, within) {
        StillFits(p, i, prev, d);
        StaysBehind(p, i, prev, d, within);
        ReadsAlikeFrom(out, p, Next(p, i, d), Last(PosixToken(p, i, prev, d)), d, members,
            StaysWithin(p, i, d, within));
        ReadOn(out, p, i, prev, d, members, within);
      }
    }
  }

  lemma StaysBehind(p: string, i: nat, prev: Option<Token>, d: Dialect, within: bool)
    requires i < |p| && IsPlainHere(p, i, prev, d) && IsReadHere(p, i, prev, d, within)
    requires within ==> i >= 1 && !IsFirst(p, i)
    ensures StaysWithin(p, i, d, within) ==> !IsFirst(p, Next(p, i, d))
  {
  }

  lemma SameRest(text: string, t: seq<Token>, rest: string, tail: seq<Token>)
    requires ReadsAs(text, t, rest)
    ensures PyTokens(text + rest) == t + tail <==> PyTokens(rest) == tail
  {
    assert (t + tail)[|t|..] == tail && (t + PyTokens(rest))[|t|..] == PyTokens(rest);
  }

  /** Python takes `*?` and `*+` together. */
  lemma LazyStar(rest: string, p: string, i: nat, prev: Option<Token>, d: Dialect)
    requires i < |p| && PosixToken(p, i, prev, d) == [Star] && rest != "" && (rest[0] == '?' || rest[0] == '+')
    ensures PyTokens("*" + rest) != PosixTokens(p, i, prev, d)
  {
    assert ("*" + rest)[1] == rest[0];
    FirstDiffers("*" + rest, p, i, prev, d);
  }

  function Posix(basic: bool, sed: bool): Dialect { Dialect(basic, sed, ClassItems) }

  /** The translation is read by Python as the expression is by POSIX. */
  predicate KeepsMeaning(p: string, basic: bool, sed: bool) {
    var r := Translated(p, basic, sed);
    r.Some? && PyTokens(r.value) == PosixTokens(p, 0, None, Posix(basic, sed))
  }

  /** The translation keeps the meaning of an expression exactly when nothing in the expression is misread. */
  lemma TranslationKeepsMeaning(p: string, basic: bool, sed: bool)
    requires IsPlain(p, 0, None, Posix(basic, sed))
    ensures KeepsMeaning(p, basic, sed) <==> IsReadRight(p, 0, None, Posix(basic, sed), false)
  {
    var d := Posix(basic, sed);
    TranslatorSteps(p, d, ClassMembers);
    ClassesAreSpelled();
    ReadsAlikeFrom(OutputOf(p, d, ClassMembers), p, 0, None, d, ClassMembers, false);
  }

  lemma ClassesAreSpelled()
    ensures SpellsClasses(ClassMembers, ClassItems)
  {
    forall name ensures SpellsClass(ClassMembers(name), ClassItems(name), name) {
      ClassIsSpelled(name);
    }
  }

  // ---------------------------------------------------------------- one expression for each misreading

  function GroupAndReference(): string { ['\\', '(', 'a', '\\', ')', '\\', '1', '0'] }

  lemma ReferenceIsPlain(p: string, d: Dialect)
    requires p == GroupAndReference() && d.basic
    ensures IsPlain(p, 0, None, d)
  {
    assert IsPlain(p, 7, Some(Backref(1)), d) && IsPlain(p, 5, Some(Close), d);
    assert IsPlain(p, 3, Some(Lit('a')), d) && IsPlain(p, 2, Some(Group), d);
  }

  lemma ReferenceIsNotRead(p: string, d: Dialect)
    requires p == GroupAndReference() && d.basic
    ensures !IsReadRight(p, 0, None, d, false)
  {
    assert !IsReadRight(p, 5, Some(Close), d, false);
    assert !IsReadRight(p, 3, Some(Lit('a')), d, false) && !IsReadRight(p, 2, Some(Group), d, false);
  }

  /** `\(a\)\10`: POSIX reads a group, a reference to it and a `0`; Python reads a reference to group 10. */
  lemma ReferenceBeforeDigitIsMisread(sed: bool)
    ensures IsPlain(GroupAndReference(), 0, None, Posix(true, sed)) && !KeepsMeaning(GroupAndReference(), true, sed)
  {
    ReferenceIsPlain(GroupAndReference(), Posix(true, sed));
    ReferenceIsNotRead(GroupAndReference(), Posix(true, sed));
    TranslationKeepsMeaning(GroupAndReference(), true, sed);
  }

  /** `\\(^`: an escaped backslash, a literal `(` and a literal `^`, which the translation leaves an anchor. */
  lemma CaretAfterFalseStartIsMisread(sed: bool)
    ensures var p := ['\\', '\\', '(', '^']; IsPlain(p, 0, None, Posix(true, sed)) && !KeepsMeaning(p, true, sed)
  {
    var p, d := ['\\', '\\', '(', '^'], Posix(true, sed);
    assert IsPlain(p, 3, Some(Lit('(')), d) && IsPlain(p, 2, Some(Lit('\\')), d);
    assert !IsReadRight(p, 3, Some(Lit('(')), d, false) && !IsReadRight(p, 2, Some(Lit('\\')), d, false);
    TranslationKeepsMeaning(p, true, sed);
  }

  /** `*a`: a literal `*`, which the translation leaves a repetition of nothing. */
  lemma LeadingStarIsMisread(sed: bool)
    ensures IsPlain("*a", 0, None, Posix(true, sed)) && !KeepsMeaning("*a", true, sed)
  {
    assert IsPlain("*a", 1, Some(Lit('*')), Posix(true, sed));
    TranslationKeepsMeaning("*a", true, sed);
  }

  lemma BracketOfBracket(p: string, d: Dialect)
    requires |p| > 3 && p[0] == p[1] == '[' && p[2] == ']'
    ensures IsBracket(p, 0, d) && Next(p, 0, d) == 3 && PosixToken(p, 0, None, d) == [OneOf(false, [One('[')])]
    ensures StaysWithin(p, 0, d, false)
  {
    assert PosixItem(p, 1, d) == Some(([One('[')], 2));
    assert PosixItems(p, 2, false, d) == Some(([], 3));
    assert [One('[')] + [] == [One('[')];
    assert PosixItems(p, 1, true, d) == Some(([One('[')], 3));
  }

  /** `[[]+`: the translation looks for the end of the bracket expression behind it, and leaves the `+` a repetition. */
  lemma MissedBracketEndIsMisread(sed: bool)
    ensures IsPlain("[[]+", 0, None, Posix(true, sed)) && !KeepsMeaning("[[]+", true, sed)
  {
    var p, d := "[[]+", Posix(true, sed);
    var t := OneOf(false, [One('[')]);
    BracketOfBracket(p, d);
    assert IsPlain(p, 3, Some(t), d) && !IsReadRight(p, 3, Some(t), d, true);
    TranslationKeepsMeaning(p, true, sed);
  }

  /** `[[]\+`, an extended expression: the same, and the backslash becomes a literal one. */
  lemma MissedBracketEndMisleadsExtended(sed: bool)
    ensures var p := ['[', '[', ']', '\\', '+']; IsPlain(p, 0, None, Posix(false, sed)) && !KeepsMeaning(p, false, sed)
  {
    var p, d := ['[', '[', ']', '\\', '+'], Posix(false, sed);
    var t := OneOf(false, [One('[')]);
    BracketOfBracket(p, d);
    assert IsPlain(p, 3, Some(t), d) && !IsReadRight(p, 3, Some(t), d, true);
    TranslationKeepsMeaning(p, false, sed);
  }
}
