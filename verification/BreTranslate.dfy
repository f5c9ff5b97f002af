/** POSIX regular expressions as Python ones: `_translate` of `src/repo_context_service/command_search.py`. */
module BreTranslate {
  import opened Results

  /** The characters whose plain and backslashed forms Python and basic expressions swap. */
  predicate IsSwapped(c: char) {
    c == '|' || c == '(' || c == ')' || c == '{' || c == '}' || c == '+' || c == '?'
  }

  /** Letters GNU's escapes give a class or an edge. */
  predicate IsClassLetter(c: char) {
    c == 'w' || c == 'W' || c == 's' || c == 'S' || c == 'b' || c == 'B'
  }

  predicate IsGnuEscape(c: char) {
    || IsClassLetter(c) || '0' <= c <= '9' || IsSwapped(c)
    || c == '<' || c == '>' || c == '`' || c == '\''
    || c == '.' || c == '*' || c == '[' || c == ']' || c == '^' || c == '$' || c == '\\' || c == '/'
  }

  /** What `re.escape` puts a backslash before. */
  predicate IsPythonSpecial(c: char) {
    || IsSwapped(c) || c == '[' || c == ']' || c == '*' || c == '-' || c == '^' || c == '$' || c == '\\' || c == '.'
    || c == '&' || c == '~' || c == '#' || c == ' ' || c == '\t' || c == '\n' || c == '\r' || c == '\U{0b}'
       || c == '\U{0c}'
  }

  predicate Ahead(s: string, at: int, text: string) {
    0 <= at && at + |text| <= |s| && s[at..at + |text|] == text
  }

  // ---------------------------------------------------------------- the translation

  function Find(s: string, text: string, from: nat): (r: Option<nat>)
    requires from <= |s|
    ensures r.Some? ==> from <= r.value && r.value + |text| <= |s|
    decreases |s| - from
  {
    if Ahead(s, from, text) then Some(from) else if from == |s| then None else Find(s, text, from + 1)
  }

  /** What a named class is inside Python's brackets. */
  function ClassMembers(name: string): Option<string> {
    match name
    case "alpha" => Some("a-zA-Z")
    case "digit" => Some("0-9")
    case "alnum" => Some("a-zA-Z0-9")
    case "upper" => Some("A-Z")
    case "lower" => Some("a-z")
    case "space" => Some(" \\t\\n\\r\\f\\v")
    case "blank" => Some(" \\t")
    case "punct" => Some("!-/:-@\\[-`{-~")
    case "xdigit" => Some("0-9A-Fa-f")
    case "cntrl" => Some("\\x00-\\x1f\\x7f")
    case "print" => Some(" -~")
    case "graph" => Some("!-~")
    case _ => None
  }

  /** `re.escape` of one character. */
  function Escaped(c: char): string { if IsPythonSpecial(c) then ['\\', c] else [c] }

  /** What a backslash and the character after it become. */
  function EscapeOut(f: char, basic: bool, sed: bool): string {
    if f == '<' then "\\b(?=\\w)"
    else if f == '>' then "\\b(?<=\\w)"
    else if sed && (f == 't' || f == 'n') then ['\\', f]
    else if !IsGnuEscape(f) then Escaped(f)
    else if basic && IsSwapped(f) then [f]
    else ['\\', f]
  }

  /** What any other character outside brackets becomes. */
  function CharOut(p: string, i: nat, basic: bool): string
    requires i < |p|
  {
    if basic && p[i] == '^' && !(i == 0 || Ahead(p, i - 2, "\\(") || Ahead(p, i - 2, "\\|")) then "\\^"
    else if basic && p[i] == '$' && !(i == |p| - 1 || Ahead(p, i + 1, "\\)") || Ahead(p, i + 1, "\\|")) then "\\$"
    else if basic && IsSwapped(p[i]) then ['\\', p[i]]
    else [p[i]]
  }

  predicate StaysInBrackets(p: string, i: nat)
    requires 1 <= i < |p|
  {
    !(p[i] == ']' && !(p[i - 1] == '[' || Ahead(p, i - 2, "[^")))
  }

  function Prepend(text: string, rest: Option<string>): Option<string> {
    if rest.None? then None else Some(text + rest.value)
  }

  /** A piece of the translation, where the pattern goes on, and whether inside brackets. */
  datatype Piece = Piece(text: string, next: nat, inBrackets: bool)

  /** One turn of the loop. Inside brackets a named class becomes its members, and a backslash is a member. */
  function PieceAt(
    p: string, i: nat, inBrackets: bool, basic: bool, sed: bool, members: string -> Option<string>): (r: Option<Piece>)
    requires i < |p| && (inBrackets ==> i >= 1)
    ensures r.Some? ==> i < r.value.next <= |p|
  {
    if inBrackets then
      if Ahead(p, i, "[:") then
        var close := Find(p, ":]", i);
        if close.None? || close.value < i + 2 || members(p[i + 2..close.value]).None? then None
        else Some(Piece(members(p[i + 2..close.value]).value, close.value + 2, true))
      else Some(Piece(if p[i] == '\\' then "\\\\" else [p[i]], i + 1, StaysInBrackets(p, i)))
    else if p[i] == '[' then Some(Piece("[", i + 1, true))
    else if p[i] == '\\' && i + 1 < |p| then Some(Piece(EscapeOut(p[i + 1], basic, sed), i + 2, false))
    else Some(Piece(CharOut(p, i, basic), i + 1, false))
  }

  /** The translation of `p` from `i` on. */
  function From(
    p: string, i: nat, inBrackets: bool, basic: bool, sed: bool, members: string -> Option<string>): Option<string>
    requires i <= |p| && (inBrackets ==> i >= 1)
    decreases |p| - i
  {
    if i == |p| then Some("")
    else
      var piece := PieceAt(p, i, inBrackets, basic, sed, members);
      if piece.None? then None
      else Prepend(piece.value.text, From(p, piece.value.next, piece.value.inBrackets, basic, sed, members))
  }

  function Translated(p: string, basic: bool, sed: bool): Option<string> {
    From(p, 0, false, basic, sed, ClassMembers)
  }

  method Translate(p: string, basic: bool, sed: bool) returns (r: Option<string>)
    ensures r == Translated(p, basic, sed)
  {
    r := TranslateWith(p, basic, sed, ClassMembers);
  }

  /** The loop, for any table of named classes. */
  method TranslateWith(p: string, basic: bool, sed: bool, members: string -> Option<string>) returns (r: Option<string>)
    ensures r == From(p, 0, false, basic, sed, members)
  {
    var out := "";
    var inBrackets := false;
    var index := 0;
    ghost var all := From(p, 0, false, basic, sed, members);
    PrependNothing(all);
    while index < |p|
      invariant index <= |p| && (inBrackets ==> index >= 1)
      invariant all == From(p, 0, false, basic, sed, members)
      invariant Completes(out, p, index, inBrackets, basic, sed, members, all)
      decreases |p| - index
    {
      ghost var start, within := index, inBrackets;
      var c := p[index];
      var text: string;
      if inBrackets {
        if Ahead(p, index, "[:") {
          var close := Find(p, ":]", index);
          if close.None? || close.value < index + 2 || members(p[index + 2..close.value]).None? {
            return None;
          }
          text := members(p[index + 2..close.value]).value;
          index := close.value + 2;
        } else {
          text := if c == '\\' then "\\\\" else [c];
          inBrackets := StaysInBrackets(p, index);
          index := index + 1;
        }
      } else if c == '[' {
        text := "[";
        inBrackets := true;
        index := index + 1;
      } else if c == '\\' && index + 1 < |p| {
        text := EscapeOut(p[index + 1], basic, sed);
        index := index + 2;
      } else {
        text := CharOut(p, index, basic);
        index := index + 1;
      }
      OnePiece(out, p, start, within, basic, sed, members, Piece(text, index, inBrackets), all);
      out := out + text;
    }
    assert out + "" == out;
    r := Some(out);
  }

  /** The rest of the translation makes all of it of what there is. */
  predicate Completes(
    out: string, p: string, i: nat, inBrackets: bool, basic: bool, sed: bool, members: string -> Option<string>,
    all: Option<string>)
    requires i <= |p| && (inBrackets ==> i >= 1)
  {
    all == Prepend(out, From(p, i, inBrackets, basic, sed, members))
  }

  lemma OnePiece(
    out: string, p: string, i: nat, inBrackets: bool, basic: bool, sed: bool, members: string -> Option<string>,
    piece: Piece, all: Option<string>)
    requires i < |p| && (inBrackets ==> i >= 1) && PieceAt(p, i, inBrackets, basic, sed, members) == Some(piece)
    requires Completes(out, p, i, inBrackets, basic, sed, members, all)
    ensures Completes(out + piece.text, p, piece.next, piece.inBrackets, basic, sed, members, all)
  {
    PrependTwice(out, piece.text, From(p, piece.next, piece.inBrackets, basic, sed, members));
  }

  lemma PrependNothing(rest: Option<string>)
    ensures Prepend("", rest) == rest
  {
    if rest.Some? { assert "" + rest.value == rest.value; }
  }

  lemma PrependTwice(a: string, b: string, rest: Option<string>)
    ensures Prepend(a, Prepend(b, rest)) == Prepend(a + b, rest)
  {
    if rest.Some? { assert a + (b + rest.value) == a + b + rest.value; }
  }

  lemma PrependBoth(a: string, b: string, x: Option<string>, y: Option<string>, rest: Option<string>)
    requires x == Prepend(a, y) && y == Prepend(b, rest)
    ensures x == Prepend(a + b, rest)
  {
    PrependTwice(a, b, rest);
  }
}
