/** Regular expressions as Python reads them, and as POSIX does: sections 9.3 to 9.5 of XBD, with GNU's escapes. */
module RegexTokens {
  import opened Results

  /** A member of a bracket expression. */
  datatype Item = One(c: char) | Range(low: char, high: char)

  /** An element of a regular expression; a lookaround is closed by `Close`. */
  datatype Token =
    | Lit(c: char)
    | Any
    | Star
    | Plus
    | Quest
    | Interval(bounds: string)
    | Group
    | Close
    | Alt
    | LineStart
    | LineEnd
    | Class(c: char)
    | Backref(n: nat)
    | LookAhead
    | LookBehind
    | OneOf(negated: bool, items: seq<Item>)
    | NotModelled

  predicate IsRepeat(t: Token) { t.Star? || t.Plus? || t.Quest? || t.Interval? }

  predicate IsDigit(c: char) { '0' <= c <= '9' }

  function DigitValue(c: char): nat { if IsDigit(c) then c as int - '0' as int else 0 }

  /** Letters whose escapes are a class of characters or an edge of a word. */
  predicate IsClassLetter(c: char) { c == 'w' || c == 'W' || c == 's' || c == 'S' || c == 'b' || c == 'B' }

  /** Where the digits and commas from `i` on end. */
  function RunEnd(s: string, i: nat): (e: nat)
    requires i <= |s|
    ensures i <= e <= |s| && forall k :: i <= k < e ==> IsDigit(s[k]) || s[k] == ','
    ensures e < |s| ==> !IsDigit(s[e]) && s[e] != ','
    decreases |s| - i
  {
    if i < |s| && (IsDigit(s[i]) || s[i] == ',') then RunEnd(s, i + 1) else i
  }

  /** `m`, `m,`, `,n` or `m,n`, for digits and commas. */
  predicate IsBounds(b: string) { b != "" && forall j, k :: 0 <= j < k < |b| ==> !(b[j] == ',' && b[k] == ',') }

  // ---------------------------------------------------------------- Python's reading

  function PyEscape(f: char): Token {
    if IsClassLetter(f) then Class(f)
    else if f == 't' then Lit('\t')
    else if f == 'n' then Lit('\n')
    else if 'a' <= f <= 'z' || 'A' <= f <= 'Z' then NotModelled
    else Lit(f)
  }

  /** The token at the start of `s` and its length. */
  function PyToken(s: string): (r: (Token, nat))
    requires s != ""
    ensures 1 <= r.1 <= |s|
  {
    match s[0]
    case '\\' => PyBackslash(s)
    case '(' =>
      if |s| > 1 && s[1] == '?' then
        if |s| > 2 && s[2] == '=' then (LookAhead, 3)
        else if |s| > 3 && s[2] == '<' && s[3] == '=' then (LookBehind, 4)
        else (NotModelled, 2)
      else (Group, 1)
    case ')' => (Close, 1)
    case '|' => (Alt, 1)
    case '.' => (Any, 1)
    case '^' => (LineStart, 1)
    case '$' => (LineEnd, 1)
    case '*' => PyRepeat(Star, s, 1)
    case '+' => PyRepeat(Plus, s, 1)
    case '?' => PyRepeat(Quest, s, 1)
    case '{' =>
      var e := RunEnd(s, 1);
      if IsBounds(s[1..e]) && e < |s| && s[e] == '}' then PyRepeat(Interval(s[1..e]), s, e + 1) else (Lit('{'), 1)
    case '[' => PyBracket(s)
    case c => (Lit(c), 1)
  }

  /** A backslash and what it escapes: a digit begins a reference of one or two digits, or an octal number. */
  function PyBackslash(s: string): (r: (Token, nat))
    requires s != ""
    ensures 1 <= r.1 <= |s|
  {
    if |s| == 1 then (NotModelled, 1)
    else if !IsDigit(s[1]) then (PyEscape(s[1]), 2)
    else if s[1] == '0' then (NotModelled, 2)
    else if |s| > 2 && IsDigit(s[2]) then
      if |s| > 3 && s[1] <= '7' && s[2] <= '7' && '0' <= s[3] <= '7' then (NotModelled, 4)
      else (Backref(10 * DigitValue(s[1]) + DigitValue(s[2])), 3)
    else (Backref(DigitValue(s[1])), 2)
  }

  /** A repetition; followed by `?` or `+` it is a lazy or a possessive one. */
  function PyRepeat(t: Token, s: string, length: nat): (r: (Token, nat))
    requires 1 <= length <= |s|
    ensures 1 <= r.1 <= |s|
  {
    if length < |s| && (s[length] == '?' || s[length] == '+') then (NotModelled, length + 1) else (t, length)
  }

  function PyBracket(s: string): (r: (Token, nat))
    requires s != ""
    ensures 1 <= r.1 <= |s|
  {
    PyBracketFrom(s, if |s| > 1 && s[1] == '^' then 2 else 1)
  }

  function PyBracketFrom(s: string, start: nat): (r: (Token, nat))
    requires 1 <= start <= |s|
    ensures 1 <= r.1 <= |s|
  {
    OneOfItems(PyItems(s[start..], true), start)
  }

  function OneOfItems(r: Option<(seq<Item>, nat)>, start: nat): (Token, nat) {
    if r.None? then (NotModelled, 1) else (OneOf(start == 2, r.value.0), start + r.value.1)
  }

  /** The member of a bracket expression that `s` starts with, and its length. */
  function PyMember(s: string): (r: Option<(char, nat)>)
    requires s != ""
    ensures r.Some? ==> 1 <= r.value.1 <= |s|
  {
    if s[0] != '\\' then Some((s[0], 1))
    else if |s| == 1 then None
    else
      match s[1]
      case 't' => Some(('\t', 2))
      case 'n' => Some(('\n', 2))
      case 'r' => Some(('\r', 2))
      case 'f' => Some(('\U{0c}', 2))
      case 'v' => Some(('\U{0b}', 2))
      case 'x' =>
        if |s| > 3 && IsHex(s[2]) && IsHex(s[3]) then Some(((16 * HexValue(s[2]) + HexValue(s[3])) as char, 4))
            else None
      case f => if IsDigit(f) || 'a' <= f <= 'z' || 'A' <= f <= 'Z' then None else Some((f, 2))
  }

  predicate IsHex(c: char) { IsDigit(c) || 'a' <= c <= 'f' || 'A' <= c <= 'F' }

  function HexValue(c: char): (n: nat)
    requires IsHex(c)
    ensures n < 16
  {
    if IsDigit(c) then c as int - '0' as int
    else if 'a' <= c <= 'f' then c as int - 'a' as int + 10 else c as int - 'A' as int + 10
  }

  function Add(item: Item, length: nat, rest: Option<(seq<Item>, nat)>): Option<(seq<Item>, nat)> {
    if rest.None? then None else Some(([item] + rest.value.0, length + rest.value.1))
  }

  /** The members up to the closing `]`, which does not close as the first one, and the length with it. */
  function PyItems(s: string, first: bool): (r: Option<(seq<Item>, nat)>)
    ensures r.Some? ==> r.value.1 <= |s|
    decreases |s|, 1
  {
    if s == "" then None else if s[0] == ']' && !first then Some(([], 1)) else PyMore(s)
  }

  /** A member or a range, and what follows it. */
  function PyMore(s: string): (r: Option<(seq<Item>, nat)>)
    requires s != ""
    ensures r.Some? ==> r.value.1 <= |s|
    decreases |s|, 0
  {
    var m := PyMember(s);
    if m.None? then None
    else
      var (c, n) := m.value;
      if n + 1 < |s| && s[n] == '-' && s[n + 1] != ']' then
        var h := PyMember(s[n + 1..]);
        if h.None? then None
        else
          var end := n + 1 + h.value.1;
          Add(Range(c, h.value.0), end, PyItems(s[end..], false))
      else Add(One(c), n, PyItems(s[n..], false))
  }

  function PyTokens(s: string): seq<Token>
    decreases |s|
  {
    if s == "" then [] else var (t, n) := PyToken(s); [t] + PyTokens(s[n..])
  }

  // ---------------------------------------------------------------- POSIX brackets

  /** Which expressions: basic or extended ones, in `sed` or `grep`, and the character classes of the locale. */
  datatype Dialect = Dialect(basic: bool, sed: bool, classes: string -> Option<seq<Item>>)

  /** The character classes of the POSIX locale. */
  function ClassItems(name: string): Option<seq<Item>> {
    match name
    case "alpha" => Some([Range('a', 'z'), Range('A', 'Z')])
    case "digit" => Some([Range('0', '9')])
    case "alnum" => Some([Range('a', 'z'), Range('A', 'Z'), Range('0', '9')])
    case "upper" => Some([Range('A', 'Z')])
    case "lower" => Some([Range('a', 'z')])
    case "space" => Some([One(' '), One('\t'), One('\n'), One('\r'), One('\U{0c}'), One('\U{0b}')])
    case "blank" => Some([One(' '), One('\t')])
    case "punct" => Some([Range('!', '/'), Range(':', '@'), Range('[', '`'), Range('{', '~')])
    case "xdigit" => Some([Range('0', '9'), Range('A', 'F'), Range('a', 'f')])
    case "cntrl" => Some([Range('\0', '\U{1f}'), One('\U{7f}')])
    case "print" => Some([Range(' ', '~')])
    case "graph" => Some([Range('!', '~')])
    case _ => None
  }

  predicate IsClassOpen(p: string, j: nat) { j + 1 < |p| && p[j] == '[' && p[j + 1] == ':' }

  /** `[:`, `[.` or `[=`. */
  predicate IsNamed(p: string, j: nat) {
    j + 1 < |p| && p[j] == '[' && (p[j + 1] == ':' || p[j + 1] == '.' || p[j + 1] == '=')
  }

  /** How much there is before the next `:]`. */
  function NameLength(p: string, j: nat): (n: Option<nat>)
    requires j <= |p|
    ensures n.Some? ==> j + n.value + 2 <= |p| && p[j + n.value] == ':' && p[j + n.value + 1] == ']'
    decreases |p| - j
  {
    if j + 1 >= |p| then None
    else if p[j] == ':' && p[j + 1] == ']' then Some(0)
    else
      var n := NameLength(p, j + 1);
      if n.None? then None else Some(n.value + 1)
  }

  /** A range of which `j` is the low end; a `-` before the closing bracket stands for itself. */
  predicate IsRange(p: string, j: nat) { j + 2 < |p| && p[j + 1] == '-' && p[j + 2] != ']' }

  /**
   * The members written at `j` and where the next ones are. A class ends no range, and collating symbols and
   * equivalence classes are left out.
   */
  function PosixItem(p: string, j: nat, d: Dialect): (r: Option<(seq<Item>, nat)>)
    requires j < |p|
    ensures r.Some? ==> j < r.value.1 <= |p|
  {
    if IsClassOpen(p, j) then
      var n := NameLength(p, j + 2);
      if n.None? || IsRange(p, j + n.value + 3) then None
      else
        var items := d.classes(p[j + 2..j + 2 + n.value]);
        if items.None? then None else Some((items.value, j + n.value + 4))
    else if IsNamed(p, j) then None
    else if IsRange(p, j) then if IsNamed(p, j + 2) then None else Some(([Range(p[j], p[j + 2])], j + 3))
    else Some(([One(p[j])], j + 1))
  }

  /** The members from `j` to the closing bracket, and where it ends. */
  function PosixItems(p: string, j: nat, first: bool, d: Dialect): (r: Option<(seq<Item>, nat)>)
    requires j <= |p|
    ensures r.Some? ==> j < r.value.1 <= |p| && p[r.value.1 - 1] == ']'
    decreases |p| - j
  {
    if j == |p| then None
    else if p[j] == ']' && !first then Some(([], j + 1))
    else
      var item := PosixItem(p, j, d);
      if item.None? then None
      else
        var rest := PosixItems(p, item.value.1, false, d);
        if rest.None? then None else Some((item.value.0 + rest.value.0, rest.value.1))
  }

  predicate IsNegated(p: string, i: nat) { i + 1 < |p| && p[i + 1] == '^' }

  function Members(p: string, i: nat, d: Dialect): (r: Option<(seq<Item>, nat)>)
    requires i < |p|
    ensures r.Some? ==> i + 2 < r.value.1 <= |p| && p[r.value.1 - 1] == ']'
  {
    PosixItems(p, if IsNegated(p, i) then i + 2 else i + 1, true, d)
  }

  predicate IsBracket(p: string, i: nat, d: Dialect) { i < |p| && p[i] == '[' && Members(p, i, d).Some? }

  // ---------------------------------------------------------------- POSIX tokens

  predicate IsEscape(p: string, i: int, f: char) { 0 <= i && i + 1 < |p| && p[i] == '\\' && p[i + 1] == f }

  function PosixEscape(f: char, d: Dialect): seq<Token> {
    match f
    case '(' => [if d.basic then Group else Lit(f)]
    case ')' => [if d.basic then Close else Lit(f)]
    case '|' => [if d.basic then Alt else Lit(f)]
    case '+' => [if d.basic then Plus else Lit(f)]
    case '?' => [if d.basic then Quest else Lit(f)]
    case '<' => [Class('b'), LookAhead, Class('w'), Close]
    case '>' => [Class('b'), LookBehind, Class('w'), Close]
    case _ =>
      if IsClassLetter(f) then [Class(f)]
      else if IsDigit(f) then [Backref(DigitValue(f))]
      else if d.sed && f == 't' then [Lit('\t')]
      else if d.sed && f == 'n' then [Lit('\n')]
      else [Lit(f)]
  }

  /** Whether an expression or a group or an alternative starts here. */
  predicate Starts(prev: Option<Token>) {
    prev.None? || prev.value.Group? || prev.value.Alt?
  }

  /** A `*` here repeats nothing. */
  predicate IsLeading(prev: Option<Token>) { Starts(prev) || prev.value.LineStart? }

  function PosixChar(p: string, i: nat, prev: Option<Token>, basic: bool): Token
    requires i < |p|
  {
    match p[i]
    case '.' => Any
    case '*' => if basic && IsLeading(prev) then Lit('*') else Star
    case '^' => if !basic || Starts(prev) then LineStart else Lit('^')
    case '$' => if !basic || i + 1 == |p| || IsEscape(p, i + 1, ')') || IsEscape(p, i + 1, '|') then LineEnd
       else Lit('$')
    case '(' => if basic then Lit('(') else Group
    case ')' => if basic then Lit(')') else Close
    case '|' => if basic then Lit('|') else Alt
    case '+' => if basic then Lit('+') else Plus
    case '?' => if basic then Lit('?') else Quest
    case c => Lit(c)
  }

  /** The opening brace of an interval, and its bounds. */
  function BoundsStart(i: nat, basic: bool): nat { if basic then i + 2 else i + 1 }

  predicate IsInterval(p: string, i: nat, basic: bool) {
    && (if basic then IsEscape(p, i, '{') else i < |p| && p[i] == '{')
    && var e := RunEnd(p, BoundsStart(i, basic));
       && IsBounds(p[BoundsStart(i, basic)..e])
       && (if basic then IsEscape(p, e, '}') else e < |p| && p[e] == '}')
  }

  function Bounds(p: string, i: nat, basic: bool): string
    requires IsInterval(p, i, basic)
  {
    p[BoundsStart(i, basic)..RunEnd(p, BoundsStart(i, basic))]
  }

  /** Where the token after the one at `i` begins. */
  function Next(p: string, i: nat, d: Dialect): (n: nat)
    requires i < |p|
    ensures i < n <= |p|
  {
    if IsBracket(p, i, d) then Members(p, i, d).value.1
    else if IsInterval(p, i, d.basic) then RunEnd(p, BoundsStart(i, d.basic)) + if d.basic then 2 else 1
    else if p[i] == '\\' && i + 1 < |p| then i + 2 else i + 1
  }

  /** The tokens at `i`; `prev` is the token before. */
  function PosixToken(p: string, i: nat, prev: Option<Token>, d: Dialect): (t: seq<Token>)
    requires i < |p|
    ensures t != []
  {
    if IsBracket(p, i, d) then [OneOf(IsNegated(p, i), Members(p, i, d).value.0)]
    else if IsInterval(p, i, d.basic) then [Interval(Bounds(p, i, d.basic))]
    else if p[i] == '\\' && i + 1 < |p| then PosixEscape(p[i + 1], d)
    else [PosixChar(p, i, prev, d.basic)]
  }

  function Last(t: seq<Token>): Option<Token>
    requires t != []
  {
    Some(t[|t| - 1])
  }

  function PosixTokens(p: string, i: nat, prev: Option<Token>, d: Dialect): seq<Token>
    requires i <= |p|
    decreases |p| - i
  {
    if i == |p| then []
    else
      var t := PosixToken(p, i, prev, d);
      t + PosixTokens(p, Next(p, i, d), Last(t), d)
  }
}
