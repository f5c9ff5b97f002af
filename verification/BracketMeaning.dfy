/** Bracket expressions keep their meaning: Python reads the members of a translation as POSIX those of the pattern. */
module BracketMeaning {
  import opened Results
  import opened RegexTokens
  import opened BreTranslate

  /** A text Python reads as this member. */
  predicate Spells(text: string, c: char) {
    || (c != '\\' && text == [c])
    || (c == '\\' && text == "\\\\") || (c == '[' && text == "\\[")
    || (c == '\t' && text == "\\t") || (c == '\n' && text == "\\n") || (c == '\r' && text == "\\r")
    || (c == '\U{0c}' && text == "\\f") || (c == '\U{0b}' && text == "\\v")
    || (c == '\0' && text == "\\x00") || (c == '\U{1f}' && text == "\\x1f") || (c == '\U{7f}' && text == "\\x7f")
  }

  lemma ReadMember(text: string, c: char, rest: string)
    requires Spells(text, c)
    ensures text != "" && PyMember(text + rest) == Some((c, |text|))
    ensures text[0] == ']' ==> c == ']'
  {
    var s := text + rest;
    assert forall k :: 0 <= k < |text| ==> s[k] == text[k];
  }

  /** No `-` that makes a range of what comes before. */
  predicate NoRange(rest: string) { |rest| > 1 && rest[0] == '-' ==> rest[1] == ']' }

  /** Members followed by others. */
  function Followed(items: seq<Item>, length: nat, rest: Option<(seq<Item>, nat)>): Option<(seq<Item>, nat)> {
    if rest.None? then None else Some((items + rest.value.0, length + rest.value.1))
  }

  /** Python reads the text as these members, whatever it makes of the rest. */
  predicate Reads(text: string, items: seq<Item>, rest: string, first: bool) {
    ReadsBy(PyItems, text, items, rest, first)
  }

  predicate ReadsBy(
    read: (string, bool) -> Option<(seq<Item>, nat)>, text: string, items: seq<Item>, rest: string, first: bool)
  {
    read(text + rest, first) == Followed(items, |text|, read(rest, false))
  }

  lemma ReadsBoth(s: string, these: seq<Item>, t: string, those: seq<Item>, rest: string, first: bool)
    requires Reads(s, these, t + rest, first) && Reads(t, those, rest, false)
    ensures Reads(s + t, these + those, rest, first)
  {
    BothBy(PyItems, s, these, t, those, rest, first);
  }

  lemma BothBy(
    read: (string, bool) -> Option<(seq<Item>, nat)>, s: string, these: seq<Item>, t: string, those: seq<Item>,
    rest: string, first: bool)
    requires ReadsBy(read, s, these, t + rest, first) && ReadsBy(read, t, those, rest, false)
    ensures ReadsBy(read, s + t, these + those, rest, first)
  {
    var r := read(rest, false);
    assert s + (t + rest) == s + t + rest;
    if r.Some? { assert these + (those + r.value.0) == these + those + r.value.0; }
  }

  lemma ReadOne(text: string, c: char, rest: string, first: bool)
    requires Spells(text, c) && NoRange(rest) && (c == ']' ==> first)
    ensures Reads(text, [One(c)], rest, first)
  {
    var s, n := text + rest, |text|;
    ReadMember(text, c, rest);
    assert n + 1 < |s| ==> s[n] == rest[0] && s[n + 1] == rest[1];
    assert s[n..] == rest && s[0] == text[0];
    OneStep(s, c, n);
    FromMore(s, first);
  }

  lemma OneStep(s: string, c: char, n: nat)
    requires s != "" && PyMember(s) == Some((c, n)) && NoRange(s[n..])
    ensures PyMore(s) == Add(One(c), n, PyItems(s[n..], false))
  {
    assert n + 1 < |s| ==> s[n..][0] == s[n] && s[n..][1] == s[n + 1];
  }

  lemma ReadRange(low: string, lo: char, high: string, hi: char, rest: string, first: bool)
    requires Spells(low, lo) && Spells(high, hi) && (lo == ']' ==> first) && hi != ']'
    ensures Reads(low + "-" + high, [Range(lo, hi)], rest, first)
  {
    var s := low + "-" + high + rest;
    ReadMember(low, lo, "-" + high + rest);
    ReadMember(high, hi, rest);
    Joined(low, high, rest);
    Sliced(low, high, rest);
    RangeStep(s, lo, |low|, hi, |high|);
    FromMore(s, first);
  }

  lemma Joined(low: string, high: string, rest: string)
    ensures var s := low + "-" + high + rest;
            && s == low + ("-" + high + rest) && s[|low|] == '-'
            && (low != "" ==> s[0] == low[0]) && (high != "" ==> s[|low| + 1] == high[0])
  {
  }

  lemma Sliced(low: string, high: string, rest: string)
    ensures var s, n := low + "-" + high + rest, |low| + 1; s[n..] == high + rest && s[n + |high|..] == rest
  {
  }

  lemma FromMore(s: string, first: bool)
    requires s != "" && (s[0] == ']' ==> first)
    ensures PyItems(s, first) == PyMore(s)
  {
  }

  lemma RangeStep(s: string, lo: char, n: nat, hi: char, m: nat)
    requires s != "" && PyMember(s) == Some((lo, n))
    requires n + 1 < |s| && s[n] == '-' && s[n + 1] != ']' && PyMember(s[n + 1..]) == Some((hi, m))
    ensures n + 1 + m <= |s| && PyMore(s) == Add(Range(lo, hi), n + 1 + m, PyItems(s[n + 1 + m..], false))
  {
  }

  // ---------------------------------------------------------------- the named classes

  function Spelling(c: char): string {
    if c == '[' then "\\[" else if c == '\t' then "\\t" else if c == '\n' then "\\n" else if c == '\r' then "\\r"
    else if c == '\U{0c}' then "\\f" else if c == '\U{0b}' then "\\v" else if c == '\0' then "\\x00"
    else if c == '\U{1f}' then "\\x1f" else if c == '\U{7f}' then "\\x7f" else [c]
  }

  function ItemSpelling(item: Item): string {
    if item.One? then Spelling(item.c) else Spelling(item.low) + "-" + Spelling(item.high)
  }

  function Spelled(items: seq<Item>): string {
    if items == [] then "" else ItemSpelling(items[0]) + Spelled(items[1..])
  }

  predicate IsSafe(c: char) { c != '\\' && c != ']' && c != '-' && c != '^' }

  predicate IsSafeItem(item: Item) {
    if item.One? then IsSafe(item.c) else IsSafe(item.low) && IsSafe(item.high)
  }

  predicate AreSafe(items: seq<Item>) { forall k :: 0 <= k < |items| ==> IsSafeItem(items[k]) }

  lemma ReadItem(item: Item, rest: string, first: bool)
    requires IsSafeItem(item) && (item.One? ==> NoRange(rest))
    ensures Reads(ItemSpelling(item), [item], rest, first)
  {
    if item.One? { ReadOne(Spelling(item.c), item.c, rest, first); }
    else { ReadRange(Spelling(item.low), item.low, Spelling(item.high), item.high, rest, first); }
  }

  lemma {:induction false} ReadSpelled(items: seq<Item>, rest: string, first: bool)
    requires AreSafe(items) && items != [] && NoRange(rest)
    ensures Reads(Spelled(items), items, rest, first)
  {
    var head, tail := items[0], items[1..];
    if tail == [] {
      assert items == [head] && Spelled(items) == ItemSpelling(head);
      ReadItem(head, rest, first);
    } else {
      SpelledStarts(tail, rest);
      ReadSpelled(tail, rest, false);
      ReadItem(head, Spelled(tail) + rest, first);
      ReadsBoth(ItemSpelling(head), [head], Spelled(tail), tail, rest, first);
      assert items == [head] + tail;
    }
  }

  lemma SpelledStarts(items: seq<Item>, rest: string)
    requires items != [] && IsSafeItem(items[0])
    ensures Spelled(items) + rest != "" && (Spelled(items) + rest)[0] != '-' && (Spelled(items) + rest)[0] != '^'
  {
    assert (Spelled(items) + rest)[0] == ItemSpelling(items[0])[0];
  }

  predicate SpellsClass(text: Option<string>, items: Option<seq<Item>>, name: string) {
    && (text.Some? <==> items.Some?)
    && (items.Some? ==>
          && items.value != [] && AreSafe(items.value) && name != "" && name[0] != ']'
          && text.value == Spelled(items.value) && StartsQuietly(text.value))
  }

  /** Nothing at the start that would continue what is outside brackets. */
  predicate StartsQuietly(text: string) {
    && text != "" && text[0] != '?' && text[0] != '+' && text[0] != ',' && text[0] != '}' && text[0] != '['
    && text[0] != '-' && text[0] != '^'
    && (IsDigit(text[0]) ==> |text| > 1 && text[1] == '-')
  }

  lemma SpelledOneMore(item: Item, items: seq<Item>)
    ensures Spelled([item]) == ItemSpelling(item)
    ensures Spelled([item] + items) == ItemSpelling(item) + Spelled(items)
  {
    assert ([item] + items)[1..] == items;
    assert [item][1..] == [] && Spelled([]) == "";
  }

  lemma TwoSpelled(a: Item, b: Item)
    ensures Spelled([a, b]) == ItemSpelling(a) + ItemSpelling(b)
  {
    SpelledOneMore(a, [b]);
    SpelledOneMore(b, []);
    assert [a] + [b] == [a, b];
  }

  lemma ThreeSpelled(a: Item, b: Item, c: Item)
    ensures Spelled([a, b, c]) == ItemSpelling(a) + ItemSpelling(b) + ItemSpelling(c)
  {
    SpelledOneMore(a, [b, c]);
    TwoSpelled(b, c);
    assert [a] + [b, c] == [a, b, c];
  }

  lemma FourSpelled(a: Item, b: Item, c: Item, d: Item)
    ensures Spelled([a, b, c, d]) == ItemSpelling(a) + ItemSpelling(b) + ItemSpelling(c) + ItemSpelling(d)
  {
    SpelledOneMore(a, [b, c, d]);
    ThreeSpelled(b, c, d);
    assert [a] + [b, c, d] == [a, b, c, d];
  }

  lemma LettersAreSpelled()
    ensures forall name | name in {"alpha", "alnum", "upper", "lower"} :: IsSpelledClass(name)
  {
    TwoSpelled(Range('a', 'z'), Range('A', 'Z'));
    ThreeSpelled(Range('a', 'z'), Range('A', 'Z'), Range('0', '9'));
    SpelledOneMore(Range('A', 'Z'), []);
    SpelledOneMore(Range('a', 'z'), []);
  }

  lemma NumbersAreSpelled()
    ensures forall name | name in {"digit", "xdigit"} :: IsSpelledClass(name)
  {
    ThreeSpelled(Range('0', '9'), Range('A', 'F'), Range('a', 'f'));
    SpelledOneMore(Range('0', '9'), []);
  }

  lemma PrintablesAreSpelled()
    ensures forall name | name in {"print", "graph"} :: IsSpelledClass(name)
  {
    SpelledOneMore(Range(' ', '~'), []);
    SpelledOneMore(Range('!', '~'), []);
  }

  lemma OthersAreSpelled()
    ensures forall name | name in {"blank", "cntrl"} :: IsSpelledClass(name)
  {
    TwoSpelled(One(' '), One('\t'));
    TwoSpelled(Range('\0', '\U{1f}'), One('\U{7f}'));
  }

  lemma PunctIsSpelled()
    ensures IsSpelledClass("punct")
  {
    FourSpelled(Range('!', '/'), Range(':', '@'), Range('[', '`'), Range('{', '~'));
    PunctIs([Range('!', '/'), Range(':', '@'), Range('[', '`'), Range('{', '~')]);
  }

  lemma PunctIs(items: seq<Item>)
    requires items == [Range('!', '/'), Range(':', '@'), Range('[', '`'), Range('{', '~')]
    requires Spelled(items) == "!-/" + ":-@" + "\\[-`" + "{-~"
    ensures IsSpelledClass("punct")
  {
    assert "!-/" + ":-@" + "\\[-`" + "{-~" == "!-/:-@\\[-`{-~";
  }

  lemma SpaceIsSpelled()
    ensures IsSpelledClass("space")
  {
    var a, b := [One('\n'), One('\r'), One('\U{0c}'), One('\U{0b}')], One('\t');
    FourSpelled(a[0], a[1], a[2], a[3]);
    SpelledOneMore(b, a);
    SpelledOneMore(One(' '), [b] + a);
    SpaceText();
    SpaceIs([One(' ')] + ([b] + a));
  }

  lemma SpaceText()
    ensures " " + ("\\t" + ("\\n" + "\\r" + "\\f" + "\\v")) == " \\t\\n\\r\\f\\v"
  {
  }

  lemma SpaceIs(items: seq<Item>)
    requires items == [One(' '), One('\t'), One('\n'), One('\r'), One('\U{0c}'), One('\U{0b}')]
    requires Spelled(items) == " \\t\\n\\r\\f\\v"
    ensures IsSpelledClass("space")
  {
  }

  predicate IsSpelledClass(name: string) { SpellsClass(ClassMembers(name), ClassItems(name), name) }

  /** The names are those of POSIX, and each text spells the members. */
  lemma ClassIsSpelled(name: string)
    ensures IsSpelledClass(name)
  {
    LettersAreSpelled();
    NumbersAreSpelled();
    PrintablesAreSpelled();
    OthersAreSpelled();
    PunctIsSpelled();
    SpaceIsSpelled();
    ClassNames(name);
  }

  lemma ClassNames(name: string)
    ensures (ClassMembers(name).None? && ClassItems(name).None?)
         || name in {"alpha", "alnum", "upper", "lower"} || name in {"digit", "xdigit"} || name in {"print", "graph"}
         || name in {"blank", "cntrl"} || name == "punct" || name == "space"
  {
  }

  // ---------------------------------------------------------------- a bracket expression and its translation

  /** The translator's classes are written as the members of the locale's. */
  ghost predicate SpellsClasses(members: string -> Option<string>, classes: string -> Option<seq<Item>>) {
    forall name :: SpellsClass(members(name), classes(name), name)
  }

  function MemberOut(c: char): string { if c == '\\' then "\\\\" else [c] }

  function ItemOut(p: string, j: nat, d: Dialect): string
    requires j < |p| && PosixItem(p, j, d).Some?
  {
    if IsClassOpen(p, j) then Spelled(PosixItem(p, j, d).value.0)
    else if IsRange(p, j) then MemberOut(p[j]) + "-" + MemberOut(p[j + 2])
    else MemberOut(p[j])
  }

  // ---------------------------------------------------------------- the translator, step by step

  /** Right behind the opening bracket, or the `^` after it. */
  predicate IsFirst(p: string, j: nat) {
    1 <= j <= |p| && (p[j - 1] == '[' || (j > 1 && p[j - 2] == '[' && p[j - 1] == '^'))
  }

  lemma StaysIsFirst(p: string, j: nat)
    requires 1 <= j < |p|
    ensures StaysInBrackets(p, j) <==> p[j] != ']' || IsFirst(p, j)
  {
    AheadTwo(p, j - 2, "[^");
  }

  lemma AheadTwo(p: string, j: int, text: string)
    requires |text| == 2
    ensures Ahead(p, j, text) <==> 0 <= j && j + 1 < |p| && p[j] == text[0] && p[j + 1] == text[1]
  {
    if 0 <= j && j + 1 < |p| { assert p[j..j + 2] == [p[j], p[j + 1]]; }
  }

  lemma {:induction false} FindIs(p: string, j: nat, n: nat)
    requires j <= |p| && NameLength(p, j) == Some(n)
    ensures Find(p, ":]", j) == Some(j + n)
    decreases n
  {
    AheadTwo(p, j, ":]");
    if n > 0 { FindIs(p, j + 1, n - 1); }
  }

  /** What is made of the pattern from a place on, within brackets or not. */
  type Output = (nat, bool) -> Option<string>

  function OutputOf(p: string, d: Dialect, members: string -> Option<string>): Output {
    (i: nat, within: bool) =>
      if i <= |p| && (within ==> i >= 1) then From(p, i, within, d.basic, d.sed, members) else None
  }

  predicate DoesMember(out: Output, p: string, j: nat) {
    1 <= j < |p| && !IsClassOpen(p, j) && (p[j] == ']' ==> IsFirst(p, j)) ==>
      out(j, true) == Prepend(MemberOut(p[j]), out(j + 1, true))
  }

  predicate DoesNamed(out: Output, p: string, j: nat, n: nat, members: string -> Option<string>) {
    1 <= j && IsClassOpen(p, j) && NameLength(p, j + 2) == Some(n) && n > 0 && p[j + 2] != ']'
    && members(p[j + 2..j + 2 + n]).Some? ==>
      out(j, true) == Prepend(members(p[j + 2..j + 2 + n]).value, out(j + n + 4, true))
  }

  /** A name that is missing or unknown. */
  predicate DoesUnnamed(out: Output, p: string, j: nat, members: string -> Option<string>) {
    1 <= j && IsClassOpen(p, j)
    && ((j + 2 < |p| && p[j + 2] == ']') || NameLength(p, j + 2).None?
        || members(p[j + 2..j + 2 + NameLength(p, j + 2).value]).None?) ==>
      out(j, true) == None
  }

  predicate DoesClose(out: Output, p: string, j: nat) {
    1 <= j < |p| && p[j] == ']' ==> out(j, true) == Prepend("]", out(j + 1, IsFirst(p, j)))
  }

  predicate DoesOpen(out: Output, p: string, i: nat) {
    i < |p| && p[i] == '[' ==> out(i, false) == Prepend("[", out(i + 1, true))
  }

  predicate DoesEscape(out: Output, p: string, i: nat, d: Dialect) {
    i + 1 < |p| && p[i] == '\\' ==> out(i, false) == Prepend(EscapeOut(p[i + 1], d.basic, d.sed), out(i + 2, false))
  }

  predicate DoesChar(out: Output, p: string, i: nat, d: Dialect) {
    i < |p| && p[i] != '[' && !(p[i] == '\\' && i + 1 < |p|) ==>
      out(i, false) == Prepend(CharOut(p, i, d.basic), out(i + 1, false))
  }

  predicate DoesEnd(out: Output, p: string, within: bool) { (within ==> p != "") ==> out(|p|, within) == Some("") }

  ghost predicate IsTranslator(out: Output, p: string, d: Dialect, members: string -> Option<string>) {
    && (forall j: nat :: DoesMember(out, p, j)) && (forall j: nat, n: nat :: DoesNamed(out, p, j, n, members))
    && (forall j: nat :: DoesUnnamed(out, p, j, members))
    && (forall j: nat :: DoesClose(out, p, j)) && (forall i: nat :: DoesOpen(out, p, i))
    && (forall i: nat :: DoesEscape(out, p, i, d)) && (forall i: nat :: DoesChar(out, p, i, d))
    && (forall within :: DoesEnd(out, p, within))
  }

  lemma TranslatorSteps(p: string, d: Dialect, members: string -> Option<string>)
    ensures IsTranslator(OutputOf(p, d, members), p, d, members)
  {
    var out := OutputOf(p, d, members);
    forall j: nat ensures DoesMember(out, p, j) { MemberStep(p, j, d, members); }
    forall j: nat, n: nat ensures DoesNamed(out, p, j, n, members) { NamedStep(p, j, n, d, members); }
    forall j: nat ensures DoesUnnamed(out, p, j, members) { UnnamedStep(p, j, d, members); }
    forall j: nat ensures DoesClose(out, p, j) { CloseStep(p, j, d, members); }
    forall i: nat ensures DoesOpen(out, p, i) { OutsideStep(p, i, d, members); }
    forall i: nat ensures DoesEscape(out, p, i, d) { OutsideStep(p, i, d, members); }
    forall i: nat ensures DoesChar(out, p, i, d) { OutsideStep(p, i, d, members); }
    forall within ensures DoesEnd(out, p, within) { EndStep(p, within, d, members); }
  }

  lemma MemberStep(p: string, j: nat, d: Dialect, members: string -> Option<string>)
    ensures DoesMember(OutputOf(p, d, members), p, j)
  {
    AheadTwo(p, j, "[:");
    if 1 <= j < |p| { StaysIsFirst(p, j); }
  }

  lemma NamedStep(p: string, j: nat, n: nat, d: Dialect, members: string -> Option<string>)
    ensures DoesNamed(OutputOf(p, d, members), p, j, n, members)
  {
    AheadTwo(p, j, "[:");
    if 1 <= j && IsClassOpen(p, j) && NameLength(p, j + 2) == Some(n) && p[j + 2] != ']' {
      FindFirst(p, j);
      FindIs(p, j + 2, n);
      NamedPiece(p, j, n, d, members);
    }
  }

  lemma NamedPiece(p: string, j: nat, n: nat, d: Dialect, members: string -> Option<string>)
    requires 1 <= j && j + 2 + n <= |p| && Ahead(p, j, "[:") && Find(p, ":]", j) == Some(j + 2 + n)
    ensures var out := OutputOf(p, d, members);
            members(p[j + 2..j + 2 + n]).Some? ==>
              out(j, true) == Prepend(members(p[j + 2..j + 2 + n]).value, out(j + n + 4, true))
  {
  }

  lemma UnnamedStep(p: string, j: nat, d: Dialect, members: string -> Option<string>)
    ensures DoesUnnamed(OutputOf(p, d, members), p, j, members)
  {
    AheadTwo(p, j, "[:");
    if 1 <= j && IsClassOpen(p, j) {
      FindFirst(p, j);
      if j + 2 >= |p| || p[j + 2] != ']' {
        if NameLength(p, j + 2).None? { NotFound(p, j + 2); }
        else { FindIs(p, j + 2, NameLength(p, j + 2).value); }
      }
    }
  }

  lemma FindFirst(p: string, j: nat)
    requires IsClassOpen(p, j)
    ensures Find(p, ":]", j) == if j + 2 < |p| && p[j + 2] == ']' then Some(j + 1) else Find(p, ":]", j + 2)
  {
    AheadTwo(p, j, ":]");
    AheadTwo(p, j + 1, ":]");
    assert Find(p, ":]", j) == Find(p, ":]", j + 1);
  }

  lemma {:induction false} NotFound(p: string, j: nat)
    requires j <= |p| && NameLength(p, j).None?
    ensures Find(p, ":]", j) == None
    decreases |p| - j
  {
    AheadTwo(p, j, ":]");
    if j + 1 < |p| { NotFound(p, j + 1); }
    else if j < |p| { AheadTwo(p, j + 1, ":]"); }
  }

  lemma CloseStep(p: string, j: nat, d: Dialect, members: string -> Option<string>)
    ensures DoesClose(OutputOf(p, d, members), p, j)
  {
    AheadTwo(p, j, "[:");
    if 1 <= j < |p| { StaysIsFirst(p, j); }
  }

  lemma OutsideStep(p: string, i: nat, d: Dialect, members: string -> Option<string>)
    ensures var out := OutputOf(p, d, members);
            DoesOpen(out, p, i) && DoesEscape(out, p, i, d) && DoesChar(out, p, i, d)
  {
  }

  lemma EndStep(p: string, within: bool, d: Dialect, members: string -> Option<string>)
    ensures DoesEnd(OutputOf(p, d, members), p, within)
  {
  }

  // ---------------------------------------------------------------- the members

  lemma ClassText(p: string, j: nat, n: nat, d: Dialect, members: string -> Option<string>)
    requires IsClassOpen(p, j) && PosixItem(p, j, d).Some? && SpellsClasses(members, d.classes)
    requires NameLength(p, j + 2) == Some(n)
    ensures members(p[j + 2..j + 2 + n]) == Some(ItemOut(p, j, d)) && n > 0 && p[j + 2] != ']'
    ensures PosixItem(p, j, d).value.1 == j + n + 4
  {
    ClassIsKnown(p[j + 2..j + 2 + n], d.classes, members);
  }

  lemma ClassIsKnown(name: string, classes: string -> Option<seq<Item>>, members: string -> Option<string>)
    requires SpellsClasses(members, classes) && classes(name).Some?
    ensures members(name) == Some(Spelled(classes(name).value)) && name != "" && name[0] != ']'
  {
    assert SpellsClass(members(name), classes(name), name);
  }

  /** A way to read members: one member after the other, up to the closing bracket. */
  type Reader = (string, bool) -> Option<(seq<Item>, nat)>

  predicate DoesOne(read: Reader, text: string, c: char, rest: string, first: bool) {
    Spells(text, c) && NoRange(rest) && (c == ']' ==> first) ==> ReadsBy(read, text, [One(c)], rest, first)
  }

  predicate DoesRange(read: Reader, low: string, lo: char, high: string, hi: char, rest: string, first: bool) {
    Spells(low, lo) && Spells(high, hi) && (lo == ']' ==> first) && hi != ']' ==>
      ReadsBy(read, low + "-" + high, [Range(lo, hi)], rest, first)
  }

  predicate DoesSpelled(read: Reader, items: seq<Item>, rest: string, first: bool) {
    AreSafe(items) && items != [] && NoRange(rest) ==> ReadsBy(read, Spelled(items), items, rest, first)
  }

  ghost predicate ReadsMembers(read: Reader) {
    && (forall text, c, rest, first :: DoesOne(read, text, c, rest, first))
    && (forall low, lo, high, hi, rest, first ::
          DoesRange(read, low, lo, high, hi, rest, first))
    && (forall items, rest, first :: DoesSpelled(read, items, rest, first))
    && (forall rest :: ReadsWhole(read, "]", [], rest, false))
  }

  predicate ReadsWhole(read: Reader, text: string, items: seq<Item>, rest: string, first: bool) {
    read(text + rest, first) == Some((items, |text|))
  }

  lemma PythonReadsMembers()
    ensures ReadsMembers(PyItems)
  {
    forall text, c, rest, first ensures DoesOne(PyItems, text, c, rest, first) {
      if Spells(text, c) && NoRange(rest) && (c == ']' ==> first) { ReadOne(text, c, rest, first); }
    }
    forall low, lo, high, hi, rest, first ensures DoesRange(PyItems, low, lo, high, hi, rest, first) {
      if Spells(low, lo) && Spells(high, hi) && (lo == ']' ==> first) && hi != ']' {
        ReadRange(low, lo, high, hi, rest, first);
      }
    }
    forall items, rest, first ensures DoesSpelled(PyItems, items, rest, first) {
      if AreSafe(items) && items != [] && NoRange(rest) { ReadSpelled(items, rest, first); }
    }
    forall rest ensures ReadsWhole(PyItems, "]", [], rest, false) {
      assert ("]" + rest)[0] == ']';
    }
  }

  /** What makes a range of the members at `j` and no others. */
  predicate MayRange(p: string, j: nat) { IsRange(p, j) && !IsClassOpen(p, j) }

  /** The members at `j`, translated and read again. */
  lemma OneItem(out: Output, read: Reader, p: string, j: nat, d: Dialect, members: string -> Option<string>)
    returns (text: string)
    requires 1 <= j < |p| && PosixItem(p, j, d).Some? && SpellsClasses(members, d.classes)
    requires IsTranslator(out, p, d, members) && ReadsMembers(read) && (p[j] == ']' ==> IsFirst(p, j))
    ensures out(j, true) == Prepend(text, out(PosixItem(p, j, d).value.1, true))
    ensures text != "" && (text[0] == '-' || text[0] == '^' ==> p[j] == text[0])
    ensures forall rest, first :: ReadsItem(read, text, PosixItem(p, j, d).value.0, rest, first, p, j)
    ensures p[j] == '-' && j + 1 < |p| && p[j + 1] == ']' ==> text == "-"
  {
    if IsClassOpen(p, j) {
      text := ItemOut(p, j, d);
      OneClass(out, read, p, j, d, members);
    } else if IsRange(p, j) {
      text := MemberOut(p[j]) + "-" + MemberOut(p[j + 2]);
      FromRange(out, p, j);
      var items := [Range(p[j], p[j + 2])];
      forall rest, first ensures ReadsItem(read, text, items, rest, first, p, j) {
        assert DoesRange(read, MemberOut(p[j]), p[j], MemberOut(p[j + 2]), p[j + 2], rest, first);
      }
    } else {
      text := MemberOut(p[j]);
      assert DoesMember(out, p, j);
      forall rest, first ensures ReadsItem(read, text, [One(p[j])], rest, first, p, j) {
        assert DoesOne(read, MemberOut(p[j]), p[j], rest, first);
      }
    }
  }

  predicate ReadsItem(
    read: Reader, text: string, items: seq<Item>, rest: string, first: bool, p: string, j: nat)
    requires j < |p|
  {
    (p[j] == ']' ==> first) && (!MayRange(p, j) ==> NoRange(rest)) ==> ReadsBy(read, text, items, rest, first)
  }

  lemma OneClass(out: Output, read: Reader, p: string, j: nat, d: Dialect, members: string -> Option<string>)
    requires 1 <= j < |p| && PosixItem(p, j, d).Some? && SpellsClasses(members, d.classes) && IsClassOpen(p, j)
    requires IsTranslator(out, p, d, members) && ReadsMembers(read)
    ensures var text := ItemOut(p, j, d);
            && out(j, true) == Prepend(text, out(PosixItem(p, j, d).value.1, true))
            && text != "" && text[0] != '-' && text[0] != '^'
            && forall rest, first :: ReadsItem(read, text, PosixItem(p, j, d).value.0, rest, first, p, j)
  {
    var n := NameLength(p, j + 2).value;
    ClassText(p, j, n, d, members);
    assert DoesNamed(out, p, j, n, members);
    ClassSpelled(p, j, n, d, members);
    var items := PosixItem(p, j, d).value.0;
    forall rest, first ensures ReadsItem(read, ItemOut(p, j, d), items, rest, first, p, j) {
      assert DoesSpelled(read, items, rest, first);
    }
  }

  lemma ClassSpelled(p: string, j: nat, n: nat, d: Dialect, members: string -> Option<string>)
    requires IsClassOpen(p, j) && PosixItem(p, j, d).Some? && SpellsClasses(members, d.classes)
    requires NameLength(p, j + 2) == Some(n)
    ensures var items := PosixItem(p, j, d).value.0;
            && AreSafe(items) && items != [] && Spelled(items) != "" && Spelled(items)[0] != '-'
            && Spelled(items)[0] != '^'
  {
    var name := p[j + 2..j + 2 + n];
    assert SpellsClass(members(name), d.classes(name), name);
  }

  lemma FromRange(out: Output, p: string, j: nat)
    requires 1 <= j < |p| && IsRange(p, j) && !IsClassOpen(p, j) && !IsClassOpen(p, j + 2)
    requires (forall k: nat :: DoesMember(out, p, k)) && (p[j] == ']' ==> IsFirst(p, j))
    ensures out(j, true) == Prepend(MemberOut(p[j]) + "-" + MemberOut(p[j + 2]), out(j + 3, true))
  {
    var low, high := MemberOut(p[j]), MemberOut(p[j + 2]);
    assert DoesMember(out, p, j) && DoesMember(out, p, j + 1) && DoesMember(out, p, j + 2);
    PrependTwice("-", high, out(j + 3, true));
    PrependTwice(low, "-" + high, out(j + 3, true));
    assert low + ("-" + high) == low + "-" + high;
  }

  ghost predicate AlwaysReads(read: Reader, text: string, items: seq<Item>, first: bool) {
    forall rest :: ReadsWhole(read, text, items, rest, first)
  }

  /** The members from `j` to the closing bracket, translated and read again. */
  lemma {:induction false} AllItems(
    out: Output, read: Reader, p: string, j: nat, first: bool, d: Dialect, members: string -> Option<string>)
    returns (text: string)
    requires 1 <= j <= |p| && PosixItems(p, j, first, d).Some? && SpellsClasses(members, d.classes)
    requires IsTranslator(out, p, d, members) && ReadsMembers(read) && (first ==> IsFirst(p, j))
    ensures var (items, end) := PosixItems(p, j, first, d).value;
            && out(j, true) == Prepend(text, out(end, IsFirst(p, end - 1)))
            && AlwaysReads(read, text, items, first)
    ensures text != "" && (text[0] == '-' || text[0] == '^' ==> p[j] == text[0])
    ensures p[j] == ']' && !first ==> text == "]"
    ensures p[j] == '-' && !first ==> j + 1 < |p| && (p[j + 1] == ']' ==> text == "-]")
    decreases |p| - j
  {
    var (items, end) := PosixItems(p, j, first, d).value;
    if p[j] == ']' && !first {
      assert DoesClose(out, p, j);
      text := "]";
    } else {
      var (these, next) := PosixItem(p, j, d).value;
      var those := PosixItems(p, next, false, d).value.0;
      var s := OneItem(out, read, p, j, d, members);
      var t := AllItems(out, read, p, next, false, d, members);
      text := s + t;
      assert "-" + "]" == "-]";
      PrependBoth(s, t, out(j, true), out(next, true), out(end, IsFirst(p, end - 1)));
      NotInRange(p, j, next, t, d);
      forall rest ensures ReadsWhole(read, text, items, rest, first) {
        assert ReadsItem(read, s, these, t + rest, first, p, j) && ReadsWhole(read, t, those, rest, false);
        ItemThenItems(read, s, these, t, those, rest, first, p, j);
      }
    }
  }

  lemma ItemThenItems(
    read: Reader, s: string, these: seq<Item>, t: string, those: seq<Item>, rest: string, first: bool, p: string,
    j: nat)
    requires j < |p| && (p[j] == ']' ==> first) && t != "" && (MayRange(p, j) || t[0] != '-' || t == "-]")
    requires ReadsItem(read, s, these, t + rest, first, p, j) && ReadsWhole(read, t, those, rest, false)
    ensures ReadsWhole(read, s + t, these + those, rest, first)
  {
    NoRangeAfter(t, rest);
    ReadOnward(read, s, these, t, those, rest, first);
  }

  lemma ReadOnward(
    read: Reader, text: string, items: seq<Item>, more: string, others: seq<Item>, rest: string, first: bool)
    requires ReadsBy(read, text, items, more + rest, first) && ReadsWhole(read, more, others, rest, false)
    ensures ReadsWhole(read, text + more, items + others, rest, first)
  {
    assert text + more + rest == text + (more + rest);
  }

  lemma NoRangeAfter(text: string, rest: string)
    requires text != ""
    ensures text[0] != '-' || text == "-]" ==> NoRange(text + rest)
  {
    assert (text + rest)[0] == text[0] && (|text| > 1 ==> (text + rest)[1] == text[1]);
  }

  /** Behind a class or a single member stands no `-` that would make a range of it. */
  lemma NotInRange(p: string, j: nat, next: nat, text: string, d: Dialect)
    requires j < |p| && PosixItem(p, j, d).Some? && next == PosixItem(p, j, d).value.1 < |p| && text != ""
    requires text[0] == '-' ==> p[next] == '-'
    requires p[next] == '-' ==> next + 1 < |p| && (p[next + 1] == ']' ==> text == "-]")
    ensures MayRange(p, j) || text[0] != '-' || text == "-]"
  {
  }

  // ---------------------------------------------------------------- with the opening bracket

  /** Whether the translator takes the closing bracket before `end` for a member. */
  predicate IsLate(p: string, end: nat) { 1 <= end && IsFirst(p, end - 1) }

  /**
   * A bracket expression becomes a text that Python reads as POSIX reads the expression, and the translator is behind
   * it afterwards unless it ends with `[` or `[^` before the closing bracket.
   */
  lemma BracketKeepsMeaning(
    out: Output, p: string, i: nat, within: bool, d: Dialect, members: string -> Option<string>) returns (text: string)
    requires IsBracket(p, i, d) && SpellsClasses(members, d.classes) && IsTranslator(out, p, d, members)
    requires within ==> i >= 1 && !IsClassOpen(p, i)
    ensures var (items, end) := Members(p, i, d).value;
            && out(i, within) == Prepend(text, out(end, IsLate(p, end)))
            && text != "" && text[0] == '['
            && forall rest :: PyToken(text + rest) == (OneOf(IsNegated(p, i), items), |text|)
  {
    var negated := IsNegated(p, i);
    var (items, end) := Members(p, i, d).value;
    var open, start := if negated then "[^" else "[", if negated then i + 2 else i + 1;
    var t := AllMembers(out, p, start, d, members);
    text := open + t;
    FromOpen(out, p, i, within, d, members);
    PrependBoth(open, t, out(i, within), out(start, true), out(end, IsLate(p, end)));
    ReadsOpened(t, items, negated);
  }

  lemma AllMembers(out: Output, p: string, start: nat, d: Dialect, members: string -> Option<string>)
    returns (text: string)
    requires 1 <= start <= |p| && PosixItems(p, start, true, d).Some? && IsFirst(p, start)
    requires SpellsClasses(members, d.classes) && IsTranslator(out, p, d, members)
    ensures var (items, end) := PosixItems(p, start, true, d).value;
            && out(start, true) == Prepend(text, out(end, IsLate(p, end)))
            && AlwaysReads(PyItems, text, items, true)
    ensures text != "" && (text[0] == '^' ==> p[start] == '^')
  {
    PythonReadsMembers();
    text := AllItems(out, PyItems, p, start, true, d, members);
  }

  lemma ReadsOpened(text: string, items: seq<Item>, negated: bool)
    requires text != "" && (!negated ==> text[0] != '^') && AlwaysReads(PyItems, text, items, true)
    ensures var out := (if negated then "[^" else "[") + text;
            forall rest :: PyToken(out + rest) == (OneOf(negated, items), |out|)
  {
    var out := (if negated then "[^" else "[") + text;
    forall rest ensures PyToken(out + rest) == (OneOf(negated, items), |out|) {
      assert ReadsWhole(PyItems, text, items, rest, true);
      ReadOpened(text, items, negated, rest);
    }
  }

  lemma FromOpen(out: Output, p: string, i: nat, within: bool, d: Dialect, members: string -> Option<string>)
    requires i + 1 < |p| && p[i] == '[' && (within ==> i >= 1 && !IsClassOpen(p, i)) && IsTranslator(out, p, d, members)
    ensures out(i, within) == if IsNegated(p, i) then Prepend("[^", out(i + 2, true))
            else Prepend("[", out(i + 1, true))
  {
    assert DoesMember(out, p, i) && DoesOpen(out, p, i);
    if IsNegated(p, i) {
      assert DoesMember(out, p, i + 1);
      PrependTwice("[", "^", out(i + 2, true));
      assert "[" + "^" == "[^";
    }
  }

  lemma ReadOpened(text: string, items: seq<Item>, negated: bool, rest: string)
    requires text != "" && PyItems(text + rest, true) == Some((items, |text|)) && (!negated ==> text[0] != '^')
    ensures var out := (if negated then "[^" else "[") + text;
            PyToken(out + rest) == (OneOf(negated, items), |out|)
  {
    var open := if negated then "[^" else "[";
    var s := open + text + rest;
    Opened(open, text, rest);
    OpensBracket(s);
    BracketIs(s, |open|, items, |text|);
  }

  lemma Opened(open: string, text: string, rest: string)
    ensures var s := open + text + rest;
            && s[|open|..] == text + rest && (forall k :: 0 <= k < |open| ==> s[k] == open[k])
            && (text != "" ==> s[|open|] == text[0])
  {
  }

  lemma OpensBracket(s: string)
    requires |s| > 1 && s[0] == '['
    ensures PyToken(s) == PyBracketFrom(s, if s[1] == '^' then 2 else 1)
  {
  }

  lemma BracketIs(s: string, start: nat, items: seq<Item>, n: nat)
    requires 1 <= start <= |s| && PyItems(s[start..], true) == Some((items, n))
    ensures PyBracketFrom(s, start) == (OneOf(start == 2, items), start + n)
  {
    var r := PyItems(s[start..], true);
    assert PyBracketFrom(s, start) == OneOfItems(r, start);
    ItemsGiven(r, start, items, n);
  }

  lemma ItemsGiven(r: Option<(seq<Item>, nat)>, start: nat, items: seq<Item>, n: nat)
    requires r == Some((items, n))
    ensures OneOfItems(r, start) == (OneOf(start == 2, items), start + n)
  {
  }
}
