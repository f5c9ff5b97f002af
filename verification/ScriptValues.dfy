/** What the analysis knows of a value against the value in a run, and which operations keep it right. */
module ScriptValues {
  import opened Results
  import opened Texts
  import opened ScriptWrites
  import opened ScriptRun

  /**
   * How well a followed text is known: it is the text of the run; it only names the same place, as `os.getcwd()` does
   * for `.`; or it stands for a temporary file or directory object.
   */
  datatype Level = Exact | Place | Object(kind: Temporary)

  predicate IsMarked(v: string) { StartsWith(v, TEMPORARY) }

  /** What follows the marker. */
  function Beyond(v: string): string { if |v| < |TEMPORARY| then "" else v[|TEMPORARY|..] }

  /** The text `v` stands for when its temporary directory is the one made at `under`. */
  function Base(v: string, under: Option<Position>, w: World): string {
    if under.None? then v else w.temp(under.value) + Beyond(v)
  }

  predicate IsTagged(v: string, under: Option<Position>) {
    if under.None? then IsPlain(v) else IsMarked(v) && IsPlain(Beyond(v))
  }

  predicate IsExact(v: string, r: RunValue, w: World) {
    r.Text? && IsTagged(v, r.under) && r.text == Base(v, r.under, w)
  }

  predicate IsRelative(s: string) { s == "" || s[0] != '/' }

  predicate EndsOpen(s: string) { s != "" && s[|s| - 1] != '/' }

  predicate SameFile(t: string, at: Position, base: string, w: World) { w.file(t, at) == w.file(base, START) }

  predicate SameJoined(t: string, at: Position, base: string, s: string, w: World) {
    SameFile(PathJoin(t, s), at, PathJoin(base, s), w)
  }

  /** At any time `t` names the file that `base` named at the start, and so does anything joined to it. */
  ghost predicate IsPlace(base: string, t: string, w: World) {
    && base != "" && t != "" && (EndsOpen(base) ==> EndsOpen(t))
    && (forall at :: SameFile(t, at, base, w))
    && (forall at, s :: IsRelative(s) ==> SameJoined(t, at, base, s, w))
  }

  ghost predicate Names(v: string, g: Level, r: RunValue, w: World) {
    match g
    case Exact => IsExact(v, r, w)
    case Place => r.Text? && IsTagged(v, r.under) && IsPlace(Base(v, r.under, w), r.text, w)
    case Object(kind) => v == TEMPORARY && r.Handle? && r.kind == kind
  }

  /** What the analysis knows of a value, if anything, is right. */
  ghost predicate IsKnown(v: Values, g: Level, r: RunValue, w: World) {
    v.Some? ==> |v.value| == 1 && Names(v.value[0], g, r, w)
  }

  // ---------------------------------------------------------------- the marker

  lemma MarkerIsNotPlain()
    ensures |TEMPORARY| == 10 && TEMPORARY[0] == '\0'
    ensures forall i :: 0 < i < |TEMPORARY| ==> TEMPORARY[i] != '\0' && TEMPORARY[i] != '/'
  {
  }

  lemma MarkedIsNotPlain(b: string)
    requires IsMarked(b)
    ensures !IsPlain(b) && b[0] == '\0' && b == TEMPORARY + Beyond(b) && |b| >= 10
  {
    MarkerIsNotPlain();
    assert b[0] == b[..|TEMPORARY|][0];
    assert b[0] in b;
  }

  lemma MarkerHasOneNul(s: string, at: nat)
    requires IsMarked(s) && 0 < at < |s| && s[at] == '\0'
    ensures at >= |TEMPORARY|
  {
    MarkerIsNotPlain();
    forall i | 0 < i < |TEMPORARY| ensures s[i] != '\0' {
      assert s[i] == s[..|TEMPORARY|][i];
    }
  }

  /** A text and what stands for it end alike. */
  lemma SameLastChar(v: string, under: Option<Position>, w: World)
    requires IsTagged(v, under) && IsReal(w)
    ensures v != "" ==> Base(v, under, w) != "" && (EndsOpen(v) <==> EndsOpen(Base(v, under, w)))
    ensures under.Some? ==> v != "" && Base(v, under, w)[0] == '/'
  {
    if under.Some? {
      var d := w.temp(under.value);
      assert IsDirectoryName(d);
      MarkedIsNotPlain(v);
      MarkerIsNotPlain();
      var more := Beyond(v);
      if more == "" {
        assert v == TEMPORARY && d + more == d;
      } else {
        assert v[|v| - 1] == more[|more| - 1] && (d + more)[|d + more| - 1] == more[|more| - 1];
      }
    }
  }

  /** Plain text behind `v` is plain text behind what it stands for. */
  lemma BaseExtends(v: string, under: Option<Position>, more: string, w: World)
    requires IsTagged(v, under) && IsPlain(more)
    ensures IsTagged(v + more, under) && Base(v + more, under, w) == Base(v, under, w) + more
  {
    if under.Some? {
      assert (v + more)[..|TEMPORARY|] == v[..|TEMPORARY|];
      assert Beyond(v + more) == Beyond(v) + more;
      assert w.temp(under.value) + (Beyond(v) + more) == w.temp(under.value) + Beyond(v) + more;
    }
  }

  // ---------------------------------------------------------------- putting texts together

  /** Gluing keeps texts exact, unless a temporary path is appended to something: exactly then. */
  lemma GlueNames(a: string, b: string, ra: RunValue, rb: RunValue, slash: bool, w: World)
    requires IsExact(a, ra, w) && IsExact(b, rb, w) && IsReal(w)
    ensures IsExact(Glue(a, b, slash), RunGlue(ra, rb, slash), w) <==> a == "" || IsPlain(b)
  {
    if rb.under.None? {
      GlueExact(a, b, ra, rb, slash, w);
    } else {
      MarkedIsNotPlain(b);
      SameLastChar(b, rb.under, w);
      if a == "" { GlueToNothing(b, ra, rb, slash, w); } else { TemporaryAppended(a, b, ra, rb, slash, w); }
    }
  }

  lemma GlueToNothing(b: string, ra: RunValue, rb: RunValue, slash: bool, w: World)
    requires IsExact("", ra, w) && rb.Text?
    ensures Glue("", b, slash) == b && RunGlue(ra, rb, slash) == rb
  {
    if ra.under.Some? { MarkedIsNotPlain(""); }
  }

  /** What is put behind a text that is not empty: the operand, with a slash where one is needed. */
  function Tail(
    a: string, b: string, slash: bool): string { if slash && !(a == "" || a[|a| - 1] == '/') then "/" + b else b }

  lemma GlueIsTail(a: string, b: string, slash: bool)
    ensures slash && !IsRelative(b) ==> Glue(a, b, slash) == b
    ensures !(slash && !IsRelative(b)) ==> Glue(a, b, slash) == a + Tail(a, b, slash)
  {
  }

  lemma GlueExact(a: string, b: string, ra: RunValue, rb: RunValue, slash: bool, w: World)
    requires IsExact(a, ra, w) && IsExact(b, rb, w) && rb.under.None? && IsReal(w)
    ensures IsExact(Glue(a, b, slash), RunGlue(ra, rb, slash), w)
  {
    if a == "" {
      GlueToNothing(b, ra, rb, slash, w);
    } else if !(slash && !IsRelative(b)) {
      SameLastChar(a, ra.under, w);
      GlueIsTail(a, b, slash);
      GlueIsTail(ra.text, b, slash);
      BaseExtends(a, ra.under, Tail(a, b, slash), w);
    }
  }

  lemma TemporaryAppended(a: string, b: string, ra: RunValue, rb: RunValue, slash: bool, w: World)
    requires IsExact(a, ra, w) && IsExact(b, rb, w) && IsMarked(b) && a != "" && IsReal(w)
    ensures !IsExact(Glue(a, b, slash), RunGlue(ra, rb, slash), w)
  {
    MarkerIsNotPlain();
    MarkedIsNotPlain(b);
    var glued := Glue(a, b, slash);
    var at := |glued| - |b|;
    assert glued[at..] == b && at > 0 && glued[at] == '\0' && glued[at] in glued;
    if IsMarked(glued) {
      MarkerHasOneNul(glued, at);
      assert Beyond(glued)[at - |TEMPORARY|] == '\0';
    }
  }

  // ---------------------------------------------------------------- places

  lemma JoinTwice(a: string, b: string, s: string)
    requires a != "" && IsRelative(b) && IsRelative(s)
    ensures PathJoin(PathJoin(a, b), s) == PathJoin(a, PathJoin(b, s)) && IsRelative(PathJoin(b, s))
  {
    JoinedEnd(a, b);
    if b == "" {
      JoinToSlash(a, s);
    } else {
      var more := if EndsOpen(b) then "/" + s else s;
      JoinIsBehind(b, s, more);
      JoinIsBehind(PathJoin(a, b), s, more);
      Behind(a, b, more);
    }
  }

  lemma JoinToSlash(a: string, s: string)
    requires a != "" && IsRelative(s)
    ensures PathJoin(PathJoin(a, ""), s) == PathJoin(a, s) && PathJoin("", s) == s
  {
    JoinedEnd(a, "");
    assert a + "" == a && a + "/" + "" == a + "/";
  }

  lemma JoinIsBehind(b: string, s: string, more: string)
    requires b != "" && IsRelative(s) && more == if EndsOpen(b) then "/" + s else s
    ensures PathJoin(b, s) == b + more
  {
  }

  /** What is behind the second part of a join is behind the join. */
  lemma Behind(a: string, b: string, s: string)
    requires a != "" && b != "" && IsRelative(b)
    ensures PathJoin(a, b + s) == PathJoin(a, b) + s
  {
    if EndsOpen(a) { assert a + "/" + (b + s) == a + "/" + b + s; } else { assert a + (b + s) == a + b + s; }
  }

  /** Whatever relative path is joined to a place, the result is one. */
  lemma JoinToPlace(base: string, t: string, b: string, w: World)
    requires IsPlace(base, t, w) && IsRelative(b)
    ensures IsPlace(PathJoin(base, b), PathJoin(t, b), w)
  {
    var base', t' := PathJoin(base, b), PathJoin(t, b);
    forall at ensures SameFile(t', at, base', w) { assert SameJoined(t, at, base, b, w); }
    forall at, s | IsRelative(s) ensures SameJoined(t', at, base', s, w) {
      JoinTwice(base, b, s);
      JoinTwice(t, b, s);
      assert SameJoined(t, at, base, PathJoin(b, s), w);
    }
    JoinedEnd(base, b);
    JoinedEnd(t, b);
  }

  lemma JoinedEnd(a: string, b: string)
    requires a != "" && IsRelative(b)
    ensures PathJoin(a, b) != "" && (EndsOpen(PathJoin(a, b)) <==> EndsOpen(b))
  {
    var ab := PathJoin(a, b);
    if b != "" { assert ab[|ab| - 1] == b[|b| - 1]; } else { assert ab[|ab| - 1] == '/'; }
  }

  /** A plain text that may follow a place: joined, or added when it starts with the slash. */
  predicate Extends(a: string, b: string, slash: bool) {
    if slash then IsRelative(b) else b == "" || (b[0] == '/' && IsRelative(b[1..]) && EndsOpen(a))
  }

  lemma GluePlace(a: string, b: string, ra: RunValue, rb: RunValue, slash: bool, w: World)
    requires Names(a, Place, ra, w) && IsExact(b, rb, w) && IsPlain(b) && Extends(a, b, slash) && IsReal(w)
    ensures Names(Glue(a, b, slash), Place, RunGlue(ra, rb, slash), w)
  {
    PlainIsUntagged(b, rb, w);
    PlaceIsSomething(a, ra, w);
    SameLastChar(a, ra.under, w);
    if slash || b != "" {
      var relative := if slash then b else b[1..];
      JoinToPlace(Base(a, ra.under, w), ra.text, relative, w);
      GlueIsJoin(a, b, relative, slash);
      GlueIsJoin(ra.text, b, relative, slash);
      GlueIsJoin(Base(a, ra.under, w), b, relative, slash);
      GlueIsTail(a, b, slash);
      SameTail(a, Base(a, ra.under, w), b, slash);
      BaseExtends(a, ra.under, Tail(a, b, slash), w);
      GlueIsTail(Base(a, ra.under, w), b, slash);
    } else {
      assert Glue(a, b, slash) == a && ra.text + b == ra.text;
    }
  }

  lemma PlainIsUntagged(b: string, rb: RunValue, w: World)
    requires IsExact(b, rb, w) && IsPlain(b)
    ensures rb == Text(b, None)
  {
    if rb.under.Some? { MarkedIsNotPlain(b); }
  }

  lemma PlaceIsSomething(a: string, ra: RunValue, w: World)
    requires Names(a, Place, ra, w)
    ensures a != "" && ra.text != ""
  {
    if a == "" && ra.under.Some? { MarkedIsNotPlain(a); }
  }

  lemma SameTail(a: string, base: string, b: string, slash: bool)
    requires a != "" && base != "" && (EndsOpen(a) <==> EndsOpen(base))
    ensures Tail(a, b, slash) == Tail(base, b, slash) && (IsPlain(b) ==> IsPlain(Tail(a, b, slash)))
  {
  }

  lemma GlueIsJoin(a: string, b: string, relative: string, slash: bool)
    requires a != "" && IsRelative(relative)
    requires if slash then relative == b else EndsOpen(a) && b == "/" + relative
    ensures Glue(a, b, slash) == PathJoin(a, relative)
  {
    if !slash { assert a + b == a + "/" + relative; }
  }

  /** How well the text is known that results from putting `b` behind `a`, if the analysis is right about it at all. */
  function NextLevel(a: string, known: Level, b: string, g: Level, slash: bool): Option<Level> {
    if g.Object? || known.Object? then None
    else if a == "" then if known.Exact? then Some(g) else None
    else if !g.Exact? || !IsPlain(b) then None
    else if known.Exact? || (slash && !IsRelative(b)) then Some(Exact)
    else if Extends(a, b, slash) then Some(Place)
    else None
  }

  lemma GlueKnown(a: string, known: Level, b: string, g: Level, ra: RunValue, rb: RunValue, slash: bool, w: World)
    requires Names(a, known, ra, w) && Names(b, g, rb, w) && IsReal(w) && NextLevel(a, known, b, g, slash).Some?
    ensures ra.Text? && rb.Text?
    ensures Names(Glue(a, b, slash), NextLevel(a, known, b, g, slash).value, RunGlue(ra, rb, slash), w)
  {
    if a == "" {
      GlueToNothing(b, ra, rb, slash, w);
    } else if known.Exact? {
      GlueNames(a, b, ra, rb, slash, w);
    } else if slash && !IsRelative(b) {
      PlainIsUntagged(b, rb, w);
      GlueIsTail(a, b, slash);
    } else {
      GluePlace(a, b, ra, rb, slash, w);
    }
  }

  // ---------------------------------------------------------------- path calls

  /** The call returns the text it is given, whatever temporary directory that starts with. */
  ghost predicate IsFixed(call: string, v: string, w: World) {
    forall under, at :: IsTagged(v, under) ==> IsFixedAt(call, Base(v, under, w), at, w)
  }

  predicate IsFixedAt(call: string, text: string, at: Position, w: World) { w.call(call, text, at) == text }

  /** The call returns another text for the same place. */
  ghost predicate KeepsPlace(call: string, v: string, w: World) {
    forall under, at, t :: IsTagged(v, under) && (t == Base(v, under, w) || IsPlace(Base(v, under, w), t, w)) ==>
      IsPlace(Base(v, under, w), w.call(call, t, at), w)
  }

  ghost function CalledLevel(call: string, v: string, g: Level, w: World): Option<Level> {
    if g.Object? then None
    else if g.Exact? && IsFixed(call, v, w) then Some(Exact)
    else if KeepsPlace(call, v, w) then Some(Place)
    else None
  }

  lemma CallKnown(call: string, v: string, g: Level, r: RunValue, w: World, at: Position)
    requires Names(v, g, r, w) && CalledLevel(call, v, g, w).Some?
    ensures Names(v, CalledLevel(call, v, g, w).value, Called(call, r, w, at), w)
  {
    var base := Base(v, r.under, w);
    if g.Exact? && IsFixed(call, v, w) {
      assert IsFixedAt(call, base, at, w);
    } else {
      assert r.text == base || IsPlace(base, r.text, w);
    }
  }

  /** A call keeps a text exact if and only if it returns that text. */
  lemma CallNames(call: string, v: string, r: RunValue, w: World, at: Position)
    requires IsExact(v, r, w)
    ensures IsExact(v, Called(call, r, w, at), w) <==> w.call(call, r.text, at) == r.text
  {
  }

  /**
   * `.name` of what stands for a temporary directory is right if and only if it is a temporary file or directory
   * object.
   */
  lemma NameNames(g: Level, r: RunValue, w: World, at: Position)
    requires Names(TEMPORARY, g, r, w)
    ensures IsExact(TEMPORARY, NameOfValue(r, w, at), w) <==>
            g == Object(TemporaryDirectory) || g == Object(NamedTemporaryFile)
  {
    MarkedIsNotPlain(TEMPORARY);
    if r.Handle? && HasName(r.kind) {
      assert Beyond(TEMPORARY) == "" && w.temp(r.made) + "" == w.temp(r.made);
    }
  }

  // ---------------------------------------------------------------- files

  /** A known path names the same file all along. */
  ghost predicate IsSteady(v: string, w: World) {
    forall under, at :: IsTagged(v, under) ==> SameFile(Base(v, under, w), at, Base(v, under, w), w)
  }

  /**
   * What is recorded for a known path is right: nothing for what is below a temporary directory, and otherwise a path
   * whose normal form names the same file, which is not temporary.
   */
  ghost predicate IsRecordedRight(v: string, w: World, norm: string -> string) {
    if IsMarked(v) then IsBelow(Beyond(v))
    else SameFile(norm(v), START, v, w) && !w.isTemporary(w.file(v, START))
  }

  /** Below a temporary directory, in every run, is exactly what goes down from its name. */
  lemma BelowIsTemporary(more: string)
    ensures (forall w, at :: IsReal(w) ==> w.isTemporary(w.file(w.temp(at) + more, START))) <==> IsBelow(more)
  {
    if forall w, at :: IsReal(w) ==> w.isTemporary(w.file(w.temp(at) + more, START)) {
      var w := OneDirectory();
      OneDirectoryIsReal(w);
      assert w.isTemporary(w.file(w.temp(START) + more, START));
      assert ("/t" + more)[2..] == more;
    }
  }

  /** A run in which texts are the files they name and there is one temporary directory, `/t`. */
  function OneDirectory(): World {
    World(_ => "", _ => false, _ => "/t", _ => "/", (_, t, _) => t, (t, _) => t, f => |f| >= 2 && f[..2] == "/t"
        && IsBelow(f[2..]))
  }

  lemma OneDirectoryIsReal(w: World)
    requires w == OneDirectory()
    ensures IsReal(w)
  {
    forall at, more | IsBelow(more) ensures w.isTemporary(w.file(w.temp(at) + more, START)) {
      assert ("/t" + more)[..2] == "/t" && ("/t" + more)[2..] == more;
    }
  }
}
