/** The inverted shingle index over benchmark tasks: `Index` of `scripts/benchmark_leaks.py`. */
module LeakIndex {

  const TEXT_MIN_SHINGLES := 20
  const TEXT_FLOOR_SHINGLES := 8
  const TEXT_MAX_GROUP_DF := 2

  /** A benchmark and a task of it. */
  type Ref = (string, string)

  /** A task with its normalised text and the group it shares text with, each empty when absent. */
  datatype Task = Task(ref: Ref, text: string, group: string)

  /** Tasks count once for each group, and a task without a group for itself. */
  datatype GroupKey = Named(group: string) | Own(ref: Ref)

  /** A reported task, the number of its kept shingles found in the text, and of all of them. */
  datatype Hit = Hit(ref: Ref, shared: nat, size: nat)

  type Shingles = string -> set<string>

  function KeyOf(t: Task): GroupKey { if t.group == "" then Own(t.ref) else Named(t.group) }

  // ---------------------------------------------------------------- brute force

  predicate HasDistinctRefs(tasks: seq<Task>) {
    forall i, j :: 0 <= i < j < |tasks| ==> tasks[i].ref != tasks[j].ref
  }

  /** The shingles of a task; one without text has none. */
  function Of(t: Task, shingles: Shingles): set<string> { if t.text == "" then {} else shingles(t.text) }

  /** The groups whose tasks have a shingle. */
  function GroupsOf(tasks: seq<Task>, s: string, shingles: Shingles): set<GroupKey> {
    set i | 0 <= i < |tasks| && s in Of(tasks[i], shingles) :: KeyOf(tasks[i])
  }

  /** The shingles of a task that at most two groups share. */
  function Kept(tasks: seq<Task>, t: Task, shingles: Shingles): set<string> {
    set s | s in Of(t, shingles) && |GroupsOf(tasks, s, shingles)| <= TEXT_MAX_GROUP_DF
  }

  function Smaller(a: real, b: real): real { if a < b then a else b }

  function Larger(a: real, b: real): real { if a > b then a else b }

  /** The threshold: enough shingles, and at least half of the task's. */
  predicate Passes(shared: nat, size: nat) {
    && size > 0
    && shared as real >= Larger(TEXT_FLOOR_SHINGLES as real, Smaller(TEXT_MIN_SHINGLES as real, 0.8 * size as real))
    && shared as real / size as real >= 0.5
  }

  /** The threshold without fractions: eight shingles, half of the task's, and twenty or four in five of them. */
  lemma PassesInWholes(shared: nat, size: nat)
    ensures Passes(shared, size) <==>
              size > 0 && shared >= 8 && 2 * shared >= size && (shared >= 20 || 5 * shared >= 4 * size)
  {
    if size > 0 {
      var n, d := shared as real, size as real;
      assert n / d >= 0.5 <==> n >= 0.5 * d by {
        assert n == n / d * d;
        if n / d >= 0.5 { assert (n / d - 0.5) * d >= 0.0; } else { assert (0.5 - n / d) * d > 0.0; }
      }
    }
  }

  /** What a comparison of the text with every task in turn reports. */
  ghost predicate IsReported(h: Hit, tasks: seq<Task>, text: string, shingles: Shingles) {
    exists i :: 0 <= i < |tasks| && text != "" && h == BruteForce(tasks, tasks[i], text, shingles)
        && Passes(h.shared, h.size)
  }

  function BruteForce(tasks: seq<Task>, t: Task, text: string, shingles: Shingles): Hit {
    Hit(t.ref, |Kept(tasks, t, shingles) * shingles(text)|, |Kept(tasks, t, shingles)|)
  }

  // ---------------------------------------------------------------- the index

  /** The lists of the index hold each of the first `n` tasks once under each of its kept shingles, and its size. */
  ghost predicate IsIndex(
    tasks: seq<Task>, n: nat, byShingle: map<string, seq<Ref>>, sizes: map<Ref, nat>, shingles: Shingles)
    requires n <= |tasks|
  {
    && (forall s :: IsList(tasks, n, RefsAt(byShingle, s), s, shingles))
    && (forall i :: 0 <= i < n && Kept(tasks, tasks[i], shingles) != {} ==>
          tasks[i].ref in sizes && sizes[tasks[i].ref] == |Kept(tasks, tasks[i], shingles)|)
  }

  /** The list under one shingle. */
  ghost predicate IsList(tasks: seq<Task>, n: nat, refs: seq<Ref>, s: string, shingles: Shingles)
    requires n <= |tasks|
  {
    && (forall k, l :: 0 <= k < l < |refs| ==> refs[k] != refs[l])
    && (forall r :: r in refs ==> IsUnder(r, s, tasks, n, shingles))
    && (forall i :: 0 <= i < n && s in Kept(tasks, tasks[i], shingles) ==> tasks[i].ref in refs)
  }

  ghost predicate IsUnder(r: Ref, s: string, tasks: seq<Task>, n: nat, shingles: Shingles)
    requires n <= |tasks|
  {
    exists i :: 0 <= i < n && tasks[i].ref == r && s in Kept(tasks, tasks[i], shingles)
  }

  /** The groups of each shingle, of the first `n` tasks. */
  ghost predicate IsCount(tasks: seq<Task>, n: nat, groups: map<string, set<GroupKey>>, shingles: Shingles)
    requires n <= |tasks|
  {
    forall s :: GroupsAt(groups, s) == GroupsOf(tasks[..n], s, shingles)
  }

  function GroupsAt(groups: map<string, set<GroupKey>>, s: string): set<GroupKey> {
    if s in groups then groups[s] else {}
  }

  function RefsAt(byShingle: map<string, seq<Ref>>, s: string): seq<Ref> {
    if s in byShingle then byShingle[s] else []
  }

  lemma OneTaskMore(tasks: seq<Task>, n: nat, s: string, shingles: Shingles)
    requires n < |tasks|
    ensures GroupsOf(tasks[..n + 1], s, shingles)
         == GroupsOf(tasks[..n], s, shingles) + if s in Of(tasks[n], shingles) then {KeyOf(tasks[n])} else {}
  {
    var more := tasks[..n + 1];
    assert forall i :: 0 <= i < n ==> more[i] == tasks[..n][i];
    assert more[n] == tasks[n];
  }

  /** The lists after one task more. */
  ghost predicate IsExtended(before: map<string, seq<Ref>>, after: map<string, seq<Ref>>, r: Ref, kept: set<string>) {
    forall s :: RefsAt(after, s) == RefsAt(before, s) + if s in kept then [r] else []
  }

  lemma ExtendOne(before: map<string, seq<Ref>>, now: map<string, seq<Ref>>, s: string, r: Ref, done: set<string>)
    requires IsExtended(before, now, r, done) && s !in done
    ensures IsExtended(before, now[s := RefsAt(now, s) + [r]], r, done + {s})
  {
    var next := now[s := RefsAt(now, s) + [r]];
    forall x ensures RefsAt(next, x) == RefsAt(before, x) + if x in done + {s} then [r] else [] {
      assert RefsAt(now, x) == RefsAt(before, x) + if x in done then [r] else [];
      if x == s { assert RefsAt(before, s) + [] == RefsAt(before, s); }
    }
  }

  lemma IndexGrows(
    tasks: seq<Task>, n: nat, before: map<string, seq<Ref>>, after: map<string, seq<Ref>>,
    sizes: map<Ref, nat>, sizesAfter: map<Ref, nat>, shingles: Shingles)
    requires HasDistinctRefs(tasks) && n < |tasks| && IsIndex(tasks, n, before, sizes, shingles)
    requires IsExtended(before, after, tasks[n].ref, Kept(tasks, tasks[n], shingles))
    requires var kept := Kept(tasks, tasks[n], shingles);
             sizesAfter == if kept == {} then sizes else sizes[tasks[n].ref := |kept|]
    ensures IsIndex(tasks, n + 1, after, sizesAfter, shingles)
  {
    forall s ensures IsList(tasks, n + 1, RefsAt(after, s), s, shingles) {
      ListGrows(tasks, n, RefsAt(before, s), RefsAt(after, s), s, shingles);
    }
    SizesGrow(tasks, n, before, sizes, sizesAfter, shingles);
  }

  lemma SizesGrow(
    tasks: seq<Task>, n: nat, before: map<string, seq<Ref>>, sizes: map<Ref, nat>, sizesAfter: map<Ref, nat>,
    shingles: Shingles)
    requires HasDistinctRefs(tasks) && n < |tasks| && IsIndex(tasks, n, before, sizes, shingles)
    requires var kept := Kept(tasks, tasks[n], shingles);
             sizesAfter == if kept == {} then sizes else sizes[tasks[n].ref := |kept|]
    ensures forall i :: 0 <= i < n + 1 && Kept(tasks, tasks[i], shingles) != {} ==>
              tasks[i].ref in sizesAfter && sizesAfter[tasks[i].ref] == |Kept(tasks, tasks[i], shingles)|
  {
  }

  lemma ListGrows(tasks: seq<Task>, n: nat, before: seq<Ref>, after: seq<Ref>, s: string, shingles: Shingles)
    requires HasDistinctRefs(tasks) && n < |tasks| && IsList(tasks, n, before, s, shingles)
    requires after == before + if s in Kept(tasks, tasks[n], shingles) then [tasks[n].ref] else []
    ensures IsList(tasks, n + 1, after, s, shingles)
  {
    forall x | x in after ensures IsUnder(x, s, tasks, n + 1, shingles) {
      if x in before {
        assert IsUnder(x, s, tasks, n, shingles);
        var i :| 0 <= i < n && tasks[i].ref == x && s in Kept(tasks, tasks[i], shingles);
      } else {
        assert x == tasks[n].ref;
      }
    }
    forall k | 0 <= k < |before| ensures before[k] != tasks[n].ref {
      assert IsUnder(before[k], s, tasks, n, shingles);
    }
  }

  class Index {
    const tasks: seq<Task>
    const shingles: Shingles
    var byShingle: map<string, seq<Ref>>
    var textSize: map<Ref, nat>

    ghost predicate Valid()
      reads this
    {
      HasDistinctRefs(tasks) && IsIndex(tasks, |tasks|, byShingle, textSize, shingles)
    }

    constructor (tasks: seq<Task>, shingles: Shingles)
      requires HasDistinctRefs(tasks)
      ensures Valid() && this.tasks == tasks && this.shingles == shingles
    {
      this.tasks, this.shingles := tasks, shingles;
      byShingle, textSize := map[], map[];
      new;
      var groups := CountGroups(tasks, shingles);
      assert tasks[..|tasks|] == tasks;
      for i := 0 to |tasks|
        invariant IsIndex(tasks, i, byShingle, textSize, shingles)
        invariant this.tasks == tasks && this.shingles == shingles
      {
        AddTask(i, groups);
      }
    }

    /** The second loop's body: a task's shingles that few enough groups share are kept. */
    method AddTask(i: nat, groups: map<string, set<GroupKey>>)
      requires HasDistinctRefs(tasks) && i < |tasks| && IsIndex(tasks, i, byShingle, textSize, shingles)
      requires forall s :: GroupsAt(groups, s) == GroupsOf(tasks, s, shingles)
      modifies this`byShingle, this`textSize
      ensures IsIndex(tasks, i + 1, byShingle, textSize, shingles)
    {
      var t := tasks[i];
      var kept := set s | s in Of(t, shingles) && |GroupsAt(groups, s)| <= TEXT_MAX_GROUP_DF;
      assert kept == Kept(tasks, t, shingles);
      ghost var before, sizes := byShingle, textSize;
      if kept != {} {
        textSize := textSize[t.ref := |kept|];
        AddRef(i, kept);
      }
      IndexGrows(tasks, i, before, byShingle, sizes, textSize, shingles);
    }

    method AddRef(i: nat, kept: set<string>)
      requires HasDistinctRefs(tasks) && i < |tasks| && kept == Kept(tasks, tasks[i], shingles)
      modifies this`byShingle
      ensures IsExtended(old(byShingle), byShingle, tasks[i].ref, kept)
    {
      var left := kept;
      while left != {}
        invariant left <= kept
        invariant IsExtended(old(byShingle), byShingle, tasks[i].ref, kept - left)
        decreases left
      {
        var s :| s in left;
        ExtendOne(old(byShingle), byShingle, s, tasks[i].ref, kept - left);
        assert kept - (left - {s}) == kept - left + {s};
        left := left - {s};
        byShingle := byShingle[s := RefsAt(byShingle, s) + [tasks[i].ref]];
      }
    }

    method Tally(found: set<string>) returns (counts: map<Ref, nat>)
      requires Valid()
      ensures IsTally(byShingle, found, counts)
    {
      counts := map[];
      var left := found;
      while left != {}
        invariant left <= found && IsTally(byShingle, found - left, counts)
        decreases left
      {
        var s :| s in left;
        ghost var done := found - left;
        assert IsList(tasks, |tasks|, RefsAt(byShingle, s), s, shingles);
        forall r ensures |Common(byShingle, done + {s}, r)| == |Common(byShingle, done, r)|
            + if r in RefsAt(byShingle, s) then 1 else 0 {
          CommonOneMore(byShingle, done, s, r);
        }
        counts := CountRefs(RefsAt(byShingle, s), counts);
        left := left - {s};
        assert found - left == done + {s};
      }
      assert found - left == found;
    }

    /** The index reports exactly what comparing the text with every task would. */
    method MatchText(text: string) returns (hits: seq<Hit>)
      requires Valid()
      ensures forall h :: h in hits <==> IsReported(h, tasks, text, shingles)
      ensures forall i, j :: 0 <= i < j < |hits| ==> hits[i].ref != hits[j].ref
    {
      hits := [];
      if text == "" { return; }
      if byShingle == map[] {
        forall h ensures !IsReported(h, tasks, text, shingles) { NothingIndexed(tasks, textSize, text, h, shingles); }
        return;
      }
      var counts := Tally(shingles(text));
      var left := counts.Keys;
      while left != {}
        invariant left <= counts.Keys
        invariant forall h :: h in hits <==> IsReported(h, tasks, text, shingles) && h.ref in counts.Keys - left
        invariant forall i, j :: 0 <= i < j < |hits| ==> hits[i].ref != hits[j].ref
        decreases left
      {
        var r :| r in left;
        CountedHit(tasks, byShingle, textSize, counts, text, r, shingles);
        var h := Hit(r, counts[r], textSize[r]);
        left := left - {r};
        if Passes(h.shared, h.size) {
          hits := hits + [h];
        }
      }
      forall h | IsReported(h, tasks, text, shingles) ensures h.ref in counts {
        ReportedIsCounted(tasks, byShingle, textSize, text, counts, h, shingles);
      }
    }
  }

  // ---------------------------------------------------------------- matching

  /** The shingles among `done` that the index lists a task under. */
  ghost function Common(byShingle: map<string, seq<Ref>>, done: set<string>, r: Ref): set<string> {
    set s | s in done && r in RefsAt(byShingle, s)
  }

  function CountAt(counts: map<Ref, nat>, r: Ref): nat { if r in counts then counts[r] else 0 }

  lemma CommonOfTask(tasks: seq<Task>, byShingle: map<string, seq<Ref>>, sizes: map<Ref, nat>, i: nat,
      found: set<string>, shingles: Shingles)
    requires HasDistinctRefs(tasks) && i < |tasks| && IsIndex(tasks, |tasks|, byShingle, sizes, shingles)
    ensures Common(byShingle, found, tasks[i].ref) == Kept(tasks, tasks[i], shingles) * found
  {
    forall s | s in found ensures tasks[i].ref in RefsAt(byShingle, s) <==> s in Kept(tasks, tasks[i], shingles) {
      ListedWhenKept(tasks, i, RefsAt(byShingle, s), s, shingles);
    }
  }

  lemma ListedWhenKept(tasks: seq<Task>, i: nat, refs: seq<Ref>, s: string, shingles: Shingles)
    requires HasDistinctRefs(tasks) && i < |tasks| && IsList(tasks, |tasks|, refs, s, shingles)
    ensures tasks[i].ref in refs <==> s in Kept(tasks, tasks[i], shingles)
  {
    if tasks[i].ref in refs { assert IsUnder(tasks[i].ref, s, tasks, |tasks|, shingles); }
  }

  /** A counted reference is a task of the index. */
  lemma CountedIsTask(tasks: seq<Task>, byShingle: map<string, seq<Ref>>, sizes: map<Ref, nat>, found: set<string>,
      r: Ref, shingles: Shingles)
    returns (i: nat)
    requires IsIndex(tasks, |tasks|, byShingle, sizes, shingles) && Common(byShingle, found, r) != {}
    ensures i < |tasks| && tasks[i].ref == r && Kept(tasks, tasks[i], shingles) != {}
  {
    var s :| s in Common(byShingle, found, r);
    assert IsList(tasks, |tasks|, RefsAt(byShingle, s), s, shingles);
    assert IsUnder(r, s, tasks, |tasks|, shingles);
    i :| 0 <= i < |tasks| && tasks[i].ref == r && s in Kept(tasks, tasks[i], shingles);
  }

  /** Each reference with the number of shingles it is listed under. */
  ghost predicate IsTally(byShingle: map<string, seq<Ref>>, done: set<string>, counts: map<Ref, nat>) {
    && (forall r :: CountAt(counts, r) == |Common(byShingle, done, r)|)
    && (forall r :: r in counts ==> counts[r] > 0)
  }

  lemma CommonOneMore(byShingle: map<string, seq<Ref>>, done: set<string>, s: string, r: Ref)
    requires s !in done
    ensures |Common(byShingle, done + {s}, r)| == |Common(byShingle, done, r)| + if r in RefsAt(byShingle, s) then 1
            else 0
  {
    assert Common(byShingle, done + {s}, r) == Common(byShingle, done, r) + if r in RefsAt(byShingle, s) then {s}
           else {};
  }

  /** The only hit that can be reported for a task. */
  lemma OnlyItsOwn(tasks: seq<Task>, i: nat, text: string, shingles: Shingles)
    requires HasDistinctRefs(tasks) && i < |tasks| && text != ""
    ensures forall h: Hit :: h.ref == tasks[i].ref ==>
              (IsReported(h, tasks, text, shingles) <==>
                  h == BruteForce(tasks, tasks[i], text, shingles) && Passes(h.shared, h.size))
  {
  }

  /** The only hit that can be reported for a counted reference is the one its count and size make. */
  lemma CountedHit(
    tasks: seq<Task>, byShingle: map<string, seq<Ref>>, sizes: map<Ref, nat>, counts: map<Ref, nat>, text: string,
    r: Ref, shingles: Shingles)
    requires HasDistinctRefs(tasks) && IsIndex(tasks, |tasks|, byShingle, sizes, shingles) && text != ""
    requires IsTally(byShingle, shingles(text), counts) && r in counts
    ensures r in sizes
    ensures forall h: Hit :: h.ref == r ==>
              (IsReported(h, tasks, text, shingles) <==> h == Hit(r, counts[r], sizes[r]) && Passes(h.shared, h.size))
  {
    assert CountAt(counts, r) == |Common(byShingle, shingles(text), r)| > 0;
    var i := CountedIsTask(tasks, byShingle, sizes, shingles(text), r, shingles);
    CommonOfTask(tasks, byShingle, sizes, i, shingles(text), shingles);
    OnlyItsOwn(tasks, i, text, shingles);
    assert Hit(r, counts[r], sizes[r]) == BruteForce(tasks, tasks[i], text, shingles);
  }

  lemma NothingIndexed(tasks: seq<Task>, sizes: map<Ref, nat>, text: string, h: Hit, shingles: Shingles)
    requires IsIndex(tasks, |tasks|, map[], sizes, shingles)
    ensures !IsReported(h, tasks, text, shingles)
  {
    forall i | 0 <= i < |tasks| ensures Kept(tasks, tasks[i], shingles) == {} {
      forall s ensures s !in Kept(tasks, tasks[i], shingles) {
        assert IsList(tasks, |tasks|, RefsAt(map[], s), s, shingles);
      }
    }
  }

  lemma ReportedIsCounted(
    tasks: seq<Task>, byShingle: map<string, seq<Ref>>, sizes: map<Ref, nat>, text: string, counts: map<Ref, nat>,
    h: Hit, shingles: Shingles)
    requires HasDistinctRefs(tasks) && IsIndex(tasks, |tasks|, byShingle, sizes, shingles)
    requires IsTally(byShingle, shingles(text), counts) && IsReported(h, tasks, text, shingles)
    ensures h.ref in counts
  {
    var i :| 0 <= i < |tasks| && text != "" && h == BruteForce(tasks, tasks[i], text, shingles)
       && Passes(h.shared, h.size);
    CommonOfTask(tasks, byShingle, sizes, i, shingles(text), shingles);
    assert CountAt(counts, h.ref) == |Common(byShingle, shingles(text), h.ref)| > 0;
  }

  /** The loop over the references under one shingle. */
  method CountRefs(refs: seq<Ref>, before: map<Ref, nat>) returns (counts: map<Ref, nat>)
    requires (forall k, l :: 0 <= k < l < |refs| ==> refs[k] != refs[l]) && (forall r :: r in before ==> before[r] > 0)
    ensures forall r :: CountAt(counts, r) == CountAt(before, r) + if r in refs then 1 else 0
    ensures forall r :: r in counts ==> counts[r] > 0
  {
    counts := before;
    for k := 0 to |refs|
      invariant forall r :: CountAt(counts, r) == CountAt(before, r) + if r in refs[..k] then 1 else 0
      invariant forall r :: r in counts ==> counts[r] > 0
    {
      assert refs[..k + 1] == refs[..k] + [refs[k]] && refs[k] !in refs[..k];
      counts := counts[refs[k] := CountAt(counts, refs[k]) + 1];
    }
    assert refs[..|refs|] == refs;
  }

  method CountGroups(tasks: seq<Task>, shingles: Shingles) returns (groups: map<string, set<GroupKey>>)
    ensures IsCount(tasks, |tasks|, groups, shingles)
  {
    groups := map[];
    for i := 0 to |tasks|
      invariant IsCount(tasks, i, groups, shingles)
    {
      var t := tasks[i];
      var left := Of(t, shingles);
      forall s ensures GroupsOf(tasks[..i + 1], s, shingles)
                    == GroupsOf(tasks[..i], s, shingles) + if s in Of(t, shingles) then {KeyOf(t)} else {}
      {
        OneTaskMore(tasks, i, s, shingles);
      }
      while left != {}
        invariant left <= Of(t, shingles)
        invariant forall s :: GroupsAt(groups, s)
                    == GroupsOf(tasks[..i], s, shingles) + if s in Of(t, shingles) - left then {KeyOf(t)} else {}
        decreases left
      {
        var s :| s in left;
        left := left - {s};
        groups := groups[s := GroupsAt(groups, s) + {KeyOf(t)}];
      }
    }
  }

  // ---------------------------------------------------------------- what is reported, task by task

  /** They count once: the same group, or the same task where there is no group. */
  predicate IsSameGroup(a: Task, b: Task) {
    a.group == b.group && (a.group == "" ==> a.ref == b.ref)
  }

  predicate HasShingle(t: Task, s: string, shingles: Shingles) { t.text != "" && s in shingles(t.text) }

  lemma ThreeOf<T>(s: set<T>) returns (x: T, y: T, z: T)
    requires |s| > 2
    ensures x in s && y in s && z in s && x != y && x != z && y != z
  {
    x :| x in s;
    var t := s - {x};
    assert |t| == |s| - 1;
    y :| y in t;
    var u := t - {y};
    assert |u| == |t| - 1;
    z :| z in u;
  }

  lemma FewWithThree<T>(s: set<T>, x: T, y: T, z: T)
    requires x in s && y in s && z in s && x != y && x != z && y != z
    ensures |s| > 2
  {
    assert {x, y, z} <= s;
    assert |s - {x, y, z}| == |s| - |{x, y, z}|;
  }

  /** Three tasks with the shingle, no two of them counting once. */
  predicate AreThree(tasks: seq<Task>, s: string, shingles: Shingles, i: nat, j: nat, k: nat) {
    && i < |tasks| && j < |tasks| && k < |tasks|
    && HasShingle(tasks[i], s, shingles) && HasShingle(tasks[j], s, shingles) && HasShingle(tasks[k], s, shingles)
    && !IsSameGroup(tasks[i], tasks[j]) && !IsSameGroup(tasks[i], tasks[k]) && !IsSameGroup(tasks[j], tasks[k])
  }

  /** Of any three tasks with this shingle two count once. */
  ghost predicate IsRare(tasks: seq<Task>, s: string, shingles: Shingles) {
    !exists i, j, k :: AreThree(tasks, s, shingles, i, j, k)
  }

  lemma SameKey(a: Task, b: Task)
    ensures KeyOf(a) == KeyOf(b) <==> IsSameGroup(a, b)
  {
  }

  lemma RareIs(tasks: seq<Task>, s: string, shingles: Shingles)
    ensures |GroupsOf(tasks, s, shingles)| <= TEXT_MAX_GROUP_DF <==> IsRare(tasks, s, shingles)
  {
    if |GroupsOf(tasks, s, shingles)| > 2 {
      var x, y, z := ThreeOf(GroupsOf(tasks, s, shingles));
      var i := TaskOf(tasks, s, shingles, x);
      var j := TaskOf(tasks, s, shingles, y);
      var k := TaskOf(tasks, s, shingles, z);
      SameKey(tasks[i], tasks[j]);
      SameKey(tasks[i], tasks[k]);
      SameKey(tasks[j], tasks[k]);
      assert AreThree(tasks, s, shingles, i, j, k);
    }
    if i: nat, j: nat, k: nat :| AreThree(tasks, s, shingles, i, j, k) {
      SameKey(tasks[i], tasks[j]);
      SameKey(tasks[i], tasks[k]);
      SameKey(tasks[j], tasks[k]);
      FewWithThree(GroupsOf(tasks, s, shingles), KeyOf(tasks[i]), KeyOf(tasks[j]), KeyOf(tasks[k]));
    }
  }

  lemma TaskOf(tasks: seq<Task>, s: string, shingles: Shingles, g: GroupKey) returns (i: nat)
    requires g in GroupsOf(tasks, s, shingles)
    ensures i < |tasks| && HasShingle(tasks[i], s, shingles) && KeyOf(tasks[i]) == g
  {
    i :| i < |tasks| && s in Of(tasks[i], shingles) && KeyOf(tasks[i]) == g;
  }

  /** The shingles of a task that are compared. */
  ghost predicate AreCompared(tasks: seq<Task>, t: Task, shingles: Shingles, kept: set<string>) {
    forall s :: s in kept <==> HasShingle(t, s, shingles) && IsRare(tasks, s, shingles)
  }

  /**
   * A report is that of some task: of its rare shingles `size`, `shared` of them in the text; at least eight, half of
   * them, and twenty or four in five.
   */
  lemma ReportedIs(h: Hit, tasks: seq<Task>, text: string, shingles: Shingles)
    ensures IsReported(h, tasks, text, shingles) <==>
            text != "" && exists i, kept :: IsReportAt(h, tasks, i, kept, text, shingles)
  {
    if IsReported(h, tasks, text, shingles) {
      var i :| 0 <= i < |tasks| && text != "" && h == BruteForce(tasks, tasks[i], text, shingles)
        && Passes(h.shared, h.size);
      ReportAt(h, tasks, i, Kept(tasks, tasks[i], shingles), text, shingles);
    }
    if i, kept :| text != "" && IsReportAt(h, tasks, i, kept, text, shingles) {
      ReportAt(h, tasks, i, kept, text, shingles);
    }
  }

  ghost predicate IsReportAt(h: Hit, tasks: seq<Task>, i: int, kept: set<string>, text: string, shingles: Shingles) {
    0 <= i < |tasks| && AreCompared(tasks, tasks[i], shingles, kept) && IsReportOf(h, tasks[i], kept, shingles(text))
  }

  lemma ReportAt(h: Hit, tasks: seq<Task>, i: nat, kept: set<string>, text: string, shingles: Shingles)
    requires i < |tasks|
    ensures IsReportAt(h, tasks, i, kept, text, shingles) <==>
            && kept == Kept(tasks, tasks[i], shingles) && h == BruteForce(tasks, tasks[i], text, shingles)
            && Passes(h.shared, h.size)
  {
    ComparedAreKept(tasks, tasks[i], shingles, kept);
    PassesInWholes(h.shared, h.size);
  }

  predicate IsReportOf(h: Hit, t: Task, kept: set<string>, found: set<string>) {
    && h.ref == t.ref && h.size == |kept| && h.shared == |kept * found|
    && h.shared >= 8 && 2 * h.shared >= h.size > 0 && (h.shared >= 20 || 5 * h.shared >= 4 * h.size)
  }

  lemma ComparedAreKept(tasks: seq<Task>, t: Task, shingles: Shingles, kept: set<string>)
    ensures AreCompared(tasks, t, shingles, kept) <==> kept == Kept(tasks, t, shingles)
  {
    forall s ensures s in Kept(tasks, t, shingles) <==> HasShingle(t, s, shingles) && IsRare(tasks, s, shingles) {
      RareIs(tasks, s, shingles);
    }
  }
}
