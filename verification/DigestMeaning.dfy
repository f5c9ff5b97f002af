/** What is hashed of an inventory, byte by byte, and which fault is reported. */
module DigestMeaning {
  import opened Results
  import Radix
  import Sorting
  import opened Texts
  import opened Digest

  // ---------------------------------------------------------------- a file's hash

  /** `low` is `c` in lower case. */
  predicate Folds(c: char, low: char) {
    if 'A' <= c <= 'Z' then low as int == c as int + 32 else low == c
  }

  /** The digest names the hash `h`: in letters of either case, perhaps behind `sha256:`. */
  predicate Names(digest: string, h: string) {
    && |h| == 64 && (forall k :: 0 <= k < 64 ==> h[k] in "0123456789abcdef")
    && (FoldsTo(digest, h) || FoldsTo(digest, "sha256:" + h))
  }

  predicate FoldsTo(s: string, low: string) {
    |s| == |low| && forall k :: 0 <= k < |s| ==> Folds(s[k], low[k])
  }

  lemma HexDigits(c: char)
    ensures IsHexDigit(c) <==> c in "0123456789abcdef"
  {
    var all := "0123456789abcdef";
    if IsHexDigit(c) { assert all[HexValue(c)] == c; }
  }

  lemma LowerIs(s: string, low: string)
    ensures LowerAll(s) == low <==> FoldsTo(s, low)
  {
  }

  /** A digest is accepted exactly if it names a hash, and then for that hash. */
  lemma NormalizedIs(digest: string, h: string)
    ensures IsHash(Normalized(digest)) && Normalized(digest) == h <==> Names(digest, h)
  {
    forall c ensures IsHexDigit(c) <==> c in "0123456789abcdef" { HexDigits(c); }
    LowerIs(digest, h);
    LowerIs(digest, "sha256:" + h);
    var low := LowerAll(digest);
    if |low| >= 7 && low[..7] == "sha256:" {
      assert low == "sha256:" + low[7..];
      assert low[1] == 'h';
    } else {
      assert ("sha256:" + h)[..7] == "sha256:";
    }
  }

  function Nibble(c: char): int { if c <= '9' then c as int - 48 else c as int - 87 }

  lemma {:induction false} BytesAre(s: string, k: nat)
    requires |s| % 2 == 0 && (forall i :: 0 <= i < |s| ==> IsHexDigit(s[i])) && 2 * k + 1 < |s|
    ensures FromHex(s)[k] == 16 * Nibble(s[2 * k]) + Nibble(s[2 * k + 1])
  {
    if k > 0 { BytesAre(s[2..], k - 1); }
  }

  // ---------------------------------------------------------------- what is hashed

  /** One file: path, decimal size and the bytes of the hash, with a zero byte behind each of the first two. */
  ghost predicate IsEntry(entry: seq<Byte>, f: File, encode: string -> seq<Byte>) {
    exists size: string, hash: seq<Byte>, h: string ::
      && entry == encode(f.path) + [0] + Codes(size) + [0] + hash && IsSize(size, f.size)
      && Names(f.digest, h) && IsHashOf(hash, h)
  }

  function Codes(s: string): (bytes: seq<int>)
    ensures |bytes| == |s|
  {
    seq(|s|, i requires 0 <= i < |s| => s[i] as int)
  }

  /** The shortest decimal of `n`. */
  predicate IsSize(size: string, n: nat) {
    Radix.IsDecimal(size) && size != "" && (size[0] == '0' ==> size == "0") && Radix.ParseDecimal(size) == n
  }

  predicate IsHashOf(hash: seq<Byte>, h: string) {
    |hash| == 32 && |h| == 64 && forall k :: 0 <= k < 32 ==> hash[k] == 16 * Nibble(h[2 * k]) + Nibble(h[2 * k + 1])
  }

  function Glued(entries: seq<seq<Byte>>): seq<Byte> {
    if entries == [] then [] else entries[0] + Glued(entries[1..])
  }

  lemma EntryIs(f: File, encode: string -> seq<Byte>)
    requires IsHash(Normalized(f.digest))
    ensures IsEntry(Entry(f, encode), f, encode)
  {
    var h, size := Normalized(f.digest), Radix.Decimal(f.size);
    NormalizedIs(f.digest, h);
    var hash := FromHex(h);
    HashIs(h);
    SizeIs(f.size);
    assert Entry(f, encode) == encode(f.path) + [0] + Codes(size) + [0] + hash;
  }

  lemma HashIs(h: string)
    requires IsHash(h)
    ensures IsHashOf(FromHex(h), h)
  {
    forall k | 0 <= k < 32 ensures FromHex(h)[k] == 16 * Nibble(h[2 * k]) + Nibble(h[2 * k + 1]) { BytesAre(h, k); }
  }

  lemma SizeIs(n: nat)
    ensures SizeBytes(n) == Codes(Radix.Decimal(n)) && IsSize(Radix.Decimal(n), n)
  {
    Radix.DecimalRoundTrip(n);
  }

  /** The entries of the files from `i` on, whatever is asked of an entry and true of each. */
  lemma {:induction false} EntriesBy(
    files: seq<File>, i: nat, encode: string -> seq<Byte>, fits: (File, seq<Byte>) -> bool) returns (e: seq<seq<Byte>>)
    requires i <= |files| && Entries(files, i, encode).Ok?
    requires forall f: File :: IsHash(Normalized(f.digest)) ==> fits(f, Entry(f, encode))
    ensures |e| == |files| - i && Glued(e) == Entries(files, i, encode).value
    ensures forall k :: 0 <= k < |e| ==> fits(files[i + k], e[k])
    decreases |files| - i
  {
    e := [];
    if i < |files| {
      var rest := EntriesBy(files, i + 1, encode, fits);
      e := [Entry(files[i], encode)] + rest;
      OneMoreGlued(Entry(files[i], encode), rest);
      OneMore(Entry(files[i], encode), rest, files[i..], fits);
    }
  }

  lemma OneMoreGlued(first: seq<Byte>, rest: seq<seq<Byte>>)
    ensures Glued([first] + rest) == first + Glued(rest)
  {
    assert ([first] + rest)[1..] == rest;
  }

  lemma OneMore(first: seq<Byte>, rest: seq<seq<Byte>>, files: seq<File>, fits: (File, seq<Byte>) -> bool)
    requires |files| == |rest| + 1 && fits(files[0], first) && forall k :: 0 <= k < |rest| ==>
             fits(files[k + 1], rest[k])
    ensures forall k :: 0 <= k < |files| ==> fits(files[k], ([first] + rest)[k])
  {
    forall k | 0 <= k < |files| ensures fits(files[k], ([first] + rest)[k]) {
      if k > 0 { assert fits(files[k - 1 + 1], rest[k - 1]); }
    }
  }

  lemma EntriesAre(files: seq<File>, encode: string -> seq<Byte>) returns (e: seq<seq<Byte>>)
    requires Entries(files, 0, encode).Ok?
    ensures |e| == |files| && Glued(e) == Entries(files, 0, encode).value
    ensures forall k :: 0 <= k < |e| ==> IsEntry(e[k], files[k], encode)
  {
    forall f: File | IsHash(Normalized(f.digest)) ensures IsEntry(Entry(f, encode), f, encode) { EntryIs(f, encode); }
    e := EntriesBy(files, 0, encode, (f, x) => IsEntry(x, f, encode));
  }

  /** Smaller at the first character that differs, or a beginning of the other. */
  predicate IsBefore(a: string, b: string) {
    a != b && (a <= b || exists k :: 0 <= k < |a| && k < |b| && a[..k] == b[..k] && a[k] < b[k])
  }

  /** What is hashed are the files in the order of their paths, one entry behind the other. */
  lemma PreimageIs(files: seq<File>, encode: string -> seq<Byte>) returns (all: seq<File>, e: seq<seq<Byte>>)
    requires Preimage(files, encode).Ok?
    ensures multiset(all) == multiset(files) && forall i, j :: 0 <= i < j < |all| ==> IsBefore(all[i].path, all[j].path)
    ensures |e| == |all| && (forall k :: 0 <= k < |e| ==> IsEntry(e[k], all[k], encode))
    ensures Preimage(files, encode).value == Glued(e)
  {
    all := Sorting.Sorted(FileLeq, files);
    FilesAreOrdered();
    Sorting.SortedSorts(FileLeq, files);
    HasDigestWhen(files, encode);
    DistinctOfSame(files, all);
    e := EntriesAre(all, encode);
    forall i, j | 0 <= i < j < |all| ensures IsBefore(all[i].path, all[j].path) {
      assert FileLeq(all[i], all[j]);
      Sorting.StrLeqIs(all[i].path, all[j].path);
    }
  }

  // ---------------------------------------------------------------- faults

  /** Not after the other in the order of path, size and digest. */
  predicate IsListedBefore(a: File, b: File) {
    if a.path != b.path then IsBefore(a.path, b.path)
    else a.size < b.size || (a.size == b.size && (a.digest == b.digest || IsBefore(a.digest, b.digest)))
  }

  lemma OrderIs(a: File, b: File)
    ensures FileLeq(a, b) <==> IsListedBefore(a, b)
  {
    Sorting.StrLeqIs(a.path, b.path);
    Sorting.StrLeqIs(a.digest, b.digest);
  }

  /** The fault of the `i`-th file: its path was there before, or its digest names no hash. */
  ghost predicate IsFault(all: seq<File>, i: nat, e: Error)
    requires i < |all|
  {
    if exists k :: 0 <= k < i && all[k].path == all[i].path then e == Duplicate(all[i].path)
    else (forall h :: !Names(all[i].digest, h)) && e == InvalidDigest(all[i].path)
  }

  ghost predicate IsGood(all: seq<File>, i: nat)
    requires i < |all|
  {
    && (forall k :: 0 <= k < i ==> all[k].path != all[i].path)
    && exists h :: Names(all[i].digest, h)
  }

  lemma GoodIs(all: seq<File>, i: nat)
    requires i < |all|
    ensures IsGood(all, i) <==> !IsRepeated(all, i) && IsHash(Normalized(all[i].digest))
  {
    forall h ensures IsHash(Normalized(all[i].digest)) && Normalized(all[i].digest) == h <==> Names(all[i].digest, h) {
      NormalizedIs(all[i].digest, h);
    }
    if IsHash(Normalized(all[i].digest)) { assert Names(all[i].digest, Normalized(all[i].digest)); }
  }

  lemma {:induction false} FirstFaultIs(all: seq<File>, i: nat, encode: string -> seq<Byte>) returns (n: nat)
    requires i <= |all| && Entries(all, i, encode).Err?
    ensures i <= n < |all| && (forall k :: i <= k < n ==> IsGood(all, k))
    ensures !IsGood(all, n) && IsFault(all, n, Entries(all, i, encode).error)
    decreases |all| - i
  {
    n := i;
    GoodIs(all, i);
    if IsGood(all, i) {
      n := FirstFaultIs(all, i + 1, encode);
    }
  }

  /** Without files there is nothing to hash; otherwise the fault is that of the first file in order that has one. */
  lemma FaultIs(files: seq<File>, encode: string -> seq<Byte>) returns (all: seq<File>, n: nat)
    requires Preimage(files, encode).Err?
    ensures files == [] ==> Preimage(files, encode).error == Empty
    ensures files != [] ==>
              && multiset(all) == multiset(files)
              && (forall i, j :: 0 <= i < j < |all| ==> IsListedBefore(all[i], all[j]))
              && n < |all| && (forall k :: 0 <= k < n ==> IsGood(all, k)) && !IsGood(all, n)
              && IsFault(all, n, Preimage(files, encode).error)
  {
    all, n := Sorting.Sorted(FileLeq, files), 0;
    if files != [] {
      FilesAreOrdered();
      Sorting.SortedSorts(FileLeq, files);
      forall i, j | 0 <= i < j < |all| ensures IsListedBefore(all[i], all[j]) { OrderIs(all[i], all[j]); }
      n := FirstFaultIs(all, 0, encode);
    }
  }
}
