/** The digest of a model inventory: `model_digest_from_inventory` of `src/private_store/digests.py`. */
module Digest {
  import opened Results
  import Radix
  import Sorting
  import opened Texts

  /** A file of the inventory: its path, its size, and the SHA-256 it is listed with. */
  datatype File = File(path: string, size: nat, digest: string)

  datatype Error = Empty | Duplicate(path: string) | InvalidDigest(path: string)

  // ---------------------------------------------------------------- a file's digest

  function Lower(c: char): char {
    if 'A' <= c <= 'Z' then (c as int - 'A' as int + 'a' as int) as char else c
  }

  function LowerAll(s: string): (r: string)
    ensures |r| == |s|
  {
    seq(|s|, i requires 0 <= i < |s| => Lower(s[i]))
  }

  /** `file_digest.lower().removeprefix("sha256:")`, of text whose lower case is ASCII's. */
  function Normalized(digest: string): string {
    var low := LowerAll(digest);
    if |low| >= 7 && low[..7] == "sha256:" then low[7..] else low
  }

  function HexValue(c: char): (v: nat)
    requires IsHexDigit(c)
    ensures v < 16
  {
    if c <= '9' then c as int - '0' as int else c as int - 'a' as int + 10
  }

  function HexChar(v: nat): (c: char)
    requires v < 16
    ensures IsHexDigit(c) && HexValue(c) == v
  {
    if v < 10 then (v + '0' as int) as char else (v - 10 + 'a' as int) as char
  }

  /** `bytes.fromhex`. */
  function FromHex(s: string): (bytes: seq<Byte>)
    requires |s| % 2 == 0 && forall i :: 0 <= i < |s| ==> IsHexDigit(s[i])
    ensures 2 * |bytes| == |s|
  {
    if s == "" then [] else [16 * HexValue(s[0]) + HexValue(s[1])] + FromHex(s[2..])
  }

  function ToHex(bytes: seq<Byte>): (s: string)
    ensures |s| == 2 * |bytes| && forall i :: 0 <= i < |s| ==> IsHexDigit(s[i])
  {
    if bytes == [] then "" else [HexChar(bytes[0] / 16), HexChar(bytes[0] % 16)] + ToHex(bytes[1..])
  }

  lemma {:induction false} HexRoundTrip(s: string)
    requires |s| % 2 == 0 && forall i :: 0 <= i < |s| ==> IsHexDigit(s[i])
    ensures ToHex(FromHex(s)) == s
  {
    if s != "" {
      HexRoundTrip(s[2..]);
      Radix.DivMod(HexValue(s[0]), HexValue(s[1]), 16);
      SameHexDigit(s[0]);
      SameHexDigit(s[1]);
      assert s == [s[0], s[1]] + s[2..];
    }
  }

  lemma SameHexDigit(c: char)
    requires IsHexDigit(c)
    ensures HexChar(HexValue(c)) == c
  {
  }

  // ---------------------------------------------------------------- the order of the inventory

  /** The order of tuples: by path, then size, then digest. */
  predicate FileLeq(a: File, b: File) {
    if a.path != b.path then Sorting.StrLeq(a.path, b.path)
    else if a.size != b.size then a.size < b.size
    else Sorting.StrLeq(a.digest, b.digest)
  }

  lemma FilesAreOrdered()
    ensures Sorting.IsOrder(FileLeq)
  {
    forall a: File, b: File
      ensures FileLeq(a, b) || FileLeq(b, a)
      ensures FileLeq(a, b) && FileLeq(b, a) ==> a == b
    {
      Sorting.StrLeqTotal(a.path, b.path);
      Sorting.StrLeqTotal(a.digest, b.digest);
    }
    forall a: File, b: File, c: File | FileLeq(a, b) && FileLeq(b, c) ensures FileLeq(a, c) {
      FileLeqTransitive(a, b, c);
    }
  }

  lemma FileLeqTransitive(a: File, b: File, c: File)
    requires FileLeq(a, b) && FileLeq(b, c)
    ensures FileLeq(a, c)
  {
    if Sorting.StrLeq(a.path, b.path) && Sorting.StrLeq(b.path, c.path) {
      Sorting.StrLeqTransitive(a.path, b.path, c.path);
    }
    if Sorting.StrLeq(a.digest, b.digest) && Sorting.StrLeq(b.digest, c.digest) {
      Sorting.StrLeqTransitive(a.digest, b.digest, c.digest);
    }
    Sorting.StrLeqTotal(a.path, b.path);
    Sorting.StrLeqTotal(a.path, c.path);
  }

  // ---------------------------------------------------------------- the pre-image

  /** Text of ASCII characters as bytes. */
  predicate IsAscii(s: string) { forall i :: 0 <= i < |s| ==> s[i] as int < 128 }

  function Ascii(s: string): (bytes: seq<Byte>)
    requires IsAscii(s)
    ensures |bytes| == |s|
  {
    seq(|s|, i requires 0 <= i < |s| => s[i] as int as Byte)
  }

  /** An encoding of text, UTF-8 in the source: injective, and zero only for a NUL. */
  ghost predicate IsEncoding(encode: string -> seq<Byte>) {
    && (forall a, b :: encode(a) == encode(b) ==> a == b)
    && (forall a :: '\0' !in a ==> 0 !in encode(a))
  }

  function SizeBytes(n: nat): (bytes: seq<Byte>) {
    Ascii(Radix.Decimal(n))
  }

  /** A file as the pre-image tells it. */
  datatype Listing = Listing(path: seq<Byte>, size: nat, hash: seq<Byte>)

  function ListingOf(f: File, encode: string -> seq<Byte>): Listing
    requires IsHash(Normalized(f.digest))
  {
    Listing(encode(f.path), f.size, FromHex(Normalized(f.digest)))
  }

  /** What one file adds. */
  function Pack(l: Listing): seq<Byte> {
    l.path + [0] + SizeBytes(l.size) + [0] + l.hash
  }

  function Entry(f: File, encode: string -> seq<Byte>): seq<Byte>
    requires IsHash(Normalized(f.digest))
  {
    Pack(ListingOf(f, encode))
  }

  predicate IsRepeated(files: seq<File>, i: nat)
    requires i < |files|
  {
    exists k :: 0 <= k < i && files[k].path == files[i].path
  }

  /** The files from `i` on, in order: what they add, or the first fault among them. */
  function Entries(files: seq<File>, i: nat, encode: string -> seq<Byte>): Result<seq<Byte>, Error>
    requires i <= |files|
    decreases |files| - i
  {
    if i == |files| then Ok([])
    else if IsRepeated(files, i) then Err(Duplicate(files[i].path))
    else if !IsHash(Normalized(files[i].digest)) then Err(InvalidDigest(files[i].path))
    else
      var rest := Entries(files, i + 1, encode);
      if rest.Err? then rest else Ok(Entry(files[i], encode) + rest.value)
  }

  function Preimage(files: seq<File>, encode: string -> seq<Byte>): Result<seq<Byte>, Error> {
    if files == [] then Err(Empty) else Entries(Sorting.Sorted(FileLeq, files), 0, encode)
  }

  /** What has been hashed, and what is still to come. */
  function After(digest: seq<Byte>, rest: Result<seq<Byte>, Error>): Result<seq<Byte>, Error> {
    if rest.Err? then rest else Ok(digest + rest.value)
  }

  lemma AfterNothing(rest: Result<seq<Byte>, Error>)
    ensures After([], rest) == rest
  {
    if rest.Ok? { assert [] + rest.value == rest.value; }
  }

  lemma OneEntryMore(files: seq<File>, i: nat, encode: string -> seq<Byte>, digest: seq<Byte>)
    requires i < |files| && IsHash(Normalized(files[i].digest))
    requires !IsRepeated(files, i)
    ensures After(digest, Entries(files, i, encode))
            == After(digest + Entry(files[i], encode), Entries(files, i + 1, encode))
  {
    var rest := Entries(files, i + 1, encode);
    if rest.Ok? { assert digest + (Entry(files[i], encode) + rest.value) == digest + Entry(files[i], encode)
        + rest.value; }
  }

  /** The paths of the first `i` files. */
  ghost predicate IsSeen(seen: set<string>, files: seq<File>, i: nat)
    requires i <= |files|
  {
    && (forall k :: 0 <= k < i ==> files[k].path in seen)
    && (forall p :: p in seen ==> exists k :: 0 <= k < i && files[k].path == p)
  }

  lemma SeenOneMore(seen: set<string>, files: seq<File>, i: nat)
    requires i < |files| && IsSeen(seen, files, i)
    ensures IsRepeated(files, i) <==> files[i].path in seen
    ensures IsSeen(seen + {files[i].path}, files, i + 1)
  {
  }

  method ModelDigest(files: seq<File>, encode: string -> seq<Byte>, sha256: seq<Byte> -> string)
    returns (r: Result<string, Error>)
    ensures r == match Preimage(files, encode) { case Ok(bytes) => Ok(sha256(bytes)) case Err(e) => Err(e) }
  {
    if files == [] { return Err(Empty); }
    var digest: seq<Byte> := [];
    var seen: set<string> := {};
    var all := Sorting.Sorted(FileLeq, files);
    AfterNothing(Entries(all, 0, encode));
    for i := 0 to |all|
      invariant IsSeen(seen, all, i)
      invariant Entries(all, 0, encode) == After(digest, Entries(all, i, encode))
    {
      var f := all[i];
      SeenOneMore(seen, all, i);
      if f.path in seen { return Err(Duplicate(f.path)); }
      seen := seen + {f.path};
      var normalized := Normalized(f.digest);
      if !IsHash(normalized) { return Err(InvalidDigest(f.path)); }
      OneEntryMore(all, i, encode, digest);
      digest := digest + Entry(f, encode);
    }
    assert digest + [] == digest;
    r := Ok(sha256(digest));
  }

  /** The digest does not depend on the order the inventory is listed in, nor do its faults. */
  lemma PreimageIgnoresOrder(a: seq<File>, b: seq<File>, encode: string -> seq<Byte>)
    requires multiset(a) == multiset(b)
    ensures Preimage(a, encode) == Preimage(b, encode)
  {
    FilesAreOrdered();
    Sorting.SortedSame(FileLeq, a, b);
    assert |multiset(a)| == |a| && |multiset(b)| == |b|;
  }

  // ---------------------------------------------------------------- when there is a digest

  predicate HasDistinctPaths(files: seq<File>) {
    forall i, j :: 0 <= i < j < |files| ==> files[i].path != files[j].path
  }

  predicate HasHashes(files: seq<File>) {
    forall i :: 0 <= i < |files| ==> IsHash(Normalized(files[i].digest))
  }

  /** No fault from `i` on. */
  predicate AreGoodFrom(files: seq<File>, i: nat) {
    forall j :: i <= j < |files| ==> !IsRepeated(files, j) && IsHash(Normalized(files[j].digest))
  }

  lemma {:induction false} EntriesWhen(files: seq<File>, i: nat, encode: string -> seq<Byte>)
    requires i <= |files|
    ensures Entries(files, i, encode).Ok? <==> AreGoodFrom(files, i)
    decreases |files| - i
  {
    if i < |files| {
      EntriesWhen(files, i + 1, encode);
      EntriesFrom(files, i, encode);
      GoodFromNext(files, i);
    }
  }

  lemma EntriesFrom(files: seq<File>, i: nat, encode: string -> seq<Byte>)
    requires i < |files|
    ensures Entries(files, i, encode).Ok? <==>
            !IsRepeated(files, i) && IsHash(Normalized(files[i].digest)) && Entries(files, i + 1, encode).Ok?
  {
  }

  lemma GoodFromNext(files: seq<File>, i: nat)
    requires i < |files|
    ensures AreGoodFrom(files, i) <==>
            !IsRepeated(files, i) && IsHash(Normalized(files[i].digest)) && AreGoodFrom(files, i + 1)
  {
  }

  lemma GoodFromStart(files: seq<File>)
    ensures AreGoodFrom(files, 0) <==> HasDistinctPaths(files) && HasHashes(files)
  {
    if AreGoodFrom(files, 0) {
      forall i, j | 0 <= i < j < |files| ensures files[i].path != files[j].path { assert !IsRepeated(files, j); }
    }
  }

  lemma {:induction false} DistinctOfSame(a: seq<File>, b: seq<File>)
    requires multiset(a) == multiset(b) && HasDistinctPaths(a)
    ensures HasDistinctPaths(b)
  {
    forall i, j | 0 <= i < j < |b| ensures b[i].path != b[j].path {
      assert b[i] in multiset(a) && b[j] in multiset(a);
      var x :| 0 <= x < |a| && a[x] == b[i];
      var y :| 0 <= y < |a| && a[y] == b[j];
      if b[i] == b[j] { TwiceThere(b, i, j); OnceThere(a, x); }
    }
  }

  lemma TwiceThere(s: seq<File>, i: nat, j: nat)
    requires i < j < |s| && s[i] == s[j]
    ensures multiset(s)[s[i]] >= 2
  {
    assert s == s[..i] + [s[i]] + s[i + 1..j] + [s[j]] + s[j + 1..];
  }

  lemma OnceThere(s: seq<File>, x: nat)
    requires x < |s| && HasDistinctPaths(s)
    ensures multiset(s)[s[x]] == 1
  {
    assert s == s[..x] + [s[x]] + s[x + 1..];
    assert s[x] !in s[..x] && s[x] !in s[x + 1..];
  }

  /**
   * An inventory has a digest exactly when it is not empty, no path is listed twice and every hash is 64 hex digits.
   */
  lemma HasDigestWhen(files: seq<File>, encode: string -> seq<Byte>)
    ensures Preimage(files, encode).Ok? <==> files != [] && HasDistinctPaths(files) && HasHashes(files)
  {
    FilesAreOrdered();
    var all := Sorting.Sorted(FileLeq, files);
    Sorting.SortedSorts(FileLeq, files);
    EntriesWhen(all, 0, encode);
    GoodFromStart(all);
    if HasDistinctPaths(files) { DistinctOfSame(files, all); }
    if HasDistinctPaths(all) { DistinctOfSame(all, files); }
    if HasHashes(files) { HashesOfSame(files, all); }
    if HasHashes(all) { HashesOfSame(all, files); }
  }

  lemma HashesOfSame(a: seq<File>, b: seq<File>)
    requires multiset(a) == multiset(b) && HasHashes(a)
    ensures HasHashes(b)
  {
    forall i | 0 <= i < |b| ensures IsHash(Normalized(b[i].digest)) {
      assert b[i] in multiset(a);
    }
  }

  // ---------------------------------------------------------------- reading the pre-image back

  /** Where the first zero byte is. */
  function ZeroAt(bytes: seq<Byte>): (k: nat)
    ensures k <= |bytes| && 0 !in bytes[..k] && (k < |bytes| ==> bytes[k] == 0)
  {
    if bytes == [] || bytes[0] == 0 then 0
    else
      assert bytes[..1 + ZeroAt(bytes[1..])] == [bytes[0]] + bytes[1..][..ZeroAt(bytes[1..])];
      1 + ZeroAt(bytes[1..])
  }

  function Text(bytes: seq<Byte>): string {
    seq(|bytes|, i requires 0 <= i < |bytes| => bytes[i] as char)
  }

  function Decode(bytes: seq<Byte>): Option<seq<Listing>>
    decreases |bytes|
  {
    if bytes == [] then Some([])
    else
      var first := CutListing(bytes);
      if first.None? then None
      else
        var rest := Decode(first.value.1);
        if rest.None? then None else Some([first.value.0] + rest.value)
  }

  /** The first entry of the bytes, and what is behind it. */
  function CutListing(bytes: seq<Byte>): (r: Option<(Listing, seq<Byte>)>)
    ensures r.Some? ==> |r.value.1| < |bytes|
  {
    var k := ZeroAt(bytes);
    if k == |bytes| then None
    else
      var more := bytes[k + 1..];
      var n := ZeroAt(more);
      if |more| < n + 33 || !Radix.IsDecimal(Text(more[..n])) then None
      else Some((Listing(bytes[..k], Radix.ParseDecimal(Text(more[..n])), more[n + 1..n + 33]), more[n + 33..]))
  }

  lemma {:induction false} ZeroAfter(a: seq<Byte>, rest: seq<Byte>)
    requires 0 !in a
    ensures ZeroAt(a + [0] + rest) == |a|
  {
    if a != [] {
      assert a[0] in a && forall x :: x in a[1..] ==> x in a;
      ZeroAfter(a[1..], rest);
      assert (a + [0] + rest)[1..] == a[1..] + [0] + rest;
    }
  }

  lemma SizeReads(n: nat)
    ensures 0 !in SizeBytes(n) && Text(SizeBytes(n)) == Radix.Decimal(n) && Radix.ParseDecimal(Radix.Decimal(n)) == n
  {
    Radix.DecimalRoundTrip(n);
  }

  lemma DecodePacked(l: Listing, rest: seq<Byte>)
    requires 0 !in l.path && |l.hash| == 32 && Decode(rest).Some?
    ensures Decode(Pack(l) + rest) == Some([l] + Decode(rest).value)
  {
    SizeReads(l.size);
    DecodeOne(l.path, SizeBytes(l.size), l.hash, rest);
    FiveParts(l.path, SizeBytes(l.size), l.hash, rest);
  }

  lemma FiveParts(path: seq<Byte>, size: seq<Byte>, hash: seq<Byte>, rest: seq<Byte>)
    ensures path + [0] + size + [0] + hash + rest == path + [0] + (size + [0] + (hash + rest))
  {
  }

  lemma DecodeOne(path: seq<Byte>, size: seq<Byte>, hash: seq<Byte>, rest: seq<Byte>)
    requires 0 !in path && 0 !in size && Radix.IsDecimal(Text(size)) && |hash| == 32 && Decode(rest).Some?
    ensures Decode(path + [0] + (size + [0] + (hash + rest)))
         == Some([Listing(path, Radix.ParseDecimal(Text(size)), hash)] + Decode(rest).value)
  {
    var after := size + [0] + (hash + rest);
    ZeroAfter(path, after);
    Cut(path, after);
    AfterPath(size, hash, rest, after);
    DecodeCut(path + [0] + after, path, after, size, hash, rest);
  }

  lemma AfterPath(size: seq<Byte>, hash: seq<Byte>, rest: seq<Byte>, after: seq<Byte>)
    requires 0 !in size && |hash| == 32 && after == size + [0] + (hash + rest)
    ensures ZeroAt(after) == |size| && |after| >= |size| + 33 && after[..|size|] == size
    ensures after[|size| + 1..|size| + 33] == hash && after[|size| + 33..] == rest
  {
    ZeroAfter(size, hash + rest);
    Cut(size, hash + rest);
    assert after[|size| + 1..|size| + 33] == (hash + rest)[..32] == hash;
    assert after[|size| + 33..] == (hash + rest)[32..] == rest;
  }

  lemma DecodeCut(
    all: seq<Byte>, path: seq<Byte>, after: seq<Byte>, size: seq<Byte>, hash: seq<Byte>, rest: seq<Byte>)
    requires ZeroAt(all) == |path| < |all| && all[..|path|] == path && all[|path| + 1..] == after
    requires ZeroAt(after) == |size| && |after| >= |size| + 33 && after[..|size|] == size
    requires after[|size| + 1..|size| + 33] == hash && after[|size| + 33..] == rest
    requires Radix.IsDecimal(Text(size)) && Decode(rest).Some?
    ensures Decode(all) == Some([Listing(path, Radix.ParseDecimal(Text(size)), hash)] + Decode(rest).value)
  {
    assert CutListing(all) == Some((Listing(path, Radix.ParseDecimal(Text(size)), hash), rest));
  }

  lemma Cut(a: seq<Byte>, b: seq<Byte>)
    ensures (a + [0] + b)[..|a|] == a && (a + [0] + b)[|a| + 1..] == b
  {
  }

  function ListingsFrom(files: seq<File>, i: nat, encode: string -> seq<Byte>): (l: seq<Listing>)
    requires i <= |files| && HasHashes(files)
    ensures |l| == |files| - i
  {
    seq(|files| - i, k requires 0 <= k < |files| - i => ListingOf(files[i + k], encode))
  }

  predicate HasPlainPaths(files: seq<File>) {
    forall i :: 0 <= i < |files| ==> '\0' !in files[i].path
  }

  lemma FirstListing(files: seq<File>, i: nat, encode: string -> seq<Byte>)
    requires i < |files| && HasHashes(files)
    ensures ListingsFrom(files, i, encode) == [ListingOf(files[i], encode)] + ListingsFrom(files, i + 1, encode)
  {
  }

  /** The decoder gives back every path, size and hash that went in. */
  lemma {:induction false} DecodeEntries(files: seq<File>, i: nat, encode: string -> seq<Byte>)
    requires i <= |files| && HasPlainPaths(files) && HasHashes(files) && IsEncoding(encode)
             && Entries(files, i, encode).Ok?
    ensures Decode(Entries(files, i, encode).value) == Some(ListingsFrom(files, i, encode))
    decreases |files| - i
  {
    if i < |files| {
      DecodeEntries(files, i + 1, encode);
      DecodePacked(ListingOf(files[i], encode), Entries(files, i + 1, encode).value);
      FirstListing(files, i, encode);
    }
  }

  // ---------------------------------------------------------------- what the pre-image determines

  /** A file with its digest as it is hashed. */
  function Plain(f: File): File { f.(digest := Normalized(f.digest)) }

  function PlainAll(files: seq<File>): (p: seq<File>)
    ensures |p| == |files|
  {
    seq(|files|, i requires 0 <= i < |files| => Plain(files[i]))
  }

  lemma SameListings(a: seq<File>, b: seq<File>, encode: string -> seq<Byte>)
    requires |a| == |b| && HasHashes(a) && HasHashes(b) && IsEncoding(encode)
    requires ListingsFrom(a, 0, encode) == ListingsFrom(b, 0, encode)
    ensures forall k :: 0 <= k < |a| ==> Plain(a[k]) == Plain(b[k])
  {
    forall k | 0 <= k < |a| ensures Plain(a[k]) == Plain(b[k]) {
      assert ListingsFrom(a, 0, encode)[k] == ListingOf(a[k], encode);
      assert ListingsFrom(b, 0, encode)[k] == ListingOf(b[k], encode);
      SameFile(a[k], b[k], encode);
    }
  }

  lemma SameFile(f: File, g: File, encode: string -> seq<Byte>)
    requires IsHash(Normalized(f.digest)) && IsHash(Normalized(g.digest)) && IsEncoding(encode)
    requires ListingOf(f, encode) == ListingOf(g, encode)
    ensures Plain(f) == Plain(g)
  {
    HexRoundTrip(Normalized(f.digest));
    HexRoundTrip(Normalized(g.digest));
  }

  lemma {:induction false} SameEntries(a: seq<File>, b: seq<File>, i: nat, encode: string -> seq<Byte>)
    requires |a| == |b| && i <= |a| && forall k :: 0 <= k < |a| ==> Plain(a[k]) == Plain(b[k])
    requires Entries(a, i, encode).Ok?
    ensures Entries(a, i, encode) == Entries(b, i, encode)
    decreases |a| - i
  {
    if i < |a| {
      assert Plain(a[i]) == Plain(b[i]);
      forall k | 0 <= k < i ensures a[k].path == b[k].path {
        assert Plain(a[k]) == Plain(b[k]);
      }
      SameEntries(a, b, i + 1, encode);
    }
  }

  /** Paths in strictly increasing order stay in order when digests are normalised. */
  lemma PlainInOrder(files: seq<File>)
    requires Sorting.InOrder(FileLeq, files) && HasDistinctPaths(files)
    ensures Sorting.InOrder(FileLeq, PlainAll(files))
  {
    forall i, j | 0 <= i < j < |files| ensures FileLeq(PlainAll(files)[i], PlainAll(files)[j]) {
      assert FileLeq(files[i], files[j]);
    }
  }

  lemma {:induction false} PlainMultiset(files: seq<File>, f: File)
    requires HasDistinctPaths(files)
    ensures multiset(PlainAll(files))[f] == if exists k :: 0 <= k < |files| && Plain(files[k]) == f then 1 else 0
    decreases |files|
  {
    if files != [] {
      var n := |files| - 1;
      PlainMultiset(files[..n], f);
      assert PlainAll(files) == PlainAll(files[..n]) + [Plain(files[n])];
      forall k | 0 <= k < n ensures Plain(files[k]) == Plain(files[..n][k]) && Plain(files[k]) != Plain(files[n]) {
        assert files[k].path != files[n].path;
      }
    }
  }

  /** Two inventories list the same paths with the same sizes and the same hashes. */
  ghost predicate ListTheSame(a: seq<File>, b: seq<File>) {
    forall f :: IsListed(f, a) <==> IsListed(f, b)
  }

  predicate IsListed(f: File, files: seq<File>) {
    exists k :: 0 <= k < |files| && Plain(files[k]) == f
  }

  lemma SameWhenListed(a: seq<File>, b: seq<File>)
    requires HasDistinctPaths(a) && HasDistinctPaths(b) && ListTheSame(a, b)
    requires Sorting.InOrder(FileLeq, a) && Sorting.InOrder(FileLeq, b)
    ensures PlainAll(a) == PlainAll(b)
  {
    forall f: File ensures multiset(PlainAll(a))[f] == multiset(PlainAll(b))[f] {
      PlainMultiset(a, f);
      PlainMultiset(b, f);
      assert IsListed(f, a) <==> IsListed(f, b);
    }
    assert multiset(PlainAll(a)) == multiset(PlainAll(b));
    FilesAreOrdered();
    PlainInOrder(a);
    PlainInOrder(b);
    Sorting.OrderIsUnique(FileLeq, PlainAll(a), PlainAll(b));
  }

  lemma ListedInBoth(a: seq<File>, b: seq<File>)
    requires multiset(a) == multiset(b)
    ensures ListTheSame(a, b)
  {
    forall f ensures IsListed(f, a) <==> IsListed(f, b) {
      if IsListed(f, a) { ListedAlso(f, a, b); }
      if IsListed(f, b) { ListedAlso(f, b, a); }
    }
  }

  lemma ListedAlso(f: File, a: seq<File>, b: seq<File>)
    requires multiset(a) == multiset(b) && IsListed(f, a)
    ensures IsListed(f, b)
  {
    var k :| 0 <= k < |a| && Plain(a[k]) == f;
    assert a[k] in multiset(b);
    var j :| 0 <= j < |b| && b[j] == a[k];
  }

  /** Sorted inventories: the pre-image says exactly what is listed. */
  lemma SortedPreimages(a: seq<File>, b: seq<File>, encode: string -> seq<Byte>)
    requires IsEncoding(encode) && HasPlainPaths(a) && HasPlainPaths(b) && HasHashes(a) && HasHashes(b)
    requires Entries(a, 0, encode).Ok? && Entries(b, 0, encode).Ok?
    requires Sorting.InOrder(FileLeq, a) && Sorting.InOrder(FileLeq, b) && HasDistinctPaths(a) && HasDistinctPaths(b)
    ensures Entries(a, 0, encode) == Entries(b, 0, encode) <==> ListTheSame(a, b)
  {
    if Entries(a, 0, encode) == Entries(b, 0, encode) {
      DecodeEntries(a, 0, encode);
      DecodeEntries(b, 0, encode);
      SameListings(a, b, encode);
    }
    if ListTheSame(a, b) {
      SameWhenListed(a, b);
      forall k | 0 <= k < |a| ensures Plain(a[k]) == Plain(b[k]) {
        assert PlainAll(a)[k] == PlainAll(b)[k];
      }
      SameEntries(a, b, 0, encode);
    }
  }

  lemma SortedFacts(files: seq<File>, encode: string -> seq<Byte>)
    requires Preimage(files, encode).Ok? && HasPlainPaths(files)
    ensures var all := Sorting.Sorted(FileLeq, files);
            && multiset(all) == multiset(files) && Sorting.InOrder(FileLeq, all)
            && HasPlainPaths(all) && HasHashes(all) && HasDistinctPaths(all)
               && Entries(all, 0, encode) == Preimage(files, encode)
  {
    FilesAreOrdered();
    var all := Sorting.Sorted(FileLeq, files);
    Sorting.SortedSorts(FileLeq, files);
    HasDigestWhen(files, encode);
    DistinctOfSame(files, all);
    EntriesWhen(all, 0, encode);
    GoodFromStart(all);
    forall k | 0 <= k < |all| ensures '\0' !in all[k].path {
      assert all[k] in multiset(files);
    }
  }

  /** Two inventories have the same pre-image exactly when they list the same paths, sizes and hashes. */
  lemma PreimageIsExact(a: seq<File>, b: seq<File>, encode: string -> seq<Byte>)
    requires IsEncoding(encode) && HasPlainPaths(a) && HasPlainPaths(b)
    requires Preimage(a, encode).Ok? && Preimage(b, encode).Ok?
    ensures Preimage(a, encode) == Preimage(b, encode) <==> ListTheSame(a, b)
  {
    SortedFacts(a, encode);
    SortedFacts(b, encode);
    var x, y := Sorting.Sorted(FileLeq, a), Sorting.Sorted(FileLeq, b);
    SortedPreimages(x, y, encode);
    ListedInBoth(a, x);
    ListedInBoth(b, y);
    assert ListTheSame(a, b) <==> ListTheSame(x, y) by {
      assert forall f :: IsListed(f, a) <==> IsListed(f, x);
      assert forall f :: IsListed(f, b) <==> IsListed(f, y);
    }
  }
}
