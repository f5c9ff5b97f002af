/** Object keys of the private store: `src/private_store/contracts.py`. */
module Contracts {
  import opened Radix
  import opened Results
  import opened Texts

  /** One upload attempt of one registration. */
  datatype Upload = Upload(registrationId: string, attempt: int)

  datatype ContractError = NotAHash | NumberStartsAtOne

  const FIRST_ROOT := "models/registrations/"
  const RETRY_ROOT := "models/attempts/"

  /** `[2-9]|[1-9][0-9]+`. */
  predicate IsRetryNumber(s: string) {
    IsDecimal(s) && s != "" && s[0] != '0' && s != "1"
  }

  function ModelPrefix(registrationId: string, attempt: int): Result<string, ContractError> {
    if !IsHash(registrationId) then Err(NotAHash)
    else if attempt < 1 then Err(NumberStartsAtOne)
    else if attempt == 1 then Ok(FIRST_ROOT + registrationId + "/")
    else Ok(RETRY_ROOT + registrationId + "/a" + Decimal(attempt) + "/")
  }

  /** The canonical pattern, read from the left: root, digest, and for a retry its number. */
  function ParseModelPrefix(prefix: string): Option<Upload> {
    if FIRST_ROOT <= prefix && |prefix| == 86 && prefix[85..] == "/" && IsHash(prefix[21..85]) then
      Some(Upload(prefix[21..85], 1))
    else if RETRY_ROOT <= prefix && |prefix| > 83 && prefix[80..82] == "/a"
            && prefix[|prefix| - 1..] == "/" && IsHash(prefix[16..80])
            && IsRetryNumber(prefix[82..|prefix| - 1]) then
      Some(Upload(prefix[16..80], ParseDecimal(prefix[82..|prefix| - 1])))
    else None
  }

  predicate IsCanonical(prefix: string) {
    ParseModelPrefix(prefix).Some?
  }

  lemma RootsDiffer(s: string)
    ensures !(FIRST_ROOT <= s && RETRY_ROOT <= s)
  {
    if FIRST_ROOT <= s { assert s[7] == 'r'; }
    if RETRY_ROOT <= s { assert s[7] == 'a'; }
  }

  lemma RetryNumbers(n: nat)
    requires n > 1
    ensures IsRetryNumber(Decimal(n))
  {
    DecimalRoundTrip(n);
    DecimalRoundTrip(1);
    assert Decimal(1) == "1" by {
      assert Digits(1, 10) == Digits(0, 10) + [1];
    }
  }

  lemma RetryNumberIsBig(s: string)
    requires IsRetryNumber(s)
    ensures ParseDecimal(s) > 1
  {
    ParseRoundTrip(s);
    assert Decimal(1) == "1" by {
      assert Digits(1, 10) == Digits(0, 10) + [1];
    }
  }

  lemma RetryShape(prefix: string, rid: string, number: string)
    requires prefix == RETRY_ROOT + rid + "/a" + number + "/" && |rid| == 64
    ensures |prefix| == 83 + |number| && RETRY_ROOT <= prefix
    ensures prefix[16..80] == rid && prefix[80..82] == "/a"
    ensures prefix[82..|prefix| - 1] == number && prefix[|prefix| - 1..] == "/"
  {
    assert prefix == RETRY_ROOT + (rid + "/a" + number + "/");
    assert prefix[16..] == rid + ("/a" + number + "/");
    assert prefix[80..] == "/a" + (number + "/");
    assert prefix[82..] == number + "/";
  }

  lemma RetryParts(prefix: string)
    requires RETRY_ROOT <= prefix && |prefix| > 83 && prefix[80..82] == "/a" && prefix[|prefix| - 1..] == "/"
    ensures prefix == RETRY_ROOT + prefix[16..80] + "/a" + prefix[82..|prefix| - 1] + "/"
  {
    assert prefix[..16] == RETRY_ROOT;
    assert prefix == prefix[..16] + prefix[16..80] + prefix[80..82] + prefix[82..|prefix| - 1] + prefix[|prefix| - 1..];
  }

  lemma FirstShape(prefix: string, rid: string)
    requires |rid| == 64
    ensures prefix == FIRST_ROOT + rid + "/"
        <==> FIRST_ROOT <= prefix && |prefix| == 86 && prefix[85..] == "/" && prefix[21..85] == rid
  {
    if prefix == FIRST_ROOT + rid + "/" {
      assert prefix[21..] == rid + "/";
    }
    if FIRST_ROOT <= prefix && |prefix| == 86 {
      assert prefix == prefix[..21] + prefix[21..85] + prefix[85..];
    }
  }

  /** Parsing a prefix and building one are inverse, in both directions, for every string. */
  lemma ParseInvertsPrefix(prefix: string, upload: Upload)
    ensures ParseModelPrefix(prefix) == Some(upload)
        <==> ModelPrefix(upload.registrationId, upload.attempt) == Ok(prefix)
  {
    RootsDiffer(prefix);
    var rid, n := upload.registrationId, upload.attempt;
    if IsHash(rid) {
      FirstShape(prefix, rid);
      if n > 1 {
        var number := Decimal(n);
        RetryNumbers(n);
        DecimalRoundTrip(n);
        if prefix == RETRY_ROOT + rid + "/a" + number + "/" {
          RetryShape(prefix, rid, number);
        }
      }
    }
    if ParseModelPrefix(prefix) == Some(upload) && RETRY_ROOT <= prefix {
      RetryParts(prefix);
      RetryNumberIsBig(prefix[82..|prefix| - 1]);
      ParseRoundTrip(prefix[82..|prefix| - 1]);
    }
  }

  /** No attempt's prefix starts another attempt's: a key has at most one owner. */
  lemma OneOwner(key: string, p: string, q: string)
    requires IsCanonical(p) && IsCanonical(q) && p <= key && q <= key
    ensures p == q
  {
    if |p| <= |q| { PrefixFree(p, q); } else { PrefixFree(q, p); }
  }

  lemma PrefixFree(p: string, q: string)
    requires IsCanonical(p) && IsCanonical(q) && p <= q
    ensures p == q
  {
    RootsDiffer(p);
    RootsDiffer(q);
    assert forall k :: 0 <= k < |p| ==> p[k] == q[k];
    if FIRST_ROOT <= p {
      assert q[7] == 'r';
      assert |q| == 86;
    } else {
      assert q[7] == 'a';
      var at := |p| - 1;
      assert p[at] == '/' by { assert p[at..][0] == '/'; }
      forall k | 82 <= k < |q| - 1
        ensures q[k] != '/'
      {
        assert q[82..|q| - 1][k - 82] == q[k];
      }
    }
  }

  // ---------------------------------------------------------------- mailbox keys

  function StatusKey(registrationId: string): Result<string, ContractError> {
    if IsHash(registrationId) then Ok("mailbox/v1/" + registrationId + "/status.json") else Err(NotAHash)
  }

  /** `{n:020d}`. */
  function Padded20(n: nat): string {
    var s := Decimal(n);
    if |s| >= 20 then s else seq(20 - |s|, _ => '0') + s
  }

  function GenerationKey(registrationId: string, generation: int): Result<string, ContractError> {
    if !IsHash(registrationId) then Err(NotAHash)
    else if generation < 1 then Err(NumberStartsAtOne)
    else Ok("mailbox/v1/" + registrationId + "/generations/" + Padded20(generation) + ".bin")
  }

  /** The keys `MailboxStore.delete` accepts. */
  predicate IsGenerationKey(key: string) {
    && |key| == 112
    && key[..11] == "mailbox/v1/" && IsHash(key[11..75])
    && key[75..88] == "/generations/" && IsDecimal(key[88..108]) && key[108..] == ".bin"
  }

  /** A status key is never one `MailboxStore.delete` accepts, so no clean-up removes the status. */
  lemma StatusKeyIsNotDeletable(registrationId: string)
    requires IsHash(registrationId)
    ensures !IsGenerationKey(StatusKey(registrationId).value)
  {
  }

  /** A credential key is deletable exactly while its generation number fits in twenty digits. */
  lemma GenerationKeyIsDeletable(registrationId: string, generation: int)
    requires IsHash(registrationId) && generation >= 1
    ensures IsGenerationKey(GenerationKey(registrationId, generation).value) <==> |Decimal(generation)| <= 20
  {
    GenerationShape(GenerationKey(registrationId, generation).value, registrationId, Padded20(generation));
  }

  lemma GenerationShape(key: string, rid: string, number: string)
    requires key == "mailbox/v1/" + rid + "/generations/" + number + ".bin" && |rid| == 64
    ensures |key| == 92 + |number|
    ensures key[..11] == "mailbox/v1/" && key[11..75] == rid && key[75..88] == "/generations/"
    ensures key[88..88 + |number|] == number && key[88 + |number|..] == ".bin"
  {
    FourParts("mailbox/v1/", rid, "/generations/", number, ".bin");
  }

  lemma FourParts(a: string, b: string, c: string, d: string, e: string)
    ensures var s, i, j := a + b + c + d + e, |a| + |b|, |a| + |b| + |c|;
            && |s| == j + |d| + |e| && s[..|a|] == a && s[|a|..i] == b && s[i..j] == c && s[j..j + |d|] == d
            && s[j + |d|..] == e
  {
  }

  // ---------------------------------------------------------------- the keys spelled out

  /** 64 hexadecimal digits in lower case. */
  predicate IsId(s: string) { |s| == 64 && forall k :: 0 <= k < 64 ==> '0' <= s[k] <= '9' || 'a' <= s[k] <= 'f' }

  /** The prefix of an upload: the first attempt's, or a later one's with its number. */
  lemma PrefixIs(registrationId: string, attempt: int)
    ensures var r := ModelPrefix(registrationId, attempt);
            if !IsId(registrationId) then r == Err(NotAHash)
            else if attempt <= 0 then r == Err(NumberStartsAtOne)
            else if attempt == 1 then r == Ok("models/registrations/" + registrationId + "/")
            else r == Ok("models/attempts/" + registrationId + "/a" + Decimal(attempt) + "/")
  {
  }

  /** A number of twenty digits, or as many as it takes: the same number behind zeros. */
  predicate IsPadded(s: string, n: nat) {
    IsDecimal(s) && |s| >= 20 && ParseDecimal(s) == n && (|s| > 20 ==> s[0] != '0')
  }

  lemma PaddedIs(n: nat)
    ensures IsPadded(Padded20(n), n)
  {
    var s := Decimal(n);
    DecimalRoundTrip(n);
    if |s| < 20 {
      var zeros: string := seq(20 - |s|, _ => '0');
      var digits := seq(|s|, i requires 0 <= i < |s| => s[i] as int - '0' as int);
      ValueOfZeros(20 - |s|, digits, 10);
      var all := zeros + s;
      assert seq(|all|, i requires 0 <= i < |all| => all[i] as int - '0' as int) == Zeros(20 - |s|) + digits;
    } else {
      assert |Decimal(0)| == 1;
    }
  }

  /** The keys of the mailbox. */
  lemma MailboxKeysAre(registrationId: string, generation: int)
    ensures var status, key := StatusKey(registrationId), GenerationKey(registrationId, generation);
            if !IsId(registrationId) then status == key == Err(NotAHash)
            else
              && status == Ok("mailbox/v1/" + registrationId + "/status.json")
              && (generation <= 0 ==> key == Err(NumberStartsAtOne))
              && (generation > 0 ==>
                    && IsPadded(Padded20(generation), generation)
                    && key == Ok("mailbox/v1/" + registrationId + "/generations/" + Padded20(generation) + ".bin"))
  {
    if generation > 0 { PaddedIs(generation); }
  }
}
