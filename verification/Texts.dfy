/** Bytes and tests of texts shared by the modules. */
module Texts {

  type Byte = b: nat | b < 256

  predicate StartsWith(s: string, prefix: string) { |prefix| <= |s| && s[..|prefix|] == prefix }

  predicate IsHexDigit(c: char) { '0' <= c <= '9' || 'a' <= c <= 'f' }

  /** A lowercase SHA-256 hex digest. */
  predicate IsHash(s: string) {
    |s| == 64 && forall k :: 0 <= k < |s| ==> IsHexDigit(s[k])
  }
}
