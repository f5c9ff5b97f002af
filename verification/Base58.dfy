/** Base58 and SS58 addresses: `src/private_store/crypto.py`. */
module Base58 {
  import opened Radix
  import opened Results
  import opened Texts

  type Bytes = seq<Byte>

  /** A 64-byte hash; the hash function itself is a parameter of everything below. */
  type Digest64 = d: Bytes | |d| == 64 witness seq(64, _ => 0)

  /** The base58 alphabet: digits and letters without `0`, `I`, `O` and `l` (see AlphabetSpelledOut). */
  const ALPHABET: string :=
    Range('1', '9') + Range('A', 'H') + Range('J', 'N') + Range('P', 'Z') + Range('a', 'k') + Range('m', 'z')

  function Range(first: char, last: char): (r: string)
    requires first <= last < '\U{80}'
  {
    seq(last as int - first as int + 1, i requires 0 <= i <= last as int - first as int => (first as int + i) as char)
  }

  lemma AlphabetSpelledOut()
    ensures ALPHABET == "123456789ABCDEFGHJKLMNPQRSTUVWXYZabcdefghijkmnopqrstuvwxyz"
  {
    assert Range('1', '9') + Range('A', 'H') == "123456789ABCDEFGH";
    assert Range('1', '9') + Range('A', 'H') + Range('J', 'N') == "123456789ABCDEFGHJKLMN";
    assert Range('P', 'Z') == "PQRSTUVWXYZ";
    assert Range('a', 'k') == "abcdefghijk";
    assert Range('m', 'z') == "mnopqrstuvwxyz";
  }
  const SS58_PREFIX: Bytes := [83, 83, 53, 56, 80, 82, 69]

  // ---------------------------------------------------------------- base58

  datatype Error = InvalidCharacter | KeyLength | UnsupportedNetwork | AddressLength | WrongNetwork | BadChecksum

  predicate IsBase58(s: string) {
    forall k :: 0 <= k < |s| ==> s[k] in ALPHABET
  }

  function ToChars(digits: seq<nat>): (s: string)
    requires DigitsBelow(digits, 58)
  {
    seq(|digits|, i requires 0 <= i < |digits| => ALPHABET[digits[i]])
  }

  /** The position of a character in the alphabet. */
  function IndexIn(c: char, from: nat): (k: nat)
    requires from <= |ALPHABET| && c in ALPHABET[from..]
    ensures from <= k < |ALPHABET| && ALPHABET[k] == c
    decreases |ALPHABET| - from
  {
    if ALPHABET[from] == c then from else IndexIn(c, from + 1)
  }

  function ToDigits(s: string): (d: seq<nat>)
    requires IsBase58(s)
    ensures DigitsBelow(d, 58)
  {
    seq(|s|, i requires 0 <= i < |s| => IndexIn(s[i], 0))
  }

  /** What `_base58_encode` promises: the bytes rewritten in radix 58. */
  function Encoded(bytes: Bytes): string {
    ConvertBelow(bytes, 256, 58);
    ToChars(Convert(bytes, 256, 58))
  }

  /** What `_base58_decode` promises: the characters rewritten in radix 256, or a refusal. */
  function Decoded(s: string): Result<Bytes, Error> {
    if !IsBase58(s) then Err(InvalidCharacter)
    else
      ConvertBelow(ToDigits(s), 58, 256);
      Ok(Convert(ToDigits(s), 58, 256))
  }

  lemma ConvertBelow(digits: seq<nat>, from: nat, to: nat)
    requires to >= 2
    ensures DigitsBelow(Convert(digits, from, to), to)
  {
  }

  lemma AlphabetIsInjective(i: nat, j: nat)
    requires i < |ALPHABET| && j < |ALPHABET| && ALPHABET[i] == ALPHABET[j]
    ensures i == j
  {
  }

  lemma CharsAndDigits(digits: seq<nat>)
    requires DigitsBelow(digits, 58)
    ensures IsBase58(ToChars(digits)) && ToDigits(ToChars(digits)) == digits
  {
    forall k | 0 <= k < |digits|
      ensures ToDigits(ToChars(digits))[k] == digits[k]
    {
      AlphabetIsInjective(ToDigits(ToChars(digits))[k], digits[k]);
    }
  }

  /** Decoding inverts encoding on every byte string. */
  lemma DecodeEncode(bytes: Bytes)
    ensures IsBase58(Encoded(bytes))
    ensures Decoded(Encoded(bytes)) == Ok(bytes)
  {
    ConvertRoundTrip(bytes, 256, 58);
    CharsAndDigits(Convert(bytes, 256, 58));
  }

  /** Encoding inverts decoding on every alphabet string; anything else is refused. */
  lemma EncodeDecode(s: string)
    ensures Decoded(s).Ok? <==> IsBase58(s)
    ensures Decoded(s).Ok? ==> Encoded(Decoded(s).value) == s
  {
    if IsBase58(s) {
      ConvertRoundTrip(ToDigits(s), 58, 256);
      assert ToChars(ToDigits(s)) == s;
    }
  }

  /** What an encoding is: the one alphabet string of the same number with as many leading zeros. */
  lemma EncodedMeaning(bytes: Bytes, s: string)
    requires IsBase58(s)
    ensures s == Encoded(bytes)
        <==> Value(ToDigits(s), 58) == Value(bytes, 256) && LeadingZeros(ToDigits(s)) == LeadingZeros(bytes)
  {
    CharsAndDigits(Convert(bytes, 256, 58));
    ConvertRoundTrip(bytes, 256, 58);
    ValueOfConvert(bytes, 256, 58);
    Canonical(ToDigits(s), 58);
    assert ToChars(ToDigits(s)) == s;
  }

  // ---------------------------------------------------------------- int.to_bytes

  function BitLength(n: nat): nat {
    if n == 0 then 0 else 1 + BitLength(n / 2)
  }

  /** `n.to_bytes(length, "big")`, keeping the low `length` bytes. */
  function LowBytes(n: nat, length: nat): (b: Bytes)
    ensures |b| == length
  {
    if length == 0 then [] else LowBytes(n / 256, length - 1) + [n % 256]
  }

  lemma BitLengthByByte(n: nat)
    requires n > 0
    ensures n >= 256 ==> BitLength(n) == 8 + BitLength(n / 256)
    ensures n < 256 ==> 1 <= BitLength(n) <= 8
  {
    var n1 := n / 2; var n2 := n1 / 2; var n3 := n2 / 2; var n4 := n3 / 2;
    var n5 := n4 / 2; var n6 := n5 / 2; var n7 := n6 / 2; var n8 := n7 / 2;
    assert n8 == n / 256;
    assert BitLength(n) == 1 + BitLength(n1);
    assert n1 > 0 ==> BitLength(n1) == 1 + BitLength(n2);
    assert n2 > 0 ==> BitLength(n2) == 1 + BitLength(n3);
    assert n3 > 0 ==> BitLength(n3) == 1 + BitLength(n4);
    assert n4 > 0 ==> BitLength(n4) == 1 + BitLength(n5);
    assert n5 > 0 ==> BitLength(n5) == 1 + BitLength(n6);
    assert n6 > 0 ==> BitLength(n6) == 1 + BitLength(n7);
    assert n7 > 0 ==> BitLength(n7) == 1 + BitLength(n8);
  }

  /** Rounding the bit length up to bytes is exactly enough, and never one byte too many. */
  lemma {:induction false} BytesOfBitLength(n: nat)
    ensures LowBytes(n, (BitLength(n) + 7) / 8) == Digits(n, 256)
  {
    if n != 0 {
      BitLengthByByte(n);
      BytesOfBitLength(n / 256);
    }
  }

  // ---------------------------------------------------------------- the loops of the source

  /** How many `1` characters `value.lstrip("1")` takes off. */
  function LeadingOnes(s: string): nat {
    if s == "" || s[0] != '1' then 0 else 1 + LeadingOnes(s[1..])
  }

  lemma {:induction false} OnesAreZeros(s: string)
    requires IsBase58(s)
    ensures LeadingOnes(s) == LeadingZeros(ToDigits(s))
  {
    if s != "" {
      assert ALPHABET[0] == '1';
      assert ToDigits(s)[0] == IndexIn(s[0], 0);
      OnesAreZeros(s[1..]);
      assert ToDigits(s)[1..] == ToDigits(s[1..]);
    }
  }

  lemma AppendCharacter(s: string, i: nat)
    requires i < |s| && IsBase58(s[..i + 1])
    ensures s[i] in ALPHABET && IsBase58(s[..i])
    ensures Value(ToDigits(s[..i + 1]), 58) == Value(ToDigits(s[..i]), 58) * 58 + IndexIn(s[i], 0)
  {
    assert s[..i + 1][i] == s[i];
    assert forall k :: 0 <= k < i ==> s[..i][k] == s[..i + 1][k];
    assert ToDigits(s[..i + 1])[..i] == ToDigits(s[..i]);
  }

  lemma AppendKeepsBase58(s: string, i: nat)
    requires i < |s| && IsBase58(s[..i])
    ensures IsBase58(s[..i + 1]) <==> s[i] in ALPHABET
    ensures s[i] !in ALPHABET ==> !IsBase58(s)
  {
    assert s[..i + 1] == s[..i] + [s[i]];
  }

  lemma LastDigit(number: nat, digits: seq<nat>)
    requires number != 0
    ensures Digits(number, 58) + digits == Digits(number / 58, 58) + ([number % 58] + digits)
  {
    var more, last := Digits(number / 58, 58), number % 58;
    assert more + [last] + digits == more + ([last] + digits);
    FirstIsLast(number, more, last);
  }

  lemma FirstIsLast(number: nat, more: seq<nat>, last: nat)
    requires number != 0 && more == Digits(number / 58, 58) && last == number % 58
    ensures Digits(number, 58) == more + [last]
  {
  }

  lemma PrependDigit(remainder: nat, digits: seq<nat>)
    requires remainder < 58 && DigitsBelow(digits, 58)
    ensures DigitsBelow([remainder] + digits, 58)
    ensures ToChars([remainder] + digits) == [ALPHABET[remainder]] + ToChars(digits)
  {
  }

  lemma PrependZeros(zeros: nat, digits: seq<nat>)
    requires DigitsBelow(digits, 58)
    ensures DigitsBelow(Zeros(zeros) + digits, 58)
    ensures ToChars(Zeros(zeros) + digits) == seq(zeros, _ => '1') + ToChars(digits)
  {
    assert ALPHABET[0] == '1';
  }

  method Base58Encode(value: Bytes) returns (s: string)
    ensures s == Encoded(value)
  {
    var number := Value(value, 256);
    var encoded := "";
    ghost var digits: seq<nat> := [];
    while number != 0
      invariant DigitsBelow(digits, 58) && encoded == ToChars(digits)
      invariant Digits(Value(value, 256), 58) == Digits(number, 58) + digits
      decreases number
    {
      var remainder := number % 58;
      PrependDigit(remainder, digits);
      LastDigit(number, digits);
      digits := [remainder] + digits;
      encoded := [ALPHABET[remainder]] + encoded;
      number := number / 58;
    }
    var zeros := LeadingZeros(value);
    s := seq(zeros, _ => '1') + encoded;
    assert Digits(Value(value, 256), 58) == digits;
    PrependZeros(zeros, digits);
  }

  /** The number the characters denote, read left to right; refused at the first foreign one. */
  method ReadNumber(value: string) returns (r: Result<nat, Error>)
    ensures r == if IsBase58(value) then Ok(Value(ToDigits(value), 58)) else Err(InvalidCharacter)
  {
    var number := 0;
    for i := 0 to |value|
      invariant IsBase58(value[..i])
      invariant number == Value(ToDigits(value[..i]), 58)
    {
      AppendKeepsBase58(value, i);
      if value[i] !in ALPHABET {
        return Err(InvalidCharacter);
      }
      AppendCharacter(value, i);
      number := number * 58 + IndexIn(value[i], 0);
    }
    assert value[..|value|] == value;
    r := Ok(number);
  }

  lemma DecodedParts(s: string)
    requires IsBase58(s)
    ensures var n := Value(ToDigits(s), 58);
            var zeros: Bytes := seq(LeadingOnes(s), _ => 0);
            Decoded(s) == Ok(zeros + LowBytes(n, (BitLength(n) + 7) / 8))
  {
    OnesAreZeros(s);
    BytesOfBitLength(Value(ToDigits(s), 58));
    assert Zeros(LeadingOnes(s)) == seq(LeadingOnes(s), _ => 0);
  }

  method Base58Decode(value: string) returns (r: Result<Bytes, Error>)
    ensures r == Decoded(value)
  {
    var number := ReadNumber(value);
    if number.Err? {
      return Err(number.error);
    }
    var decoded := LowBytes(number.value, (BitLength(number.value) + 7) / 8);
    var zeros: Bytes := seq(LeadingOnes(value), _ => 0);
    DecodedParts(value);
    r := Ok(zeros + decoded);
  }

  // ---------------------------------------------------------------- SS58

  function Checksum(payload: Bytes, blake2b: Bytes -> Digest64): Bytes {
    blake2b(SS58_PREFIX + payload)[..2]
  }

  function EncodeSs58(key: Bytes, network: int, blake2b: Bytes -> Digest64): Result<string, Error> {
    if |key| != 32 then Err(KeyLength)
    else if !(0 <= network < 64) then Err(UnsupportedNetwork)
    else
      var payload: Bytes := [network] + key;
      Ok(Encoded(payload + Checksum(payload, blake2b)))
  }

  function DecodeSs58(address: string, expectedNetwork: int, blake2b: Bytes -> Digest64): Result<Bytes, Error> {
    match Decoded(address)
    case Err(e) => Err(e)
    case Ok(decoded) =>
      if |decoded| != 35 then Err(AddressLength)
      else
        var payload, checksum := decoded[..33], decoded[33..];
        if payload[0] != expectedNetwork then Err(WrongNetwork)
        else if checksum != Checksum(payload, blake2b) then Err(BadChecksum)
        else Ok(payload[1..])
  }

  /**
   * For every hash: an address is accepted with this key exactly when it is the address the key
   * encodes to. So decoding inverts encoding, each key has one address, and no two keys share one.
   */
  lemma Ss58RoundTrip(key: Bytes, network: int, address: string, blake2b: Bytes -> Digest64)
    requires 0 <= network < 64
    ensures EncodeSs58(key, network, blake2b) == Ok(address)
        <==> DecodeSs58(address, network, blake2b) == Ok(key)
  {
    if |key| == 32 {
      var payload: Bytes := [network] + key;
      var whole := payload + Checksum(payload, blake2b);
      DecodeEncode(whole);
      assert whole[..33] == payload && whole[33..] == Checksum(payload, blake2b);
      assert payload[1..] == key;
    }
    EncodeDecode(address);
    if DecodeSs58(address, network, blake2b) == Ok(key) {
      var decoded := Decoded(address).value;
      assert decoded == decoded[..33] + decoded[33..];
      assert decoded[..33] == [network] + key;
    }
  }

  /** The characters of `SS58PRE`. */
  predicate IsSs58Mark(mark: Bytes) {
    |mark| == 7 && forall i :: 0 <= i < 7 ==> mark[i] == "SS58PRE"[i] as int
  }

  /**
   * A key of 32 bytes has an address on the networks below 64. It stands for the network, the key, and the first two
   * bytes of the hash of `SS58PRE` and both.
   */
  lemma AddressIs(key: Bytes, network: int, blake2b: Bytes -> Digest64, mark: Bytes)
    requires IsSs58Mark(mark)
    ensures var r := EncodeSs58(key, network, blake2b);
            if |key| != 32 then r == Err(KeyLength)
            else if network < 0 || network >= 64 then r == Err(UnsupportedNetwork)
            else r.Ok? && Decoded(r.value) == Ok([network] + key + blake2b(mark + [network] + key)[..2])
  {
    assert mark == SS58_PREFIX;
    if |key| == 32 && 0 <= network < 64 {
      var payload: Bytes := [network] + key;
      DecodeEncode(payload + Checksum(payload, blake2b));
      assert mark + [network] + key == SS58_PREFIX + payload;
    }
  }

  /** Why a text is no address of a network: its characters, its length, the network, the last bytes, in this order. */
  lemma RefusalIs(address: string, network: int, blake2b: Bytes -> Digest64, mark: Bytes)
    requires IsSs58Mark(mark)
    ensures var r := DecodeSs58(address, network, blake2b);
            if !IsBase58(address) then r == Err(InvalidCharacter)
            else
              var b := Decoded(address).value;
              if |b| != 35 then r == Err(AddressLength)
              else if b[0] != network then r == Err(WrongNetwork)
              else if b[33..] != blake2b(mark + b[..33])[..2] then r == Err(BadChecksum)
              else r == Ok(b[1..33])
  {
    assert mark == SS58_PREFIX;
    if IsBase58(address) && |Decoded(address).value| == 35 {
      var b := Decoded(address).value;
      assert b[..33][1..] == b[1..33];
    }
  }
}
